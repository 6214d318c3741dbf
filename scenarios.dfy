/**
 * The boards of PuzzleStateTest.java and what the rules decide for them.
 */
module Scenarios {
  import opened Outcomes
  import opened Geometry
  import opened Rules
  import opened PuzzleModel
  import opened Solver

  /** The goal board of the tests: the square at (1, 1), the corners as at the start. */
  const GoalBoard: Layout :=
    [Position(1, 1), Position(0, 0), Position(0, 2), Position(2, 0), Position(2, 2)]

  const ThirdBoard: Layout :=
    [Position(2, 4), Position(0, 0), Position(0, 2), Position(2, 0), Position(0, 4)]

  const FourthBoard: Layout :=
    [Position(0, 0), Position(0, 2), Position(0, 4), Position(2, 0), Position(2, 3)]

  /** The starting board passes the constructor's checks. */
  lemma DefaultLayoutValid()
    ensures CheckPositions(DefaultLayout) == None
  {
    var a := DefaultLayout;
    forall t: Tile, u: Tile, p | t < u && p in OverlapOf(a, t)
      ensures p !in OverlapOf(a, u)
    {
      // On this board the five two-by-two boxes are already apart.
      FootprintShape(a, t);
      FootprintShape(a, u);
      assert InBox(a[t], p);
    }
  }

  /** The rejected argument lists of the constructor test, and a sixth anchor. */
  lemma ConstructorRejects()
    ensures CheckPositions([Position(0, 0)]) == Some(IllegalArgument)
    ensures CheckPositions([Position(0, 0), Position(1, 1), Position(2, 2), Position(3, 3)])
      == Some(IllegalArgument)
    ensures CheckPositions([Position(1, 1), Position(1, 1), Position(1, 1), Position(1, 1), Position(1, 1)])
      == Some(IllegalArgument)
    ensures CheckPositions([Position(0, 1), Position(0, 2), Position(0, 3), Position(0, 4), Position(0, 5)])
      == Some(IllegalArgument)
    ensures CheckPositions([Position(0, 4), Position(0, 0), Position(0, 1), Position(2, 0), Position(2, 2)])
      == Some(IllegalArgument)
    ensures CheckPositions(DefaultLayout + [Position(3, 5)]) == Some(ArrayIndexOutOfBounds)
  {
    var b := [Position(1, 1), Position(1, 1), Position(1, 1), Position(1, 1), Position(1, 1)];
    assert Position(1, 1) in OverlapOf(b, 0) && Position(1, 1) in OverlapOf(b, 1);
    var c := [Position(0, 1), Position(0, 2), Position(0, 3), Position(0, 4), Position(0, 5)];
    assert Position(0, 2) in OverlapOf(c, 0) && Position(0, 2) in OverlapOf(c, 1);
    var e := [Position(0, 4), Position(0, 0), Position(0, 1), Position(2, 0), Position(2, 2)];
    assert Position(0, 1) in OverlapOf(e, 1) && Position(0, 1) in OverlapOf(e, 2);
  }

  lemma GoalScenarios()
    ensures !IsGoal(DefaultLayout)
    ensures IsGoal(GoalBoard)
    ensures !IsGoal(ThirdBoard)
    ensures !IsGoal(FourthBoard)
  {
  }

  /** The canMove table of the starting board: only the square DOWN and the bottom-right piece RIGHT. */
  lemma DefaultLayoutPair(t: Tile, d: Direction)
    ensures CanMove(DefaultLayout, t, d) <==>
      (t == Square && d == Down) ||
      (t == BottomRight && d == Right)
  {
    if t == Square {
    } else if t == TopLeft {
    } else if t == TopRight {
    } else if t == BottomLeft {
    } else {
    }
  }

  /** The legal-move map of the starting board. */
  lemma DefaultLayoutLegalMoves()
    ensures forall t: Tile, d :: CanMove(DefaultLayout, t, d) <==>
      (t == Square && d == Down) ||
      (t == BottomRight && d == Right)
    ensures LegalMoveMap(DefaultLayout) == map[Square := Down, BottomRight := Right]
  {
    forall t: Tile, d ensures CanMove(DefaultLayout, t, d) <==>
      (t == Square && d == Down) ||
      (t == BottomRight && d == Right)
    {
      DefaultLayoutPair(t, d);
    }
    LegalMapFromPairs(DefaultLayout, map[Square := Down, BottomRight := Right]);
  }

  /** A map that lists every movable tile with its last legal direction is the legal-move map. */
  lemma LegalMapFromPairs(a: Layout, m: map<Tile, Direction>)
    requires forall t: Tile, d :: CanMove(a, t, d) ==> t in m
    requires forall t: Tile :: t in m ==>
      CanMove(a, t, m[t]) && forall e :: Ordinal(m[t]) < Ordinal(e) ==> !CanMove(a, t, e)
    ensures LegalMoveMap(a) == m
  {
    forall t: Tile ensures t in LegalMoveMap(a) <==> t in m {
      LegalMoveMapSpec(a, t);
      if t in m {
        assert CanMove(a, t, m[t]);
      }
    }
    forall t: Tile | t in m ensures LegalMoveMap(a)[t] == m[t] {
      LegalMoveMapSpec(a, t);
      var d, e := LegalMoveMap(a)[t], m[t];
      assert Ordinal(d) == Ordinal(e);
    }
  }

  /** The canMove table of the goal board: the top-right and bottom-right pieces move RIGHT. */
  lemma GoalBoardPair(t: Tile, d: Direction)
    ensures CanMove(GoalBoard, t, d) <==>
      (t == TopRight && d == Right) ||
      (t == BottomRight && d == Right)
  {
    if t == Square {
    } else if t == TopLeft {
    } else if t == TopRight {
    } else if t == BottomLeft {
    } else {
    }
  }

  /** The legal-move map of the goal board. */
  lemma GoalBoardLegalMoves()
    ensures forall t: Tile, d :: CanMove(GoalBoard, t, d) <==>
      (t == TopRight && d == Right) ||
      (t == BottomRight && d == Right)
    ensures LegalMoveMap(GoalBoard) == map[TopRight := Right, BottomRight := Right]
  {
    forall t: Tile, d ensures CanMove(GoalBoard, t, d) <==>
      (t == TopRight && d == Right) ||
      (t == BottomRight && d == Right)
    {
      GoalBoardPair(t, d);
    }
    LegalMapFromPairs(GoalBoard, map[TopRight := Right, BottomRight := Right]);
  }

  /** The canMove table of the third test board. */
  lemma ThirdBoardPair(t: Tile, d: Direction)
    ensures CanMove(ThirdBoard, t, d) <==>
      (t == Square && d == Left) ||
      (t == TopRight && d == Down) ||
      (t == BottomLeft && d == Right)
  {
    if t == Square {
    } else if t == TopLeft {
    } else if t == TopRight {
    } else if t == BottomLeft {
    } else {
    }
  }

  /** The legal-move map of the third test board. */
  lemma ThirdBoardLegalMoves()
    ensures forall t: Tile, d :: CanMove(ThirdBoard, t, d) <==>
      (t == Square && d == Left) ||
      (t == TopRight && d == Down) ||
      (t == BottomLeft && d == Right)
    ensures LegalMoveMap(ThirdBoard) == map[Square := Left, TopRight := Down, BottomLeft := Right]
  {
    forall t: Tile, d ensures CanMove(ThirdBoard, t, d) <==>
      (t == Square && d == Left) ||
      (t == TopRight && d == Down) ||
      (t == BottomLeft && d == Right)
    {
      ThirdBoardPair(t, d);
    }
    LegalMapFromPairs(ThirdBoard, map[Square := Left, TopRight := Down, BottomLeft := Right]);
  }

  /** The canMove table of the fourth test board: the bottom-right piece can move UP, RIGHT and LEFT. */
  lemma FourthBoardPair(t: Tile, d: Direction)
    ensures CanMove(FourthBoard, t, d) <==>
      (t == TopLeft && d == Down) ||
      (t == TopRight && d == Down) ||
      (t == BottomLeft && d == Right) ||
      (t == BottomRight && d != Down)
  {
    if t == Square {
    } else if t == TopLeft {
    } else if t == TopRight {
    } else if t == BottomLeft {
    } else {
    }
  }

  /** The legal-move map of the fourth test board keeps only LEFT, the last legal direction of the bottom-right piece. */
  lemma FourthBoardLegalMoves()
    ensures forall t: Tile, d :: CanMove(FourthBoard, t, d) <==>
      (t == TopLeft && d == Down) ||
      (t == TopRight && d == Down) ||
      (t == BottomLeft && d == Right) ||
      (t == BottomRight && d != Down)
    ensures LegalMoveMap(FourthBoard) == map[TopLeft := Down, TopRight := Down, BottomLeft := Right, BottomRight := Left]
  {
    forall t: Tile, d ensures CanMove(FourthBoard, t, d) <==>
      (t == TopLeft && d == Down) ||
      (t == TopRight && d == Down) ||
      (t == BottomLeft && d == Right) ||
      (t == BottomRight && d != Down)
    {
      FourthBoardPair(t, d);
    }
    LegalMapFromPairs(FourthBoard, map[TopLeft := Down, TopRight := Down, BottomLeft := Right, BottomRight := Left]);
  }

  /**
   * The `==` guards leave row 3 unguarded: a board with the square in the
   * bottom row passes the constructor's checks, and the square may still
   * move DOWN, off the board.
   */
  lemma BottomRowUnguarded()
    ensures CheckPositions([Position(3, 4), Position(0, 0), Position(0, 2), Position(2, 0), Position(1, 1)]) == None
    ensures CanMove([Position(3, 4), Position(0, 0), Position(0, 2), Position(2, 0), Position(1, 1)], Square, Down)
    ensures !IsOnBoard(Moved([Position(3, 4), Position(0, 0), Position(0, 2), Position(2, 0), Position(1, 1)], Square, Down)[Square])
  {
    var a: Layout := [Position(3, 4), Position(0, 0), Position(0, 2), Position(2, 0), Position(1, 1)];
    forall t: Tile, u: Tile, p | t < u && p in OverlapOf(a, t)
      ensures p !in OverlapOf(a, u)
    {
      FootprintShape(a, t);
      FootprintShape(a, u);
      assert InBox(a[t], p);
    }
  }

  /**
   * A legal move can make two footprints share a cell. TOPRIGHT moving LEFT
   * tests its right-hand cell (0,6), which is off the board and so counts as
   * free, and the cell below its anchor, (1,5), which is free. The cell it
   * enters, (0,4), belongs to the square and is never tested.
   */
  lemma LegalMoveCanOverlap()
    ensures CheckPositions([Position(0, 3), Position(2, 0), Position(0, 5), Position(2, 2), Position(2, 4)]) == None
    ensures CanMove([Position(0, 3), Position(2, 0), Position(0, 5), Position(2, 2), Position(2, 4)], TopRight, Left)
    ensures var b := Moved([Position(0, 3), Position(2, 0), Position(0, 5), Position(2, 2), Position(2, 4)], TopRight, Left);
      Position(0, 4) in OverlapOf(b, Square) && Position(0, 4) in OverlapOf(b, TopRight)
    ensures !FootprintsDisjoint(Moved([Position(0, 3), Position(2, 0), Position(0, 5), Position(2, 2), Position(2, 4)], TopRight, Left))
  {
    var a: Layout := [Position(0, 3), Position(2, 0), Position(0, 5), Position(2, 2), Position(2, 4)];
    forall t: Tile, u: Tile, p | t < u && p in OverlapOf(a, t)
      ensures p !in OverlapOf(a, u)
    {
      FootprintShape(a, t);
      FootprintShape(a, u);
      assert InBox(a[t], p);
    }
    var b := Moved(a, TopRight, Left);
    assert Position(0, 4) in OverlapOf(b, Square) && Position(0, 4) in OverlapOf(b, TopRight);
  }

  /**
   * BOTTOMRIGHT's anchor counts as free even where another piece covers it:
   * here the square covers (2,2), BOTTOMRIGHT moving UP tests its own anchor
   * (2,2) and the free cell (1,3), and after the move both footprints hold (2,2).
   */
  lemma BottomRightEntersCoveredAnchor()
    ensures CheckPositions([Position(1, 1), Position(0, 4), Position(2, 4), Position(2, 0), Position(2, 2)]) == None
    ensures Position(2, 2) in OverlapOf([Position(1, 1), Position(0, 4), Position(2, 4), Position(2, 0), Position(2, 2)], Square)
    ensures CanMove([Position(1, 1), Position(0, 4), Position(2, 4), Position(2, 0), Position(2, 2)], BottomRight, Up)
    ensures var b := Moved([Position(1, 1), Position(0, 4), Position(2, 4), Position(2, 0), Position(2, 2)], BottomRight, Up);
      Position(2, 2) in OverlapOf(b, Square) && Position(2, 2) in OverlapOf(b, BottomRight)
    ensures !FootprintsDisjoint(Moved([Position(1, 1), Position(0, 4), Position(2, 4), Position(2, 0), Position(2, 2)], BottomRight, Up))
  {
    var a: Layout := [Position(1, 1), Position(0, 4), Position(2, 4), Position(2, 0), Position(2, 2)];
    forall t: Tile, u: Tile, p | t < u && p in OverlapOf(a, t)
      ensures p !in OverlapOf(a, u)
    {
      FootprintShape(a, t);
      FootprintShape(a, u);
      assert InBox(a[t], p);
    }
    var b := Moved(a, BottomRight, Up);
    assert Position(2, 2) in OverlapOf(b, Square) && Position(2, 2) in OverlapOf(b, BottomRight);
  }

  /**
   * Moving back is not always legal: on the goal board the top-right piece
   * moves RIGHT, and from there its LEFT test hits its own cell.
   */
  lemma TopRightMoveNotUndoable()
    ensures CanMove(GoalBoard, TopRight, Right)
    ensures !CanMove(Moved(GoalBoard, TopRight, Right), TopRight, Left)
  {
    var a := GoalBoard;
    var cells := CheckedCells(TopRight, Right, a[TopRight]);
    assert IsOverlapped(a, cells.0) && IsOverlapped(a, cells.1);
    TopRightLeftTestsOwnCell(Moved(a, TopRight, Right));
  }

  /**
   * A root node for the starting board pairs the square with RIGHT (the
   * bottom-right piece's direction), which is illegal; the one entry left
   * then makes the next call fail.
   */
  lemma DefaultRootPendingMoves()
    ensures Pick(map[Square := Down, BottomRight := Right]) ==
      Picked(Square, BottomRight, Right, map[Square := Down])
    ensures !CanMove(DefaultLayout, Square, Right)
    ensures Pick(map[Square := Down]) == OnlyOne
  {
    DefaultLayoutPair(Square, Right);
    var ops := map[Square := Down, BottomRight := Right];
    assert ops - {BottomRight} == map[Square := Down];
  }

  /**
   * Cloning the starting board gives a distinct, equal board; moving the
   * clone leaves the original as it was and makes the two unequal.
   */
  method CloneThenMove() returns (original: PuzzleState, copy: PuzzleState)
    ensures original.Valid() && copy.Valid() && copy != original
    ensures original.Anchors() == DefaultLayout
    ensures copy.Anchors() == Moved(DefaultLayout, Square, Down)
    ensures !copy.Equals(original) && !original.Equals(copy)
  {
    original := new PuzzleState.Initial();
    DefaultLayoutValid();
    var c := original.Clone();
    copy := c.value;
    assert copy != original && copy.Equals(original);
    assert copy.HashCode() == original.HashCode();
    copy.Move(Square, Down);
    MoveUndo(DefaultLayout, Square, Down);
  }

  /** Expanding a root node for the starting board: no child, then a failure. */
  method ExpandDefaultRoot() returns (root: Node, first: Result<Option<Node>>, second: Result<Option<Node>>)
    ensures root.Valid() && root.state.Anchors() == DefaultLayout
    ensures first == Success(None)
    ensures second == Failure(NoSuchElement)
    ensures root.HasNextChild() && root.operators == map[Square := Down]
  {
    var board := new PuzzleState.Initial();
    root := new Node(board);
    DefaultLayoutLegalMoves();
    DefaultRootPendingMoves();
    first := root.NextChild();
    second := root.NextChild();
  }
}
