/**
 * The rules of the board, as pure functions of the five anchors: footprints,
 * the availability test, move legality, the goal condition, moves and the
 * legal-move map. The class in puzzle_state.dfy keeps the anchors in an array
 * and answers its queries with these functions.
 */
module Rules {
  import opened Outcomes
  import opened Geometry

  const BoardHeight := 4
  const BoardWidth := 6

  /** Piece indices. */
  const Square := 0
  const TopLeft := 1
  const TopRight := 2
  const BottomLeft := 3
  const BottomRight := 4

  type Tile = t: int | 0 <= t < 5

  /** The five anchors, indexed by tile. */
  type Layout = a: seq<Position> | |a| == 5
    witness [Position(0, 0), Position(0, 0), Position(0, 0), Position(0, 0), Position(0, 0)]

  /** The layout built by the no-argument constructor. */
  const DefaultLayout: Layout :=
    [Position(0, 4), Position(0, 0), Position(0, 2), Position(2, 0), Position(2, 2)]

  predicate IsOnBoard(p: Position)
  {
    0 <= p.row < BoardHeight && 0 <= p.col < BoardWidth
  }

  // ---------------------------------------------------------------- footprints

  /** The 2x2 box whose top-left cell is `anchor`. */
  predicate InBox(anchor: Position, p: Position)
  {
    anchor.row <= p.row <= anchor.row + 1 && anchor.col <= p.col <= anchor.col + 1
  }

  /** The cell of its box that a corner piece leaves open. */
  function OpenCell(t: Tile, anchor: Position): Position
    requires t != Square
  {
    if t == TopLeft then anchor.RightOf().Below()
    else if t == TopRight then anchor.Below()
    else if t == BottomLeft then anchor.RightOf()
    else anchor
  }

  /** Reference shape: a piece covers its box, minus the open cell for a corner piece. */
  predicate Covers(t: Tile, anchor: Position, p: Position)
  {
    InBox(anchor, p) && (t == Square || p != OpenCell(t, anchor))
  }

  /** `overlapOf`: the cells tile `t` occupies, listed as the source lists them. */
  function OverlapOf(a: Layout, t: Tile): (cells: seq<Position>)
    ensures |cells| == if t == Square then 4 else 3
  {
    var p := a[t];
    if t == Square then [p, p.RightOf(), p.Below(), p.RightOf().Below()]
    else if t == TopLeft then [p, p.RightOf(), p.Below()]
    else if t == TopRight then [p, p.RightOf(), p.RightOf().Below()]
    else if t == BottomLeft then [p, p.Below(), p.Below().RightOf()]
    else [p.Below(), p.Below().RightOf(), p.RightOf()]
  }

  /**
   * The listed cells are the reference shape: the whole box for the square,
   * the box minus one open cell for a corner piece. So every piece lies in its
   * anchor's box, and only the bottom-right piece leaves its own anchor out.
   */
  lemma FootprintShape(a: Layout, t: Tile)
    ensures forall p :: p in OverlapOf(a, t) <==> Covers(t, a[t], p)
    ensures forall p :: p in OverlapOf(a, t) ==> InBox(a[t], p)
    ensures a[t] in OverlapOf(a, t) <==> t != BottomRight
    ensures t == Square ==> forall p :: InBox(a[t], p) ==> p in OverlapOf(a, t)
  {
  }

  /** `checkForOverlaps` passes: no cell lies in two footprints. */
  predicate FootprintsDisjoint(a: Layout)
  {
    forall t: Tile, u: Tile, p :: t < u && p in OverlapOf(a, t) ==> p !in OverlapOf(a, u)
  }

  // ---------------------------------------------------------------- availability

  /**
   * `isOverlapped`, whose name reads backwards: it is true when the cell is
   * AVAILABLE. Off-board cells and the bottom-right anchor count as available
   * even when a piece covers them; otherwise the cell must lie in no footprint
   * (the loop over the five tiles, unrolled).
   */
  predicate IsOverlapped(a: Layout, p: Position)
  {
    !IsOnBoard(p) || p == a[BottomRight] || Uncovered(a, p)
  }

  /** No piece covers `p`, by the reference shapes. */
  predicate Uncovered(a: Layout, p: Position)
  {
    && !Covers(Square, a[Square], p)
    && !Covers(TopLeft, a[TopLeft], p)
    && !Covers(TopRight, a[TopRight], p)
    && !Covers(BottomLeft, a[BottomLeft], p)
    && !Covers(BottomRight, a[BottomRight], p)
  }

  /**
   * Availability as the source computes it: off the board, the bottom-right
   * anchor, or in none of the five `overlapOf` lists.
   */
  lemma {:induction false} AvailableIffInNoFootprint(a: Layout, p: Position)
    ensures IsOverlapped(a, p) <==>
      !IsOnBoard(p) || p == a[BottomRight] || forall t: Tile :: p !in OverlapOf(a, t)
  {
    forall t: Tile ensures p in OverlapOf(a, t) <==> Covers(t, a[t], p) {
      FootprintShape(a, t);
    }
  }

  // ---------------------------------------------------------------- legality

  /** The guard that opens each of canMoveUp/Right/Down/Left; it tests `==`, not `>=`. */
  predicate AtEdge(anchor: Position, d: Direction)
  {
    match d
    case Up => anchor.row == 0
    case Right => anchor.col + 1 == BoardWidth - 1
    case Down => anchor.row + 1 == BoardHeight - 1
    case Left => anchor.col == 0
  }

  /** The two cells canMoveUp/Right/Down/Left test for tile `t` anchored at `p`. */
  function CheckedCells(t: Tile, d: Direction, p: Position): (Position, Position)
  {
    match d
    case Up =>
      if t == BottomLeft then (p.Above(), p.RightOf())
      else if t == BottomRight then (p, p.Above().RightOf())
      else (p.Above(), p.Above().RightOf())
    case Right =>
      if t == TopLeft then (p.RightOf().RightOf(), p.RightOf().Below())
      else if t == BottomLeft then (p.RightOf(), p.RightOf().RightOf().Below())
      else (p.RightOf().RightOf(), p.RightOf().RightOf().Below())
    case Down =>
      if t == TopLeft then (p.Below().Below(), p.RightOf().Below())
      else if t == TopRight then (p.Below(), p.RightOf().Below().Below())
      else (p.Below().Below(), p.Below().Below().RightOf())
    case Left =>
      if t == TopRight then (p.RightOf(), p.Below())
      else if t == BottomRight then (p, p.Below().LeftOf())
      else (p.LeftOf(), p.LeftOf().Below())
  }

  /** `canMove`: past the edge guard, both checked cells are available. */
  predicate CanMove(a: Layout, t: Tile, d: Direction)
  {
    var cells := CheckedCells(t, d, a[t]);
    !AtEdge(a[t], d) && IsOverlapped(a, cells.0) && IsOverlapped(a, cells.1)
  }

  /** The edge guards: a legal move never starts from the guarded row or column. */
  lemma EdgeGuards(a: Layout, t: Tile)
    ensures CanMove(a, t, Up) ==> a[t].row != 0
    ensures CanMove(a, t, Right) ==> a[t].col != 4
    ensures CanMove(a, t, Down) ==> a[t].row != 2
    ensures CanMove(a, t, Left) ==> a[t].col != 0
  {
  }

  /** Rows 0..2 and columns 0..4: the anchors the `==` guards actually protect. */
  predicate InGuardedRange(p: Position)
  {
    0 <= p.row <= 2 && 0 <= p.col <= 4
  }

  /**
   * For an anchor in the guarded range, every cell `canMove` inspects is on
   * the board, and a legal move keeps the anchor in the guarded range.
   */
  lemma GuardedMovesStayInRange(a: Layout, t: Tile, d: Direction)
    requires InGuardedRange(a[t])
    ensures !AtEdge(a[t], d) ==>
      IsOnBoard(CheckedCells(t, d, a[t]).0) && IsOnBoard(CheckedCells(t, d, a[t]).1)
    ensures CanMove(a, t, d) ==> InGuardedRange(a[t].Neighbour(d))
  {
  }

  /**
   * The checked cells are exactly the cells the piece newly enters when it
   * slides, for every (tile, direction) except TOPRIGHT moving LEFT.
   */
  lemma {:induction false} CheckedCellsAreEntered(a: Layout, t: Tile, d: Direction)
    requires t != TopRight || d != Left
    ensures var cells := CheckedCells(t, d, a[t]);
      forall q :: (q == cells.0 || q == cells.1) <==>
        Covers(t, a[t].Neighbour(d), q) && !Covers(t, a[t], q)
  {
    var p := a[t];
    var cells := CheckedCells(t, d, p);
    forall q ensures (q == cells.0 || q == cells.1) <==>
        Covers(t, p.Neighbour(d), q) && !Covers(t, p, q)
    {
      if t == Square {
      } else if t == TopLeft {
      } else if t == TopRight {
      } else if t == BottomLeft {
      } else {
      }
    }
  }

  /**
   * TOPRIGHT moving LEFT tests its own right-hand cell, which its footprint
   * covers: the move is refused whenever that cell is on the board and is not
   * the bottom-right anchor, and the cell it would enter on the left is never
   * tested.
   */
  lemma TopRightLeftTestsOwnCell(a: Layout)
    requires IsOnBoard(a[TopRight].RightOf()) && a[TopRight].RightOf() != a[BottomRight]
    ensures !CanMove(a, TopRight, Left)
    ensures a[TopRight].RightOf() in OverlapOf(a, TopRight)
    ensures a[TopRight].LeftOf() != CheckedCells(TopRight, Left, a[TopRight]).0
    ensures a[TopRight].LeftOf() != CheckedCells(TopRight, Left, a[TopRight]).1
  {
    assert Covers(TopRight, a[TopRight], a[TopRight].RightOf());
  }

  /** The bottom-right anchor is always available, so its UP and LEFT tests of it always pass. */
  lemma BottomRightAnchorAvailable(a: Layout)
    ensures IsOverlapped(a, a[BottomRight])
    ensures CanMove(a, BottomRight, Up) <==>
      a[BottomRight].row != 0 && IsOverlapped(a, a[BottomRight].Above().RightOf())
    ensures CanMove(a, BottomRight, Left) <==>
      a[BottomRight].col != 0 && IsOverlapped(a, a[BottomRight].Below().LeftOf())
  {
  }

  // ---------------------------------------------------------------- moves

  /** `move`: anchor `t` steps to its neighbour; nothing is checked. */
  function Moved(a: Layout, t: Tile, d: Direction): (b: Layout)
    ensures b[t] == a[t].Neighbour(d)
    ensures forall u: Tile :: u != t ==> b[u] == a[u]
  {
    a[t := a[t].Neighbour(d)]
  }

  /** A move always changes the layout, and the opposite move restores it. */
  lemma MoveUndo(a: Layout, t: Tile, d: Direction)
    ensures Moved(a, t, d) != a
    ensures Moved(Moved(a, t, d), t, Opposite(d)) == a
  {
    NeighbourUndo(a[t], d);
    assert Moved(a, t, d)[t] != a[t];
  }

  // ---------------------------------------------------------------- goal

  /** The goal test: the square's anchor is each corner piece's inner corner. */
  predicate IsGoal(a: Layout)
  {
    && a[Square] == a[TopLeft].RightOf().Below()
    && a[Square] == a[TopRight].LeftOf().Below()
    && a[Square] == a[BottomLeft].RightOf().Above()
    && a[Square] == a[BottomRight].LeftOf().Above()
  }

  /** The four corner pieces pulled flush against a square anchored at `sq`. */
  function FlushLayout(sq: Position): Layout
  {
    [sq,
     Position(sq.row - 1, sq.col - 1),
     Position(sq.row - 1, sq.col + 1),
     Position(sq.row + 1, sq.col - 1),
     Position(sq.row + 1, sq.col + 1)]
  }

  /** The goal holds exactly for the flush arrangement around the square. */
  lemma {:induction false} GoalIsFlush(a: Layout)
    ensures IsGoal(a) <==> a == FlushLayout(a[Square])
  {
    if IsGoal(a) {
      var f := FlushLayout(a[Square]);
      assert forall i | 0 <= i < 5 :: a[i] == f[i];
    }
  }

  /** In the goal arrangement no two footprints share a cell. */
  lemma {:induction false} FlushLayoutDisjoint(sq: Position)
    ensures FootprintsDisjoint(FlushLayout(sq))
  {
    var f := FlushLayout(sq);
    forall t: Tile, u: Tile, p | t < u && p in OverlapOf(f, t)
      ensures p !in OverlapOf(f, u)
    {
    }
  }

  // ---------------------------------------------------------------- construction

  /**
   * The constructor's checks, in order: a sixth anchor overruns the
   * five-slot array; then the count, the board bounds and the footprints.
   */
  function CheckPositions(ps: seq<Position>): (r: Option<Error>)
    ensures r == None <==>
      |ps| == 5 && (forall i | 0 <= i < 5 :: IsOnBoard(ps[i])) && FootprintsDisjoint(ps)
    ensures r == Some(ArrayIndexOutOfBounds) <==> |ps| > 5
    ensures r == None || r == Some(ArrayIndexOutOfBounds) || r == Some(IllegalArgument)
  {
    if |ps| > 5 then Some(ArrayIndexOutOfBounds)
    else if |ps| != 5 then Some(IllegalArgument)
    else if exists i | 0 <= i < 5 :: !IsOnBoard(ps[i]) then Some(IllegalArgument)
    else if !FootprintsDisjoint(ps) then Some(IllegalArgument)
    else None
  }

  // ---------------------------------------------------------------- legal-move map

  /** The last of the first `k` scanned directions in which `t` can move. */
  function LastLegal(a: Layout, t: Tile, k: nat): Option<Direction>
    requires k <= |Directions|
  {
    if k == 0 then None
    else if CanMove(a, t, Directions[k - 1]) then Some(Directions[k - 1])
    else LastLegal(a, t, k - 1)
  }

  /** `getLegalMoves`: each movable tile mapped to the last legal direction of the scan. */
  function LegalMoveMap(a: Layout): map<Tile, Direction>
  {
    map t: Tile | 0 <= t < 5 && LastLegal(a, t, |Directions|).Some? :: LastLegal(a, t, |Directions|).value
  }

  lemma {:induction false} LastLegalSpec(a: Layout, t: Tile, k: nat)
    requires k <= |Directions|
    ensures LastLegal(a, t, k).Some? <==> exists j | 0 <= j < k :: CanMove(a, t, Directions[j])
    ensures LastLegal(a, t, k).Some? ==>
      var d := LastLegal(a, t, k).value;
      Ordinal(d) < k && CanMove(a, t, d) &&
      forall j | Ordinal(d) < j < k :: !CanMove(a, t, Directions[j])
  {
    if k > 0 {
      LastLegalSpec(a, t, k - 1);
    }
  }

  /**
   * The keys are exactly the tiles with some legal direction, and each value
   * is legal with every direction after it in scan order illegal: a tile's
   * earlier legal directions are overwritten.
   */
  lemma LegalMoveMapSpec(a: Layout, t: Tile)
    ensures t in LegalMoveMap(a) <==> exists d :: CanMove(a, t, d)
    ensures t in LegalMoveMap(a) ==>
      var d := LegalMoveMap(a)[t];
      CanMove(a, t, d) && forall e :: Ordinal(d) < Ordinal(e) ==> !CanMove(a, t, e)
  {
    LastLegalSpec(a, t, |Directions|);
    if exists d :: CanMove(a, t, d) {
      var d :| CanMove(a, t, d);
      assert CanMove(a, t, Directions[Ordinal(d)]);
    }
    if t in LegalMoveMap(a) {
      var d := LegalMoveMap(a)[t];
      forall e | Ordinal(d) < Ordinal(e) ensures !CanMove(a, t, e) {
        assert Directions[Ordinal(e)] == e;
      }
    }
  }

  /**
   * The map `getLegalMoves` has built after the directions before `k`, and
   * then the tiles before `tile` in direction `k`.
   */
  function Scan(a: Layout, k: nat, tile: nat): map<Tile, Direction>
    requires k <= |Directions| && tile <= 5 && (k == |Directions| ==> tile == 0)
    decreases k, tile
  {
    if tile == 0 then (if k == 0 then map[] else Scan(a, k - 1, 5))
    else
      var m := Scan(a, k, tile - 1);
      if CanMove(a, tile - 1, Directions[k]) then m[tile - 1 := Directions[k]] else m
  }

  /** A tile already visited in direction `k` has seen one more direction. */
  function Seen(t: Tile, k: nat, tile: nat): nat
  {
    if t < tile then k + 1 else k
  }

  /** The scan's entry for `t` is the last legal direction among the first `n`. */
  predicate Agrees(m: map<Tile, Direction>, a: Layout, t: Tile, n: nat)
    requires n <= |Directions|
  {
    && (t in m <==> LastLegal(a, t, n).Some?)
    && (t in m ==> m[t] == LastLegal(a, t, n).value)
  }

  /** Visiting one more tile keeps every tile's entry in agreement. */
  lemma ScanStep(a: Layout, k: nat, tile: nat, t: Tile)
    requires k < |Directions| && 0 < tile <= 5
    requires Agrees(Scan(a, k, tile - 1), a, t, Seen(t, k, tile - 1))
    ensures Agrees(Scan(a, k, tile), a, t, Seen(t, k, tile))
  {
    var u := tile - 1;
    var legal := CanMove(a, u, Directions[k]);
    var before, after := Scan(a, k, u), Scan(a, k, tile);
    assert after == if legal then before[u := Directions[k]] else before;
    if t == u {
      assert LastLegal(a, u, k + 1) == if legal then Some(Directions[k]) else LastLegal(a, u, k);
    } else {
      assert Seen(t, k, tile) == Seen(t, k, u);
    }
  }

  /** Part way through the scan, each tile holds the last legal direction it has seen. */
  lemma {:induction false} ScanSpec(a: Layout, k: nat, tile: nat)
    requires k <= |Directions| && tile <= 5 && (k == |Directions| ==> tile == 0)
    ensures forall t: Tile :: Agrees(Scan(a, k, tile), a, t, Seen(t, k, tile))
    decreases k, tile
  {
    if tile == 0 {
      if k > 0 {
        ScanSpec(a, k - 1, 5);
        assert Scan(a, k, 0) == Scan(a, k - 1, 5);
        forall t: Tile ensures Agrees(Scan(a, k, 0), a, t, Seen(t, k, 0)) {
          assert Seen(t, k - 1, 5) == k == Seen(t, k, 0);
        }
      }
    } else {
      ScanSpec(a, k, tile - 1);
      forall t: Tile ensures Agrees(Scan(a, k, tile), a, t, Seen(t, k, tile)) {
        ScanStep(a, k, tile, t);
      }
    }
  }

  /** The finished scan is the legal-move map. */
  lemma ScanIsLegalMoveMap(a: Layout)
    ensures Scan(a, |Directions|, 0) == LegalMoveMap(a)
  {
    ScanSpec(a, |Directions|, 0);
    var m, l := Scan(a, |Directions|, 0), LegalMoveMap(a);
    forall t: Tile ensures (t in m <==> t in l) && (t in m ==> m[t] == l[t]) {
      assert Seen(t, |Directions|, 0) == |Directions|;
      assert Agrees(m, a, t, |Directions|);
      assert t in l <==> LastLegal(a, t, |Directions|).Some?;
    }
  }
}
