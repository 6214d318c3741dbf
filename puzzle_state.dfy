/**
 * The board object: five anchors kept in a five-slot array that `Move`
 * overwrites in place. Its queries are the functions of module Rules applied
 * to the current anchors.
 */
module PuzzleModel {
  import opened Outcomes
  import opened Geometry
  import Rules

  class PuzzleState {
    /** One slot per tile, allocated with the object. */
    const positions: array<Position>

    predicate Valid()
    {
      positions.Length == 5
    }

    /** The current anchors, indexed by tile. */
    function Anchors(): Rules.Layout
      reads positions
      requires Valid()
    {
      positions[..]
    }

    /** An object whose five slots are not yet filled (the field initialiser). */
    constructor Unfilled()
      ensures Valid() && fresh(positions)
    {
      positions := new Position[5](_ => Position(0, 0));
    }

    /** The no-argument constructor: the original starting layout. */
    constructor Initial()
      ensures Valid() && fresh(positions)
      ensures Anchors() == Rules.DefaultLayout
    {
      positions := new Position[5](i requires 0 <= i < 5 => Rules.DefaultLayout[i]);
    }

    /**
     * The checking constructor: copy the arguments into the slots, failing on
     * a sixth, then reject a wrong count, an off-board anchor or two
     * footprints that share a cell.
     */
    static method Create(ps: seq<Position>) returns (r: Result<PuzzleState>)
      ensures r.Failure? <==> Rules.CheckPositions(ps).Some?
      ensures r.Failure? ==> Rules.CheckPositions(ps) == Some(r.error)
      ensures r.Success? ==>
        && fresh(r.value) && fresh(r.value.positions) && r.value.Valid()
        && r.value.Anchors() == ps
        && forall i | 0 <= i < 5 :: r.value.GetPosition(i) == ps[i]
    {
      var s := new PuzzleState.Unfilled();
      var i := 0;
      while i < |ps|
        invariant 0 <= i <= |ps| && i <= 5
        invariant s.positions[..i] == ps[..i]
      {
        if i == s.positions.Length {
          return Failure(ArrayIndexOutOfBounds);
        }
        s.positions[i] := ps[i];
        i := i + 1;
      }
      if |ps| != 5 {
        return Failure(IllegalArgument);
      }
      assert s.positions[..] == s.positions[..i] == ps;
      if exists j | 0 <= j < 5 :: !Rules.IsOnBoard(ps[j]) {
        return Failure(IllegalArgument);
      }
      if !Rules.FootprintsDisjoint(s.positions[..]) {
        return Failure(IllegalArgument);
      }
      return Success(s);
    }

    function GetPosition(n: Rules.Tile): Position
      reads positions
      requires Valid()
    {
      positions[n]
    }

    predicate IsGoal()
      reads positions
      requires Valid()
    {
      Rules.IsGoal(Anchors())
    }

    predicate CanMove(t: Rules.Tile, d: Direction)
      reads positions
      requires Valid()
    {
      Rules.CanMove(Anchors(), t, d)
    }

    /** `move`/`movePiece`: overwrite one anchor with its neighbour, with no check. */
    method Move(t: Rules.Tile, d: Direction)
      requires Valid()
      modifies positions
      ensures Valid()
      ensures Anchors() == Rules.Moved(old(Anchors()), t, d)
    {
      positions[t] := positions[t].Neighbour(d);
    }

    /** `getLegalMoves`: scan directions (outer) and tiles (inner), putting each legal pair. */
    method GetLegalMoves() returns (m: map<Rules.Tile, Direction>)
      requires Valid()
      ensures m == Rules.LegalMoveMap(Anchors())
    {
      var a := Anchors();
      m := map[];
      var k := 0;
      while k < |Directions|
        invariant 0 <= k <= |Directions|
        invariant m == Rules.Scan(a, k, 0)
      {
        var d := Directions[k];
        var tile: int := 0;
        while tile < 5
          invariant 0 <= tile <= 5
          invariant m == Rules.Scan(a, k, tile)
        {
          if CanMove(tile, d) {
            m := m[tile := d];
          }
          tile := tile + 1;
        }
        k := k + 1;
      }
      Rules.ScanIsLegalMoveMap(a);
    }

    /** `equals`: the same object, or another board whose five anchors are equal. */
    predicate Equals(o: PuzzleState?)
      reads positions, if o != null then {o.positions} else {}
      requires Valid() && (o != null ==> o.Valid())
      ensures Equals(o) <==> o != null && o.Anchors() == Anchors()
    {
      o == this || (o != null && SameAnchors(positions[..], o.positions[..]))
    }

    /** `hashCode`: a function of the five anchors. */
    function HashCode(): int
      reads positions
      requires Valid()
    {
      LayoutHash(Anchors())
    }

    /** `clone`: a fresh board built by the checking constructor from the current anchors. */
    method Clone() returns (r: Result<PuzzleState>)
      requires Valid()
      ensures r.Failure? <==> Rules.CheckPositions(Anchors()).Some?
      ensures r.Failure? ==> r.error == IllegalArgument
      ensures r.Success? ==>
        && fresh(r.value) && fresh(r.value.positions) && r.value.Valid()
        && r.value != this && r.value.Equals(this) && Equals(r.value)
        && r.value.HashCode() == HashCode()
    {
      r := Create(Anchors());
    }
  }

  /** The private array comparison behind `equals`: lengths, then slot by slot. */
  predicate SameAnchors(s1: seq<Position>, s2: seq<Position>)
    ensures SameAnchors(s1, s2) <==> s1 == s2
  {
    |s1| == |s2| && SameFrom(s1, s2, 0)
  }

  predicate SameFrom(s1: seq<Position>, s2: seq<Position>, i: nat)
    requires |s1| == |s2| && i <= |s1|
    ensures SameFrom(s1, s2, i) <==> s1[i..] == s2[i..]
    decreases |s1| - i
  {
    if i == |s1| then true
    else if s1[i] != s2[i] then false
    else SameFrom(s1, s2, i + 1)
  }

  /**
   * A stand-in for `Objects.hash` over the anchors: the 31-based polynomial
   * of `Arrays.hashCode`, with an assumed hash for a position.
   */
  function LayoutHash(a: Rules.Layout): int
  {
    var h := seq(5, i requires 0 <= i < 5 => 31 * a[i].row + a[i].col);
    ((((31 + h[0]) * 31 + h[1]) * 31 + h[2]) * 31 + h[3]) * 31 + h[4]
  }

  /** Equal boards hash alike. */
  lemma EqualsSameHash(s: PuzzleState, o: PuzzleState)
    requires s.Valid() && o.Valid() && s.Equals(o)
    ensures s.HashCode() == o.HashCode()
  {
  }
}
