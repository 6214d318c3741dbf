/**
 * The search node: a board, the moves still to try (copied from the board's
 * legal-move map and drained in place), and the link to the node it came from.
 */
module Solver {
  import opened Outcomes
  import opened Geometry
  import Rules
  import opened PuzzleModel

  /** The smallest tile of `ks` that is at least `i`: the ascending iteration of a TreeMap. */
  function LeastFrom(ks: set<Rules.Tile>, i: nat): (t: Rules.Tile)
    requires exists k :: k in ks && i <= k
    ensures t in ks && i <= t
    ensures forall k :: k in ks && i <= k ==> t <= k
    decreases 5 - i
  {
    if i in ks then i
    else
      assert exists k :: k in ks && i + 1 <= k by {
        var k :| k in ks && i <= k;
        assert k != i;
      }
      LeastFrom(ks, i + 1)
  }

  /** What the two `iterator.next()` calls of `nextChild` meet in the pending map. */
  datatype Pending =
    | Exhausted                 // empty map: nothing is tried
    | OnlyOne                   // one entry: the second next() throws before anything is removed
    | Picked(tile: Rules.Tile, removed: Rules.Tile, dir: Direction, rest: map<Rules.Tile, Direction>)

  /**
   * The first entry supplies the tile, the second entry the direction, and
   * the second entry (the one iterator.remove() deletes) is dropped.
   */
  function Pick(ops: map<Rules.Tile, Direction>): (r: Pending)
    ensures r.Exhausted? <==> |ops| == 0
    ensures r.OnlyOne? <==> |ops| == 1
    ensures r.Picked? ==> r.tile in ops.Keys && forall k :: k in ops.Keys ==> r.tile <= k
    ensures r.Picked? ==>
      && r.removed in ops.Keys && r.tile < r.removed
      && (forall k :: k in ops.Keys && k != r.tile ==> r.removed <= k)
      && r.dir == ops[r.removed]
      && r.rest == ops - {r.removed}
    ensures r.Picked? ==> |r.rest| == |ops| - 1
  {
    if |ops| == 0 then Exhausted
    else
      var first := LeastFrom(ops.Keys, 0);
      var others := ops.Keys - {first};
      assert |others| == |ops| - 1;
      if |others| == 0 then OnlyOne
      else
        var second := LeastFrom(others, 0);
        var rest := ops - {second};
        assert rest.Keys == ops.Keys - {second};
        Picked(first, second, ops[second], rest)
  }

  /** The pending map after `n` further calls of `nextChild`. */
  function Drain(ops: map<Rules.Tile, Direction>, n: nat): map<Rules.Tile, Direction>
  {
    if n == 0 then ops
    else match Pick(ops)
      case Picked(_, _, _, rest) => Drain(rest, n - 1)
      case _ => ops
  }

  /**
   * Each call removes one entry until a single entry is left, which then stays
   * forever: a node with pending moves never runs out of them.
   */
  lemma {:induction false} DrainLeavesOne(ops: map<Rules.Tile, Direction>, n: nat)
    requires |ops| >= 1
    ensures |Drain(ops, n)| == if n < |ops| then |ops| - n else 1
  {
    if n > 0 {
      var p := Pick(ops);
      if |ops| == 1 {
        assert Drain(ops, n) == ops;
      } else {
        assert Drain(ops, n) == Drain(p.rest, n - 1);
        DrainLeavesOne(p.rest, n - 1);
      }
    }
  }

  class Node {
    const state: PuzzleState
    /** The moves still to try, keyed by tile. */
    var operators: map<Rules.Tile, Direction>
    const parent: Option<Node>
    const direction: Option<Direction>

    predicate Valid()
    {
      state.Valid()
    }

    /** A root: no parent and no direction. */
    constructor (s: PuzzleState)
      requires s.Valid()
      ensures Valid() && state == s
      ensures operators == Rules.LegalMoveMap(s.Anchors())
      ensures parent == None && direction == None
    {
      var legal := s.GetLegalMoves();
      state := s;
      parent := None;
      direction := None;
      operators := legal;
    }

    /** A child reached from `p` by moving in direction `d`. */
    constructor Child(s: PuzzleState, p: Node, d: Direction)
      requires s.Valid()
      ensures Valid() && state == s
      ensures operators == Rules.LegalMoveMap(s.Anchors())
      ensures parent == Some(p) && direction == Some(d)
    {
      var legal := s.GetLegalMoves();
      state := s;
      parent := Some(p);
      direction := Some(d);
      operators := legal;
    }

    /** `hasNextChild`: `nextChild` will not take its empty-map exit. */
    predicate HasNextChild()
      reads this
      ensures HasNextChild() <==> !Pick(operators).Exhausted?
    {
      operators != map[]
    }

    /**
     * `nextChild`: take the first tile with the second direction, drop the
     * second entry, and if that move is legal here return a child wrapping a
     * moved clone of the board. Cloning re-runs the board's checks and fails
     * when the current anchors no longer pass them.
     */
    method NextChild() returns (r: Result<Option<Node>>)
      requires Valid()
      modifies this
      ensures Valid() && state.Anchors() == old(state.Anchors())
      ensures Pick(old(operators)).Exhausted? ==>
        r == Success(None) && operators == old(operators)
      ensures Pick(old(operators)).OnlyOne? ==>
        r == Failure(NoSuchElement) && operators == old(operators)
      ensures Pick(old(operators)).Picked? ==>
        var pick := Pick(old(operators));
        var a := state.Anchors();
        && operators == pick.rest
        && (!Rules.CanMove(a, pick.tile, pick.dir) ==> r == Success(None))
        && (Rules.CanMove(a, pick.tile, pick.dir) && Rules.CheckPositions(a).Some? ==>
              r == Failure(IllegalArgument))
        && (Rules.CanMove(a, pick.tile, pick.dir) && Rules.CheckPositions(a).None? ==>
              && r.Success? && r.value.Some?
              && var child := r.value.value;
              && fresh(child) && fresh(child.state) && fresh(child.state.positions)
              && child.Valid()
              && child.state.Anchors() == Rules.Moved(a, pick.tile, pick.dir)
              && child.parent == Some(this) && child.direction == Some(pick.dir)
              && child.operators == Rules.LegalMoveMap(child.state.Anchors()))
    {
      if !HasNextChild() {
        return Success(None);
      }
      var pick := Pick(operators);
      if pick.OnlyOne? {
        return Failure(NoSuchElement);
      }
      operators := pick.rest;
      if state.CanMove(pick.tile, pick.dir) {
        var cloned := state.Clone();
        if cloned.Failure? {
          return Failure(cloned.error);
        }
        var newState := cloned.value;
        newState.Move(pick.tile, pick.dir);
        var child := new Node.Child(newState, this, pick.dir);
        return Success(Some(child));
      }
      return Success(None);
    }

    /** `equals`: never equal to itself; otherwise equal exactly when the boards' anchors are. */
    predicate Equals(o: Node?)
      reads this, state.positions, o, if o != null then {o.state.positions} else {}
      requires Valid() && (o != null ==> o.Valid())
      ensures Equals(o) <==> o != null && o != this && o.state.Anchors() == state.Anchors()
    {
      if o == this then false
      else o != null && state.Equals(o.state)
    }

    /** `hashCode`: the board's hash. */
    function HashCode(): int
      reads state.positions
      requires Valid()
    {
      state.HashCode()
    }
  }

  /** Equal nodes hash alike. */
  lemma NodeEqualsSameHash(n: Node, o: Node)
    requires n.Valid() && o.Valid() && n.Equals(o)
    ensures n.HashCode() == o.HashCode()
  {
  }
}
