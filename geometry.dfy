/** Board coordinates and the four sliding directions. */
module Geometry {

  /**
   * The four directions, in an assumed order taken from the switches over
   * them: the enum's own declaration is not available.
   */
  datatype Direction = Up | Right | Down | Left

  /** `Direction.values()` under the assumed order: the order in which the legal-move scan visits the directions. */
  const Directions: seq<Direction> := [Up, Right, Down, Left]

  /** The index of a direction in `Directions`. */
  function Ordinal(d: Direction): (i: nat)
    ensures i < |Directions| && Directions[i] == d
  {
    match d
    case Up => 0
    case Right => 1
    case Down => 2
    case Left => 3
  }

  function Opposite(d: Direction): Direction
  {
    match d
    case Up => Down
    case Right => Left
    case Down => Up
    case Left => Right
  }

  /** An unclamped (row, column) value: a neighbour of an edge cell may lie off the board. */
  datatype Position = Position(row: int, col: int) {

    function Above(): Position { Position(row - 1, col) }

    function Below(): Position { Position(row + 1, col) }

    function LeftOf(): Position { Position(row, col - 1) }

    function RightOf(): Position { Position(row, col + 1) }

    /** The one-step neighbour in direction `d`. */
    function Neighbour(d: Direction): Position
    {
      match d
      case Up => Above()
      case Right => RightOf()
      case Down => Below()
      case Left => LeftOf()
    }
  }

  /** Stepping back in the opposite direction returns to the start, and a step always moves. */
  lemma NeighbourUndo(p: Position, d: Direction)
    ensures p.Neighbour(d) != p
    ensures p.Neighbour(d).Neighbour(Opposite(d)) == p
    ensures Opposite(Opposite(d)) == d
  {
  }
}
