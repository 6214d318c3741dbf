# Sliding-corner puzzle: board model and search node

This project models two parts of a sliding-piece puzzle on a 4×6 board.

**The board, `PuzzleState`.** It holds five anchors: the 2×2 square (tile 0) and four L-shaped corner pieces, TOPLEFT, TOPRIGHT, BOTTOMLEFT and BOTTOMRIGHT (tiles 1–4). Each corner piece covers three cells of the 2×2 box at its anchor; the square covers all four. BOTTOMRIGHT is the one corner piece that leaves its own anchor cell uncovered. The board does the following:

- It validates its anchors when it is built.
- It answers goal and move-legality queries.
- It moves one anchor at a time.
- It builds the tile → direction map of legal moves.
- It compares, hashes and clones itself.

**The search node, `Node`.** A node wraps a board. It copies the board's legal-move map as its pending "operators" and hands out children one at a time, draining that map in place.

The model is split into modules:

- `Outcomes` (outcomes.dfy): the exceptions the code throws, as values (`Error`), with `Option` and `Result`.
- `Geometry` (geometry.dfy): `Position` as an unbounded (row, column) pair with its one-step neighbours, and `Direction` with the four directions in an assumed order UP, RIGHT, DOWN, LEFT, taken from the order of the switches in PuzzleState.java (the enum's declaration is not in the available source, and PuzzleStateTest.java:151 would pass only with a different order).
- `Rules` (rules.dfy): the board's read-only logic as pure functions of the five anchors (a `Layout`):
  - footprints (`OverlapOf`) and the constructor's checks (`CheckPositions`);
  - availability (`IsOverlapped`) and legality (`CanMove`);
  - the goal test, moves, and the legal-move map (`LegalMoveMap`).
- `PuzzleModel` (puzzle_state.dfy): the class `PuzzleState`. Its anchors live in a five-slot array that `Move` overwrites in place. The constructor's copy loop and `getLegalMoves`'s nested loops are methods proved against the functions of `Rules`.
- `Solver` (node.dfy): the class `Node`. Its `operators` map is a field that `NextChild` reassigns. The two `iterator.next()` calls and the `remove()` are the function `Pick`.
- `Scenarios` (scenarios.dfy): the boards of the unit tests and what the rules decide for them.

The code is followed as written, including several behaviours that look unintended:

- `isOverlapped` is true when a cell is *available*.
- The edge guards compare with `==`. An anchor in row 3 or column 5 passes construction but is not guarded (`Scenarios.BottomRowUnguarded`).
- BOTTOMRIGHT's own anchor always counts as available.
- TOPRIGHT moving LEFT tests its own right-hand cell (`Rules.TopRightLeftTestsOwnCell`). So on the goal board, TOPRIGHT can move RIGHT but cannot then move back (`Scenarios.TopRightMoveNotUndoable`).
- `nextChild` pairs the first pending tile with the *second* pending direction and removes the second entry. With exactly one entry pending, it throws `NoSuchElementException`.
- A node with pending moves therefore never runs out of them (`Solver.DrainLeavesOne`). For the starting board, the root's first call tries the square RIGHT, which is illegal, and every later call throws (`Scenarios.DefaultRootPendingMoves`).
- A node is never equal to itself.
- `clone` re-runs the checking constructor, so cloning a board whose anchors have been moved into an invalid arrangement fails (`PuzzleModel.PuzzleState.Clone`). `nextChild` passes that failure on.

Some unit-test expectations disagree with the code. The model follows the code; they are listed under "Left out".

## Model

| member | source | states |
|---|---|---|
| Geometry.NeighbourUndo | src/main/java/puzzle/model/PuzzleState.java:239-242 | a one-step move always changes the position, and the opposite step restores it |
| Geometry.Ordinal | src/main/java/puzzle/model/PuzzleState.java:250 | the index of a direction in the scan order `Direction.values()`, under the assumed order UP, RIGHT, DOWN, LEFT; its contract says that order lists the direction at that index |
| Rules.IsOnBoard | src/main/java/puzzle/model/PuzzleState.java:260-263 | computes whether a cell lies in rows 0..3 and columns 0..5 |
| Rules.OverlapOf | src/main/java/puzzle/model/PuzzleState.java:281-307 | the square's footprint lists four cells and each corner piece's lists three |
| Rules.FootprintShape | src/main/java/puzzle/model/PuzzleState.java:281-307 | a cell is in a footprint iff the reference shape covers it: the square covers its whole 2×2 box, and a corner piece covers its box minus one open cell. Every footprint lies in its anchor's box, and BOTTOMRIGHT is the only piece that leaves its anchor out |
| Rules.IsOverlapped | src/main/java/puzzle/model/PuzzleState.java:265-279 | computes `isOverlapped`: true for an off-board cell, for BOTTOMRIGHT's anchor, and otherwise iff no piece covers the cell (see AvailableIffInNoFootprint for the tie to the `overlapOf` lists) |
| Rules.AvailableIffInNoFootprint | src/main/java/puzzle/model/PuzzleState.java:265-279 | `isOverlapped(p)` holds iff p is off the board, or is BOTTOMRIGHT's anchor, or lies in none of the five footprints |
| Rules.AtEdge | src/main/java/puzzle/model/PuzzleState.java:160-222 | computes the four opening guards, each an `==` test: row 0 for UP, column + 1 == 5 for RIGHT, row + 1 == 3 for DOWN, column 0 for LEFT |
| Rules.CheckedCells | src/main/java/puzzle/model/PuzzleState.java:160-222 | computes the two cells each of canMoveUp/Right/Down/Left tests for a tile, including the special cases for BOTTOMLEFT, BOTTOMRIGHT, TOPLEFT and TOPRIGHT |
| Rules.CanMove | src/main/java/puzzle/model/PuzzleState.java:151-222 | computes `canMove`: the guard fails and both checked cells are available |
| Rules.EdgeGuards | src/main/java/puzzle/model/PuzzleState.java:160-222 | a legal move never starts from row 0 (UP), column 4 (RIGHT), row 2 (DOWN) or column 0 (LEFT) |
| Rules.GuardedMovesStayInRange | src/main/java/puzzle/model/PuzzleState.java:160-222 | for an anchor in rows 0..2 and columns 0..4, every cell `canMove` inspects past the guard is on the board, and a legal move keeps the anchor in that range |
| Rules.CheckedCellsAreEntered | src/main/java/puzzle/model/PuzzleState.java:160-222 | for every (tile, direction) except TOPRIGHT/LEFT, the two cells tested are exactly the cells the piece newly covers after the slide |
| Rules.TopRightLeftTestsOwnCell | src/main/java/puzzle/model/PuzzleState.java:212-215 | TOPRIGHT/LEFT tests a cell in TOPRIGHT's own footprint, so the move is refused whenever that cell is on the board and is not BOTTOMRIGHT's anchor. The cell it would enter on the left is never tested |
| Rules.BottomRightAnchorAvailable | src/main/java/puzzle/model/PuzzleState.java:269-272 | BOTTOMRIGHT's anchor is always available, so its UP and LEFT legality depends only on the guard and the other tested cell |
| Rules.Moved | src/main/java/puzzle/model/PuzzleState.java:239-242 | a move sets the tile's anchor to its neighbour in that direction and leaves the other four anchors unchanged |
| Rules.MoveUndo | src/main/java/puzzle/model/PuzzleState.java:230-242 | a move always changes the layout, and the opposite move of the same tile restores it |
| Rules.IsGoal | src/main/java/puzzle/model/PuzzleState.java:131-139 | computes the goal condition: the square's anchor equals TOPLEFT's right-down, TOPRIGHT's left-down, BOTTOMLEFT's right-up and BOTTOMRIGHT's left-up neighbours |
| Rules.GoalIsFlush | src/main/java/puzzle/model/PuzzleState.java:131-139 | the goal condition holds iff the four corner anchors sit diagonally flush around the square's anchor |
| Rules.FlushLayoutDisjoint | src/main/java/puzzle/model/PuzzleState.java:97-107 | every goal arrangement passes the overlap check |
| Rules.CheckPositions | src/main/java/puzzle/model/PuzzleState.java:77-107 | the constructor accepts exactly five on-board anchors with pairwise-disjoint footprints. More than five fails with an array-index error, and every other rejection is an illegal argument |
| Rules.LastLegal | src/main/java/puzzle/model/PuzzleState.java:250-255 | computes the last of the first k scanned directions in which the tile can move, if any |
| Rules.LegalMoveMap | src/main/java/puzzle/model/PuzzleState.java:248-258 | computes the map from each tile that has a legal direction to its last legal direction in scan order |
| Rules.LastLegalSpec | src/main/java/puzzle/model/PuzzleState.java:248-258 | after scanning k directions, a tile has an entry iff one of them is legal, and the entry is the legal one with no later legal direction |
| Rules.LegalMoveMapSpec | src/main/java/puzzle/model/PuzzleState.java:248-258 | the keys are exactly the tiles with some legal direction, and each value is legal with every later direction in scan order illegal |
| Rules.ScanStep | src/main/java/puzzle/model/PuzzleState.java:251-255 | one inner-loop step keeps every tile's entry equal to the last legal direction seen so far |
| Rules.ScanSpec | src/main/java/puzzle/model/PuzzleState.java:249-256 | at every point of the nested scan, each tile's entry is the last legal direction among those it has been visited with |
| Rules.ScanIsLegalMoveMap | src/main/java/puzzle/model/PuzzleState.java:249-257 | the finished scan is the legal-move map |
| PuzzleModel.PuzzleState.Unfilled | src/main/java/puzzle/model/PuzzleState.java:53 | the field initialiser: a new object with a fresh five-slot array |
| PuzzleModel.PuzzleState.Initial | src/main/java/puzzle/model/PuzzleState.java:61-68 | the no-argument constructor places the anchors at (0,4), (0,0), (0,2), (2,0), (2,2) |
| PuzzleModel.PuzzleState.Create | src/main/java/puzzle/model/PuzzleState.java:77-95 | construction fails exactly when the checks reject the arguments, with the checks' error. On success the board is new and `getPosition(i)` is the i-th argument |
| PuzzleModel.PuzzleState.GetPosition | src/main/java/puzzle/model/PuzzleState.java:116-118 | returns the anchor in slot n; Create's contract ties it to the constructor's arguments |
| PuzzleModel.PuzzleState.IsGoal | src/main/java/puzzle/model/PuzzleState.java:127-129 | the goal condition of the current anchors, recomputed on each query |
| PuzzleModel.PuzzleState.CanMove | src/main/java/puzzle/model/PuzzleState.java:151-158 | the legality of a move on the current anchors |
| PuzzleModel.PuzzleState.Move | src/main/java/puzzle/model/PuzzleState.java:230-242 | the array now holds the moved layout: one anchor stepped, the others untouched, nothing checked |
| PuzzleModel.PuzzleState.GetLegalMoves | src/main/java/puzzle/model/PuzzleState.java:248-258 | the map the nested loops build is the legal-move map of the current anchors |
| PuzzleModel.PuzzleState.Equals | src/main/java/puzzle/model/PuzzleState.java:314-320 | a board equals another reference iff it is non-null and holds the same five anchors; in particular a board equals itself |
| PuzzleModel.PuzzleState.HashCode | src/main/java/puzzle/model/PuzzleState.java:322-325 | a hash computed from the five anchors alone (a stand-in for `Objects.hash`) |
| PuzzleModel.PuzzleState.Clone | src/main/java/puzzle/model/PuzzleState.java:327-330 | cloning fails, with an illegal argument, iff the current anchors fail the constructor's checks. Otherwise the copy is a new object, equal to the original in both directions, with the same hash |
| PuzzleModel.SameAnchors | src/main/java/puzzle/model/PuzzleState.java:341-351 | the private array comparison holds iff the two anchor sequences are equal |
| PuzzleModel.SameFrom | src/main/java/puzzle/model/PuzzleState.java:345-350 | the element loop from index i succeeds iff the two suffixes from i are equal |
| PuzzleModel.EqualsSameHash | src/main/java/puzzle/model/PuzzleState.java:322-325 | equal boards have equal hashes |
| Solver.LeastFrom | src/main/java/puzzle/solver/Node.java:51-52 | the ascending iterator's next key: the least key at or above the start |
| Solver.Pick | src/main/java/puzzle/solver/Node.java:51-54 | an empty map is left alone and a one-entry map throws. Otherwise the tile is the least key, the direction is the second-least key's value, and only that second entry is removed, so the map shrinks by one |
| Solver.DrainLeavesOne | src/main/java/puzzle/solver/Node.java:46-54 | after n calls a pending map of size s ≥ 1 has size s − n, bottoming out at 1: it never becomes empty |
| Solver.Node.constructor | src/main/java/puzzle/solver/Node.java:17-22 | a root wraps the board, has no parent and no direction, and its operators are the board's legal-move map |
| Solver.Node.Child | src/main/java/puzzle/solver/Node.java:24-28 | a child records its parent and direction, and its operators are its board's legal-move map |
| Solver.Node.HasNextChild | src/main/java/puzzle/solver/Node.java:42-44 | true iff `nextChild` will not take its empty-map exit, i.e. iff operators are pending |
| Solver.Node.NextChild | src/main/java/puzzle/solver/Node.java:46-64 | an empty map returns empty and a one-entry map throws, both leaving the map as it was. Otherwise the second entry is consumed. An illegal pick returns empty. A legal pick returns a new child whose board is a new clone with the move applied, with this node as parent and the picked direction, unless cloning fails. The node's own board is unchanged |
| Solver.Node.Equals | src/main/java/puzzle/solver/Node.java:66-72 | a node is equal to another reference iff it is non-null, is a different node, and its board has the same anchors, whatever the parents and directions |
| Solver.Node.HashCode | src/main/java/puzzle/solver/Node.java:74-77 | the board's hash |
| Solver.NodeEqualsSameHash | src/main/java/puzzle/solver/Node.java:74-77 | equal nodes have equal hashes |
| Scenarios.DefaultLayoutValid | src/main/java/puzzle/model/PuzzleState.java:61-68 | the starting layout passes the constructor's checks |
| Scenarios.ConstructorRejects | src/test/java/puzzle/model/PuzzleStateTest.java:48-70 | each argument list of the constructor test is rejected as an illegal argument, and six anchors give an array-index error |
| Scenarios.GoalScenarios | src/test/java/puzzle/model/PuzzleStateTest.java:72-78 | of the four test boards only the second is a goal |
| Scenarios.DefaultLayoutPair | src/test/java/puzzle/model/PuzzleStateTest.java:80-106 | on the starting board exactly SQUARE/DOWN and BOTTOMRIGHT/RIGHT are legal |
| Scenarios.DefaultLayoutLegalMoves | src/test/java/puzzle/model/PuzzleStateTest.java:148 | the starting board's legal-move map is {SQUARE: DOWN, BOTTOMRIGHT: RIGHT} |
| Scenarios.LegalMapFromPairs | src/main/java/puzzle/model/PuzzleState.java:248-258 | a map listing every movable tile with a legal direction that no later direction beats is the legal-move map |
| Scenarios.GoalBoardPair | src/test/java/puzzle/model/PuzzleStateTest.java:110-114 | on the goal board exactly TOPRIGHT/RIGHT and BOTTOMRIGHT/RIGHT are legal; in particular the square cannot move |
| Scenarios.GoalBoardLegalMoves | src/main/java/puzzle/model/PuzzleState.java:248-258 | the goal board's legal-move map is {TOPRIGHT: RIGHT, BOTTOMRIGHT: RIGHT} |
| Scenarios.ThirdBoardPair | src/main/java/puzzle/model/PuzzleState.java:151-222 | on the third test board exactly SQUARE/LEFT, TOPRIGHT/DOWN and BOTTOMLEFT/RIGHT are legal |
| Scenarios.ThirdBoardLegalMoves | src/test/java/puzzle/model/PuzzleStateTest.java:150 | the third board's legal-move map is {SQUARE: LEFT, TOPRIGHT: DOWN, BOTTOMLEFT: RIGHT} |
| Scenarios.FourthBoardPair | src/test/java/puzzle/model/PuzzleStateTest.java:134-142 | on the fourth test board exactly TOPLEFT/DOWN, TOPRIGHT/DOWN and BOTTOMLEFT/RIGHT are legal, plus BOTTOMRIGHT in every direction but DOWN |
| Scenarios.FourthBoardLegalMoves | src/main/java/puzzle/model/PuzzleState.java:248-258 | the fourth board's map keeps LEFT, the last legal direction in scan order, for BOTTOMRIGHT |
| Scenarios.BottomRowUnguarded | src/main/java/puzzle/model/PuzzleState.java:192-195 | a board with the square anchored in row 3 passes the constructor's checks, yet the DOWN guard (row + 1 == 3) lets the square move DOWN, off the board |
| Scenarios.LegalMoveCanOverlap | src/main/java/puzzle/model/PuzzleState.java:212-215 | on a valid board TOPRIGHT may move LEFT: its tested right-hand cell (0,6) is off the board, so `isOverlapped` returns true for it (lines 266-267), and the cell below its anchor is free. The cell it enters, (0,4), is never tested, and afterwards the square's and TOPRIGHT's footprints share it, so legal moves do not keep footprints disjoint |
| Scenarios.BottomRightEntersCoveredAnchor | src/main/java/puzzle/model/PuzzleState.java:269-272 | on a valid board where the square covers (2,2), BOTTOMRIGHT's own anchor, BOTTOMRIGHT may move UP: the test of its anchor passes because that cell always counts as free, and (1,3) is free. Afterwards the square's and BOTTOMRIGHT's footprints both hold (2,2) |
| Scenarios.TopRightMoveNotUndoable | src/main/java/puzzle/model/PuzzleState.java:212-215 | on the goal board TOPRIGHT can move RIGHT, and from there it cannot move LEFT |
| Scenarios.DefaultRootPendingMoves | src/main/java/puzzle/solver/Node.java:51-56 | a root for the starting board pairs the square with RIGHT, which is illegal there, and leaves one entry, on which the next call throws |
| Scenarios.CloneThenMove | src/test/java/puzzle/model/PuzzleStateTest.java:155-179 | cloning the starting board and moving the clone's square DOWN leaves the original at the starting layout, gives the clone the moved layout, and makes the two boards unequal both ways |
| Scenarios.ExpandDefaultRoot | src/main/java/puzzle/solver/Node.java:46-63 | a root for the starting board returns no child on the first call, fails with NoSuchElement on the second, and keeps {SQUARE: DOWN} pending |

## Left out

- src/main/java/puzzle/gui/GameApplication.java is not part of this model. It only sets up the JavaFX window.
- JavaFX property machinery (`ReadOnlyObjectWrapper`, `positionProperty`, `goalProperty`, the goal binding) is left out. The anchors are a plain array, and `isGoal` is recomputed from them each time. Whether the cached binding refreshes after a move is library behaviour.
- `toString` of both classes is left out. It depends on `Position.toString`, which is not part of this model.
- `Position` and `Direction` are not in the available source. The model defines `Position` as an integer pair with value equality and one-step neighbours, and `Direction` as four directions in an assumed order UP, RIGHT, DOWN, LEFT, taken from the switches at PuzzleState.java:152-157 and 231-236. PuzzleStateTest.java:151 is evidence that the real declaration order differs; the order only matters for which legal direction `getLegalMoves` keeps.
- PuzzleModel.PuzzleState.HashCode: the concrete value of `Objects.hash` is replaced by a 31-based polynomial over an assumed position hash. Only "equal boards hash alike" is claimed.
- A tile index outside 0..4 is excluded by the type `Tile`. In Java it throws from the array access or from `overlapOf`'s default branch.
- Null `Position` arguments and null array elements are not modelled.
- `equals` applied to an object of another class is not modelled; only null and objects of the same class can be passed.
- The getters `getState`, `getParent` and `getDirection` are the node's fields, read directly. The node's board, parent and direction never change after construction.
- `getAsList` is a sequence display inside `OverlapOf`.
- Exceptions are `Failure` values of `Result`, and constructors that can throw are the static method `PuzzleState.Create`.
- Test expectations that contradict the code are not encoded:
  - PuzzleStateTest.java:116 expects TOPRIGHT/RIGHT to be legal on the starting board.
  - PuzzleStateTest.java:125 expects SQUARE/LEFT to be illegal on the third board, contradicting line 150 of the same test.
  - PuzzleStateTest.java:127 and 131 expect TOPRIGHT/RIGHT to be legal and BOTTOMLEFT/RIGHT to be illegal on the third board.
  - PuzzleStateTest.java:149 expects {3: RIGHT, 4: RIGHT} for the goal board.
  - PuzzleStateTest.java:151 expects BOTTOMRIGHT: RIGHT for the fourth board, which would need a different direction order.
- No search driver is modelled (visited sets, search order, path reconstruction), because the code has none.
- `move` is not claimed to keep footprints disjoint. The availability test treats off-board cells and BOTTOMRIGHT's anchor as free, so a legal move can make pieces overlap (`Scenarios.LegalMoveCanOverlap`, `Scenarios.BottomRightEntersCoveredAnchor`).
