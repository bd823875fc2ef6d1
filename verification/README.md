# 8-puzzle search engine in Dafny

This project models the search engine of `puzzle.py`, an 8-puzzle solver.
A state is a 3x3 grid holding the values 0..8, where 0 is the blank. The goal
is the fixed layout `[[1,2,3],[8,0,4],[7,6,5]]`. The model covers:

- the state layer: `flatten`, `find_zero` and `is_goal`;
- the transition layer: the `MOVES` table and `neighbors`;
- the two A* heuristics: Manhattan distance and misplaced tiles;
- the three searches: breadth-first (`bfs`), depth-limited depth-first (`dfs`)
  and A* (`astar`).

Each search returns the path found, as a list of states, or `None`, together
with the size of its visited set.

Files:

- `board.dfy` (module `Board`): grids, flattening, the goal, the blank lookup
  and the goal test.
- `moves.dfy` (module `Moves`): directions, the cell swap and the neighbour
  generator. It also gives an independent definition of one blank slide
  (`IsSlide`) and proves the generator lists exactly those slides, in move
  order.
- `heuristics.dfy` (module `Heuristics`): the two estimates and how they
  relate.
- `search.dfy` (module `Search`): the three searches. Each is a `method` with
  a `while` loop over a sequence frontier and a `set<seq<int>>` visited set.
  Each also returns a ghost log of the nodes it expanded, so the contracts can
  speak about the visited count.

A search path is a `seq<Grid>`. A path is valid when:

- it starts at `start`;
- its first state is a legal state (`Valid`: 3x3, a permutation of 0..8);
- each later state is one slide of the blank away from the one before.

`Search.ChainIffNeighborChain` proves this is the same as "each later state is
listed by `neighbors` for the one before".

The searches are proved to terminate, so no fuel bound is needed. The measure
is the set of unvisited keys within the finite set of all length-9 sequences
over 0..8, then the frontier length.

## Model

| member | source | states |
|---|---|---|
| Board.Flatten | puzzle.py:16-17 | definition of flatten (sum(state, [])); properties in Board.FlattenCells and Board.FlattenInjective |
| Board.FlattenCells | puzzle.py:16-17 | flattening a 3x3 grid concatenates its three rows: nine entries, cell (i, j) at index 3*i + j |
| Board.FlattenInjective | puzzle.py:19-20 | two 3x3 grids have equal flattened keys exactly when they are the same grid, so the visited key identifies a state |
| Board.GoalFlatIsFlatten | puzzle.py:6-7 | GOAL_FLAT is the flattening of GOAL_STATE |
| Board.GoalIsValid | puzzle.py:6-7 | the goal layout is a legal state (a permutation of 0..8) and passes the goal test |
| Board.IsGoal | puzzle.py:28-29 | definition of is_goal: the flattening equals GOAL_FLAT; property in Board.IsGoalIff |
| Board.IsGoalIff | puzzle.py:28-29 | the goal test, which compares flattenings, holds of a 3x3 grid exactly when the grid equals GOAL_STATE |
| Board.FindZeroFrom | puzzle.py:22-26 | scanning from cell (i, j) in row-major order returns the first zero at or after (i, j), or None when all later cells are non-zero |
| Board.FindZero | puzzle.py:22-26 | find_zero returns an in-bounds cell holding 0, with every earlier cell in row-major order non-zero; it returns None exactly when the grid has no zero |
| Board.Blank | puzzle.py:32 | the `x, y` that neighbors unpacks from find_zero: an in-bounds cell holding 0 |
| Board.ValidHasUniqueBlank | puzzle.py:22-26 | a legal state has a blank, and the cell find_zero returns is its only zero |
| Moves.Delta | puzzle.py:9-14 | definition of the MOVES offsets; used by Moves.DirectionBetween and Moves.NeighborsInOrder |
| Moves.Rank | puzzle.py:9-14 | each direction has a position in the move table's order up, down, left, right |
| Moves.LegalMoves | puzzle.py:34-36 | the directions kept for a blank at (x, y) are exactly those whose target is on the board, listed in move-table order |
| Moves.Swap | puzzle.py:37-38 | the copy exchanges cells (i, j) and (ni, nj), keeps the 3x3 shape and leaves every other cell unchanged |
| Moves.DirectionBetween | puzzle.py:9-14 | for two orthogonally adjacent cells, the move-table direction whose offset leads from one to the other |
| Moves.NeighborsFromIsLegalSlides | puzzle.py:34-39 | looping over the move table and skipping off-board targets gives the slides in the legal directions, in order |
| Moves.Neighbors | puzzle.py:31-40 | definition of neighbors; properties in Moves.NeighborsInOrder, Moves.NeighborsIffSlides and Moves.NeighborsValid |
| Moves.NeighborsInOrder | puzzle.py:31-40 | neighbors lists one state per legal direction, in the order up, down, left, right, each the slide in that direction; that is 2 results at a corner, 3 on an edge and 4 at the centre |
| Moves.NeighborsAreSlides | puzzle.py:31-40 | every state neighbors returns is the input with its blank swapped with an orthogonally adjacent cell |
| Moves.SlidesAreNeighbors | puzzle.py:31-40 | on a legal state, every swap of the blank with an adjacent cell is among the states neighbors returns |
| Moves.NeighborsIffSlides | puzzle.py:31-40 | on a legal state, a grid is among the neighbours exactly when it is one slide of the blank |
| Moves.FlattenSwap | puzzle.py:37-38 | swapping two cells swaps the same two entries of the flattening |
| Moves.PermutationSwap | puzzle.py:37-38 | exchanging two entries of a permutation of 0..8 gives a permutation of 0..8 |
| Moves.SwapValid | puzzle.py:37-38 | swapping two cells of a legal state gives a legal state |
| Moves.SlideValid | puzzle.py:37-39 | one slide of the blank in a legal state gives a legal state |
| Moves.NeighborsValid | puzzle.py:31-40 | every neighbour of a legal state is a legal state |
| Heuristics.IndexOf | puzzle.py:49 | list.index: the first position holding the value |
| Heuristics.GoalIndex | puzzle.py:49 | the goal position of tile v is an index of GOAL_FLAT holding v |
| Heuristics.Manhattan | puzzle.py:42-51 | definition of heuristic_manhattan; properties in Heuristics.HeuristicsZeroIffGoal and Heuristics.MisplacedLeManhattan |
| Heuristics.Misplaced | puzzle.py:53-54 | definition of heuristic_misplaced; properties in Heuristics.MisplacedAtMostEight, Heuristics.NoMisplacedIsGoal and Heuristics.HeuristicsZeroIffGoal |
| Heuristics.Estimate | puzzle.py:91 | the heuristic_func call, for either heuristic; used for f in Search.ScoredOk and Search.StartEntryOk |
| Heuristics.HeuristicsZeroAtGoal | puzzle.py:42-54 | both heuristics are 0 on the goal |
| Heuristics.MisplacedTileMoves | puzzle.py:49-50 | a misplaced non-blank tile is at Manhattan distance at least 1 from its goal cell |
| Heuristics.MisplacedFromLeManhattanFrom | puzzle.py:42-54 | over any suffix of cells, the misplaced count is at most the Manhattan sum |
| Heuristics.MisplacedLeManhattan | puzzle.py:42-54 | the misplaced-tiles score never exceeds the Manhattan score |
| Heuristics.MisplacedAtMostEight | puzzle.py:53-54 | on a grid with a blank the misplaced-tiles score lies in 0..8 |
| Heuristics.NoMisplacedIsGoal | puzzle.py:53-54 | a legal state with no misplaced tile is the goal |
| Heuristics.HeuristicsZeroIffGoal | puzzle.py:42-54 | on a legal state each heuristic is 0 exactly at the goal |
| Search.ChainStateValid | puzzle.py:67-68 | every state on a path built from the start by slides is a legal state |
| Search.ChainFollowsNeighbors | puzzle.py:67-68 | each consecutive pair on a path is related by neighbors |
| Search.ChainIffNeighborChain | puzzle.py:67-68 | a chain of slides and a chain of neighbors are the same thing |
| Search.ChainExtend | puzzle.py:68 | appending a slide of the last state to a path gives a path |
| Search.Successors | puzzle.py:67-68 | definition of the bfs/dfs push loop: one node per neighbour, in order, each carrying path + [current]; the property is in Search.SuccessorsOk |
| Search.SuccessorsOk | puzzle.py:67-68 | every pushed node's path, followed by its state, is a valid path from start |
| Search.FoundOk | puzzle.py:62-63 | a popped node that passes the goal test gives path + [current], a valid path ending at the goal; for the start node it is [start] |
| Search.LogExtendOk | puzzle.py:64-66 | adding a new key keeps the visited set equal in size to the log of distinct expanded states |
| Search.ExpandOk | puzzle.py:64-68 | expanding a new, non-goal node keeps the frontier valid and the log of distinct expanded states consistent |
| Search.Bfs | puzzle.py:56-69 | a returned path starts at start, follows slides and ends at the goal; a goal start gives [start] with count 0; the count equals the number of expanded states, no two with the same key, none the goal |
| Search.ExpandDepthOk | puzzle.py:79-85 | in dfs, expanding a node whose path is shorter than the limit keeps every stacked path within the limit |
| Search.Dfs | puzzle.py:71-86 | as Bfs, and a returned path has at most limit moves (limit defaults to 20) and every expanded node's path is shorter than the limit |
| Search.MinIndex | puzzle.py:93 | an index of an entry with minimal (f, g) priority |
| Search.PopMin | puzzle.py:93 | heappop returns an entry no later in (f, g) order than any other and removes exactly that entry |
| Search.PopOk | puzzle.py:93 | the entry heappop takes from a well-formed heap, and the heap it leaves, are well formed |
| Search.PopSingle | puzzle.py:93 | popping a one-entry heap returns that entry and leaves the heap empty |
| Search.Scored | puzzle.py:99-102 | definition of the A* push loop: one entry per neighbour, in order, with g = cost + 1 and f = g + h(neighbour); the property is in Search.ScoredOk |
| Search.ScoredOk | puzzle.py:99-102 | every pushed entry has g equal to its move count and f = g + h(neighbour) |
| Search.HeapConcat | puzzle.py:101-102 | pushing well-formed entries onto a well-formed heap keeps it well formed |
| Search.ExpandEntryOk | puzzle.py:96-102 | the A* expansion keeps every heap entry well formed and the log consistent |
| Search.AStar | puzzle.py:88-103 | as Bfs, for A* with either heuristic |

## Left out

- Wall-clock timing (`time.time()`) is left out. The searches return only the path (or None) and the visited count.
- `print_result`, the `__main__` block and console input are left out; they are I/O.
- Heap tie-breaking is left open. `PopMin` returns some entry of minimal (f, g). Python goes on to compare the grids and then the paths, and the model does not fix that order.
- The heuristic is passed as a value of `datatype Heuristic` (Manhattan or misplaced), not as a function value.
- Search.Bfs: the model does not prove optimality (shortest path) or completeness. The same holds for Search.Dfs and Search.AStar.
- Search.Bfs: requires a legal start state (a 3x3 permutation of 0..8). `puzzle.py` does not check its start. On a grid without a 0, `neighbors` fails when it unpacks the None that `find_zero` returns (puzzle.py:32). On other non-permutations the search runs over states that are not puzzle states. The same holds for Search.Dfs and Search.AStar.
- Moves.Neighbors requires a grid with a blank. On a grid without a zero, `find_zero` returns None and unpacking it raises an error.
- Heuristics.Manhattan requires a 3x3 grid with values 0..8. `GOAL_FLAT.index` raises an error for any other value.
- Heuristics.Misplaced requires at least nine flattened entries, as the indexing `flatten(state)[i]` does.
- That `neighbors` does not modify its input is not stated. Grids are immutable values here, so it holds trivially.
- Solvability parity, move-direction labels and scramble generation are left out. They are not part of `puzzle.py`.
