# Grid path-finding engine of a path-finding visualizer, in Dafny

The visualizer draws a rectangular grid of cells with a start, a finish and
walls, runs a search over it and animates two lists: the cells in the order
the search visited them, and the cells of the path found, read back from the
finish along predecessor links. This project models the engine behind those
lists, `src/algorithms/index.ts`, and proves what it guarantees.

- `buildGraph` becomes `Grids.BuildGraph`: a pure function building the
  matrix of cell records. A cell's identity is `n:i:j` (`CellIds.IdOf`).
- `getUnvisitedNeighbors` becomes `Grids.UnvisitedNeighbors`: the positions
  up, down, left and right of a cell that lie in the grid, minus the visited
  ones.
- `nodesByAscDistance` with `queue.sort` and `queue.shift` becomes
  `PendingQueue.SortByDistance`, a stable insertion sort by distance,
  followed by taking the head. `Number.POSITIVE_INFINITY` is the `Infinite`
  distance. Infinity minus infinity is NaN, which a sort treats as a tie.
- `dijkstraOg` and `astar` run the same loop and differ only in the
  distance they give the start copy and each relaxed neighbour, written as
  `GridSearch.Relaxation`. Both become imperative Dafny over a `Grid`
  object whose `cells` the search changes in place:
  - `GridSearch.Search` is the shared search. `Explore` runs the loop, a
    `Round` takes the nearest queue entry, `Expand` marks it visited, and
    `RelaxNeighbors` with `Relax` updates the neighbours.
  - `DijkstraOg` and `AStar` are the two entry points.
  - A queue entry is either the copy of the start cell made at seeding
    (`Seed`) or a reference to a grid cell (`Ref`), whose distance is read
    from the grid each time the queue is sorted.
  - The source compares the start and target coordinate arrays by reference.
    Dafny has no counterpart, so this is the flag `sameObject`.
  - `maxWanted` is a `Budget`.
- `getNodesInShortestPathOrder` becomes `ShortestPath.NodesInShortestPathOrder`,
  a loop that walks the predecessor identities back from the finish cell,
  parses each one into a position, and unshifts each cell it meets.
- `workAlgorithm` becomes `Orchestrator.WorkAlgorithm`: build a grid, run
  the named search on it, walk the path back, and return the three lists.

What is proved, in the system's own terms:
- The grid built for a run has exactly the shape, identities, walls, start,
  finish and initial state its parameters ask for.
- Reading an identity back gives its position (`IdRoundTrip`).
- The visit order never holds a wall and never holds a cell twice. It holds
  exactly the cells flagged visited, and it starts with the start.
- The visit order never grows past the budget, and it ends as soon as the
  target is visited.
- A run ends for one of four reasons only:
  - the queue is empty;
  - the budget is spent;
  - the target was visited;
  - start and target were one object.
- A finished search is a run of the loop (`GridSearch.IsRun`). A run is a
  sequence of states (grid, visit order, queue). It begins with the fresh
  grid, nothing visited and the seed alone queued, or nothing queued for
  one coordinates object. Each next state is one `RoundStep` from the
  state before, taken only while the budget is not reached, something is
  pending and the target is not visited. The run ends where none of these
  holds. A run is determined by its start (`GridSearch.RunIsUnique`).
- Each round does exactly what the loop body does (`GridSearch.RoundStep`).
  The sorted queue's head is dropped when its cell is visited or a wall.
  Otherwise its cell is marked visited at the head's distance and appended,
  and the round stops exactly when that cell is the target. If it does not
  stop, exactly the cell's unvisited, unwalled neighbours get the new
  distance and a link, and are queued.
- Every visited cell but the target has each non-wall neighbour in the grid
  visited or linked. Every linked cell that is neither visited nor a wall
  still has a reference queued.
- Completeness: with no budget limit and distinct coordinate objects, the
  target is visited whenever a walk from the start reaches it without
  crossing a wall (`GridSearch.ReachableTargetIsFound`).
- Every queued entry has a finite distance.
- The sort is stable: entries at the same distance keep their relative order.
- Every predecessor link names an adjacent cell visited earlier.
- For Dijkstra:
  - a link adds exactly one to the distance;
  - distances never fall along the visit order;
  - the path to a reached or linked finish has one cell more than the
    finish's distance;
  - the search explores in layers, as a breadth-first search does
    (`GridSearch.Layered`). A reached cell's distance has the parity of its
    grid offset from the start. Every waiting cell is at the last visited
    distance or one more. Every open neighbour of a visited cell other than
    the target is at most one step farther. So the overwrite of a waiting
    neighbour's distance at line 206 never changes it;
  - every visited cell's distance is the number of steps of a shortest
    wall-free walk from the start (`GridSearch.VisitedDistanceIsShortest`),
    and the path back from a visited finish is a shortest wall-free route
    (`ShortestPath.PathIsShortest`).
- For A*: every visited or linked cell holds the squared straight-line
  distance from its position to the target.
- The path ends at the finish and its first cell has no predecessor. That
  first cell is the start whenever the finish was reached or linked.
  Consecutive cells are linked and adjacent, and every cell but the last is
  visited.
- Start and target passed as one object: nothing happens. Equal but
  distinct coordinates, with a budget of at least 1 and a start that is not
  a wall: exactly one expansion, of the start. A walled start is never
  visited.

The search's loop invariant is `GridSearch.Invariant`, made of four parts:
- `Frame`: the grid keeps its layout;
- `History`: the visit order, the flags, the links and where they lead;
- `Pending`: what the queue holds;
- `Distances`: the Dijkstra distance facts and A*'s straight-line distances.

The methods pass it along as `GridSearch.Good`. That is the same predicate,
kept behind the trigger `Unfold` so that only the lemmas that need its
contents expand it. Beside it, the loop keeps `Closed` (visited cells have
their neighbours reached) and `Queued` (reached cells are pending). Each
round is related to the next by `RoundStep`. `Round` states it as
`Stepped`, the same relation behind the same mask. `RoundKeeps` carries
`Closed` and `Queued` across a round, and `RoundKeepsLayers` carries
Dijkstra's `Layered`. The loop of `Explore` keeps all of these, together
with the run so far (`Traced`), as `Looping`, behind a second trigger
`Inspect`.

## Model

| member | source | states |
|---|---|---|
| CellIds.Decimal | src/algorithms/index.ts:21 | the text of a natural in a template literal is a non-empty string of decimal digits |
| CellIds.IdOf | src/algorithms/index.ts:21 | the identity `n:${i}:${j}` of the cell at row `i`, column `j`, the same text the wall set is looked up with at line 27 |
| CellIds.Split | src/algorithms/index.ts:246 | `split` on a one-character separator always yields at least one field |
| CellIds.NumberOf | src/algorithms/index.ts:246 | `Number` of a field of an identity: the value of a string of decimal digits, the empty string giving 0, and NaN for anything else |
| CellIds.BacktrackIndices | src/algorithms/index.ts:246 | `split(":").slice(1).map(Number)` yields one number, or NaN, per field after the first |
| CellIds.DecimalRoundTrip | src/algorithms/index.ts:246 | `Number` of the decimal text of `n` is `n` |
| CellIds.SplitWithoutSeparator | src/algorithms/index.ts:246 | splitting text without the separator yields that text as the only field |
| CellIds.SplitAtFirstSeparator | src/algorithms/index.ts:246 | splitting at the first separator yields the text before it, then the split of the rest |
| CellIds.IdFields | src/algorithms/index.ts:21 | the identity `n:i:j` splits into exactly the fields `n`, the digits of `i`, the digits of `j` |
| CellIds.IdRoundTrip | src/algorithms/index.ts:244-250 | reading the identity of the cell at `(i, j)` back gives `[i, j]`, for all naturals `i`, `j` |
| CellIds.IdInjective | src/algorithms/index.ts:198 | equal identities mean equal positions, so comparing ids compares cells |
| Grids.Grid.constructor | src/algorithms/index.ts:43-49 | the grid object holds the matrix it is given |
| Grids.Update | src/algorithms/index.ts:195-196 | writing one cell changes that cell and leaves every other cell and every dimension as it was |
| Grids.InitialCell | src/algorithms/index.ts:20-32 | the record `buildGraph` builds for row `i`, column `j`: its identity, position, start, finish and wall flags, infinite distance, unvisited, no predecessor, display flags off |
| Grids.BuildGraph | src/algorithms/index.ts:12-34 | `rows` rows of `columns` cells; cell `(i, j)` has row `i`, column `j` and identity `n:i:j`; it is a wall iff its identity is in the wall set, and the start or finish iff `(i, j)` is that position; it is unvisited and unlinked at infinite distance, with both display flags off |
| Grids.LinkOf | src/algorithms/index.ts:246-250 | the position a predecessor identity names: the first two numbers after the first field, or none when they do not parse |
| Grids.LinkOfId | src/algorithms/index.ts:244-250 | a cell's identity, read back as a predecessor, names that cell's own position |
| Grids.Filter | src/algorithms/index.ts:231 | `filter` keeps exactly the elements that pass, and never makes the list longer |
| Grids.PrependKeepsDirectionOrder | src/algorithms/index.ts:227-230 | a position whose direction comes before all others may go in front of a list in direction order |
| Grids.Orthogonal | src/algorithms/index.ts:225-230 | the positions above, below, left and right of a cell that lie inside the grid, in that order; the right one is bounded by the first row's length |
| Grids.FilterKeepsOrder | src/algorithms/index.ts:231 | filtering a list in up, down, left, right order keeps that order |
| Grids.OrthogonalFacts | src/algorithms/index.ts:225-230 | the candidate list holds exactly the in-grid positions adjacent to the cell, in up, down, left, right order |
| Grids.UnvisitedNeighbors | src/algorithms/index.ts:221-232 | at most four positions, each in the grid, adjacent and unvisited; every such position is present; they are in up, down, left, right order |
| PendingQueue.Insert | src/algorithms/index.ts:218-219 | placing one entry by the comparator adds one entry and keeps every entry inside the grid |
| PendingQueue.Le | src/algorithms/index.ts:218-219 | `nodesByAscDistance(a, b)` is not positive: `a` may stay before `b`; infinity minus infinity is NaN, which the sort reads as a tie |
| PendingQueue.LeOrdersDistances | src/algorithms/index.ts:218-219 | the comparator orders distances totally; two distances tie exactly when they are equal, infinity against infinity included |
| PendingQueue.InsertPermutes | src/algorithms/index.ts:218-219 | placing an entry adds it and loses nothing |
| PendingQueue.PrependKeepsSorted | src/algorithms/index.ts:218-219 | an entry no farther than all others may go in front of a sorted queue |
| PendingQueue.InsertKeepsSorted | src/algorithms/index.ts:218-219 | placing an entry into a sorted queue keeps it sorted |
| PendingQueue.SortByDistance | src/algorithms/index.ts:177 | sorting keeps the number of entries, and every entry stays inside the grid |
| PendingQueue.SortByDistancePermutes | src/algorithms/index.ts:177 | the sorted queue is a permutation of the queue |
| PendingQueue.SortByDistanceIsSorted | src/algorithms/index.ts:177 | the distances along the sorted queue never decrease |
| PendingQueue.WithKey | src/algorithms/index.ts:177 | the entries at one distance, in their queue order |
| PendingQueue.InsertWithKey | src/algorithms/index.ts:218-219 | an entry placed by the comparator lands in front of every entry at its own distance: the entries it moves past are strictly nearer |
| PendingQueue.SortByDistanceIsStable | src/algorithms/index.ts:177 | the sort is stable: the entries at any one distance keep their relative order |
| PendingQueue.FirstMinIndex | src/algorithms/index.ts:218-219 | the earliest entry of least distance: no entry is nearer, and every earlier one is farther |
| PendingQueue.SortedHead | src/algorithms/index.ts:177-179 | the stable sort puts the earliest entry of least distance first |
| PendingQueue.SortedHeadIsNearest | src/algorithms/index.ts:177-179 | the shifted entry is no farther than any entry of the queue |
| PendingQueue.PopFacts | src/algorithms/index.ts:177-179 | after sort and shift, the head came from the queue; what is left is the rest of the queue, one shorter, each entry no nearer than the head |
| GridSearch.Exhausted | src/algorithms/index.ts:171 | `visitedNodesInOrder.length >= maxWanted`: never with no limit, and with a limit once the visit order reaches it (also line 104) |
| GridSearch.SquaredDistance | src/algorithms/index.ts:93-96 | the square of the Euclidean distance between two positions, the heuristic without its square root |
| GridSearch.SeedDistance | src/algorithms/index.ts:99-102 | the distance the start copy is queued with: A*'s heuristic at the start; 0 for Dijkstra (line 169) |
| GridSearch.RelaxedDistance | src/algorithms/index.ts:140 | the distance a relaxed neighbour gets: A*'s heuristic at the neighbour; the current distance plus one for Dijkstra (line 206) |
| GridSearch.SeedEntry | src/algorithms/index.ts:169 | `{...startNode, distance}`: the start cell's record with the seed distance (also lines 99-102) |
| GridSearch.IndexOf | src/algorithms/index.ts:197 | the index of the first occurrence of a visited position in the visit order |
| GridSearch.IndexOfUnique | src/algorithms/index.ts:197 | that index is the only one before which the position does not occur |
| GridSearch.RankAppend | src/algorithms/index.ts:197 | appending a cell to the visit order keeps the rank of every cell already in it, and ranks the new cell last |
| GridSearch.UnseenShrinks | src/algorithms/index.ts:195-197 | visiting a cell not yet in the visit order lowers the count of positions never visited, which bounds the loop |
| GridSearch.Relax | src/algorithms/index.ts:205-209 | each neighbour's cell gets the strategy's new distance and a link to the current cell; every other cell stays as it was; one reference per neighbour is pushed, in order |
| GridSearch.GoodQueue | src/algorithms/index.ts:177-179 | under the loop invariant every queued entry lies in the grid and has a finite distance |
| GridSearch.HeadFacts | src/algorithms/index.ts:177-186 | the shifted entry denotes a grid cell with the right identity and wall flag, at finite distance; a reference is linked; the seed copy is shifted only in the first round, alone |
| GridSearch.SkipStep | src/algorithms/index.ts:180-186 | a round that skips a visited cell or a wall keeps the loop invariant with the shorter queue |
| GridSearch.Mark | src/algorithms/index.ts:195-196 | the grid with the popped cell flagged visited at the popped distance, every other cell unchanged |
| GridSearch.MarkKeepsOrder | src/algorithms/index.ts:195-197 | marking an unvisited non-wall cell and appending it keeps the visit order free of repeats and walls, equal to the visited cells, and finite |
| GridSearch.MarkKeepsLinks | src/algorithms/index.ts:195-197 | marking a cell and appending it keeps every predecessor link pointing at an adjacent cell visited earlier |
| GridSearch.MarkKeepsRoots | src/algorithms/index.ts:195-196 | after marking, the only visited cell without a predecessor is still the start, at the seed distance |
| GridSearch.MarkKeepsQueue | src/algorithms/index.ts:195-196 | marking keeps every queued reference at a linked cell with a finite distance |
| GridSearch.MarkKeepsChain | src/algorithms/index.ts:196 | writing the popped distance back to its cell keeps every Dijkstra link adding exactly one |
| GridSearch.MarkKeepsMonotone | src/algorithms/index.ts:177-197 | a cell popped at a distance not below the last visit keeps distances non-decreasing along the visit order, and leaves the frontier at or above it |
| GridSearch.MarkStep | src/algorithms/index.ts:195-197 | marking the shifted cell visited and appending it keeps the loop invariant |
| GridSearch.MarkKeepsHistory | src/algorithms/index.ts:195-197 | marking keeps the grid's layout, the visit order, the links and the roots |
| GridSearch.MarkKeepsPending | src/algorithms/index.ts:179-197 | after the first expansion the queue holds only references to linked cells |
| GridSearch.MarkKeepsDistances | src/algorithms/index.ts:177-197 | for Dijkstra, marking the nearest entry keeps links adding one, distances non-decreasing along the visit order, and the frontier at or above the last visit |
| GridSearch.MarkKeepsStraightLines | src/algorithms/index.ts:128-129 | A*: the cell marked visited receives its own straight-line distance, so every reached cell keeps its own |
| GridSearch.OpenNeighbors | src/algorithms/index.ts:203-204 | `getUnvisitedNeighbors` followed by the wall filter |
| GridSearch.NeighborsAreOk | src/algorithms/index.ts:203-204 | the unwalled unvisited neighbours lie in the grid, are adjacent to the current cell, and are neither visited nor walls |
| GridSearch.RelaxKeepsCells | src/algorithms/index.ts:205-207 | relaxing unvisited neighbours keeps the layout, the visit order and the cells already visited |
| GridSearch.RelaxKeepsLinks | src/algorithms/index.ts:207 | links set to the cell just visited point at an adjacent cell visited earlier than the linked one |
| GridSearch.RelaxKeepsQueue | src/algorithms/index.ts:205-208 | the pushed references name linked cells at a finite distance |
| GridSearch.RelaxKeepsChain | src/algorithms/index.ts:206-207 | Dijkstra's `current + 1` keeps every link adding exactly one |
| GridSearch.RelaxKeepsFrontier | src/algorithms/index.ts:206-208 | Dijkstra's relaxation queues nothing nearer than the last visit, and keeps the visit order non-decreasing |
| GridSearch.RelaxKeepsStraightLines | src/algorithms/index.ts:139-141 | A*: each relaxed neighbour receives its own straight-line distance, so every reached cell keeps its own |
| GridSearch.RelaxStep | src/algorithms/index.ts:203-209 | relaxing the neighbours of the cell just visited keeps the loop invariant |
| GridSearch.RelaxKeepsInvariant | src/algorithms/index.ts:203-209 | the same, stated on the unmasked invariant |
| GridSearch.GoodOutcome | src/algorithms/index.ts:170-215 | the loop invariant at an exit, with the budget and target facts, gives every guarantee of a finished run |
| GridSearch.PopStep | src/algorithms/index.ts:177-189 | after sort and shift, the invariant holds for the rest of the queue, and the head is a grid cell at a finite distance with the right identity and wall flag |
| GridSearch.RelaxNeighbors | src/algorithms/index.ts:203-209 | exactly the unvisited, unwalled neighbours of the cell just visited, in up, down, left, right order, get the strategy's distance and a link to it, and one reference each is pushed; every other cell is unchanged; the loop invariant is kept |
| GridSearch.Expand | src/algorithms/index.ts:195-209 | the popped cell, which was not in the visit order, is marked visited at the popped distance and appended; the run stops exactly when it is the target, with the grid then changed only by the mark; otherwise its unvisited, unwalled neighbours are relaxed and queued after the rest of the queue; the loop invariant is kept |
| GridSearch.GoodStart | src/algorithms/index.ts:167-169 | before the first round, the fresh grid with only the seed queued satisfies the loop invariant |
| GridSearch.IdleOutcome | src/algorithms/index.ts:161-166 | when start and target are one object, the empty result on the untouched grid meets every guarantee of a finished run |
| GridSearch.RoundStep | src/algorithms/index.ts:177-209 | one pass of the loop body after the budget check, as a relation between the states before and after it |
| GridSearch.MarkKeepsClosed | src/algorithms/index.ts:195-196 | marking a cell visited unlinks nothing and walls nothing, so visited cells stay closed |
| GridSearch.RelaxKeepsClosed | src/algorithms/index.ts:205-208 | relaxing changes no visited flag and no wall and only adds links, so visited cells stay closed |
| GridSearch.RelaxSurrounds | src/algorithms/index.ts:203-209 | after relaxing, every in-grid, non-wall neighbour of the cell just visited is visited or linked |
| GridSearch.RoundKeepsClosed | src/algorithms/index.ts:177-209 | after a round, every visited cell but the target still has its non-wall neighbours visited or linked |
| GridSearch.ShiftKeeps | src/algorithms/index.ts:177-179 | sort and shift keep every queued entry but the head |
| GridSearch.MarkWaiting | src/algorithms/index.ts:195-196 | a cell waiting after the mark is not the marked cell and was waiting before |
| GridSearch.RelaxWaiting | src/algorithms/index.ts:205-208 | a cell waiting after a relaxation that did not touch it was waiting before |
| GridSearch.RefsToHas | src/algorithms/index.ts:208 | every relaxed neighbour has its reference pushed |
| GridSearch.RoundKeepsQueued | src/algorithms/index.ts:177-209 | after a round, every linked cell that is neither visited nor a wall still has a reference queued |
| GridSearch.ParityStep | src/algorithms/index.ts:206 | a step to an adjacent position with the distance one more keeps the parity of the distance plus the grid offset from the start |
| GridSearch.MarkKeepsLayers | src/algorithms/index.ts:195-197 | Dijkstra: marking the popped cell at the distance it was reached at (the start at 0) keeps reached distances of the parity of their grid offset, puts every waiting cell at the new last distance or one more, and keeps earlier visited cells' open neighbours within one step |
| GridSearch.RelaxKeepsAlternating | src/algorithms/index.ts:205-207 | each relaxed neighbour is adjacent to the current cell and gets one more than its distance, so the parity relation is kept |
| GridSearch.RelaxKeepsBanded | src/algorithms/index.ts:205-207 | after relaxing, every waiting cell is at the last visited distance or one more |
| GridSearch.HereBoundsNeighbor | src/algorithms/index.ts:203-207 | after relaxing, every open neighbour of the cell just visited is at most one farther: a relaxed one is at one more, any other is visited at a distance no greater |
| GridSearch.NextLayer | src/algorithms/index.ts:205-206 | a waiting neighbour of the last visited cell is at exactly one more than its distance |
| GridSearch.EarlierBoundsNeighbor | src/algorithms/index.ts:205-207 | relaxing keeps an earlier visited cell's open neighbours within one step of it: a neighbour relaxed now was already waiting at exactly the new distance |
| GridSearch.RelaxKeepsStepBounded | src/algorithms/index.ts:203-209 | after relaxing, every visited cell but the target has each open neighbour at most one step farther |
| GridSearch.RelaxKeepsLayers | src/algorithms/index.ts:203-209 | relaxing the neighbours of the cell just visited keeps the parity relation, the band of waiting cells and the one-step bound |
| GridSearch.WaitingNearHead | src/algorithms/index.ts:177-179 | Dijkstra: every waiting cell other than the popped one is at the popped distance or one more |
| GridSearch.ExpansionKeepsLayers | src/algorithms/index.ts:195-209 | marking and relaxing a cell popped at the distance it was reached at, with no visited cell farther and every other waiting cell within one step, keeps the layers |
| GridSearch.ExpandKeepsLayers | src/algorithms/index.ts:177-209 | Dijkstra: a round, skip or expansion, keeps the layers |
| GridSearch.RoundKeepsLayers | src/algorithms/index.ts:177-209 | Dijkstra: every round keeps the layers |
| GridSearch.RoundKeeps | src/algorithms/index.ts:170-209 | a round appends at most one cell, stops exactly when it appends the target, and keeps visited cells closed and reached cells queued |
| GridSearch.RelaxedIsFunctional | src/algorithms/index.ts:205-209 | relaxing the same neighbours of the same grid from the same cell gives one grid only |
| GridSearch.RoundStepIsFunctional | src/algorithms/index.ts:177-209 | one pass of the loop body from a given state has one outcome: the grid, the visit order, the queue and whether it returns |
| GridSearch.ContinuesBeforeEnd | src/algorithms/index.ts:170-176 | every state of a run but the last is one from which the loop takes another round |
| GridSearch.SameStep | src/algorithms/index.ts:177-209 | two runs that agree on a state agree on the next one |
| GridSearch.RunIsUnique | src/algorithms/index.ts:159-216 | two runs from the same grid, coordinates, strategy and budget pass through the same states and end with the same grid, visit order and queue |
| GridSearch.RunStarts | src/algorithms/index.ts:159-169 | a run begins with the fresh grid, nothing visited and the seed alone queued, or nothing queued for one coordinates object |
| GridSearch.StepsExtend | src/algorithms/index.ts:170-209 | a round taken from the last state of a run, where the loop continues, extends the run by the state it leads to |
| GridSearch.Round | src/algorithms/index.ts:177-209 | the state after one pass is the one `RoundStep` (through `Stepped`) gives for the state before it: a visited or walled head is dropped with nothing else changed, any other head is expanded as in `Expand`; the invariant is kept; each pass visits a new cell or shortens the queue; the seed of a start that is not a wall is visited, and ends the run when start and target are equal |
| GridSearch.LoopStarts | src/algorithms/index.ts:167-169 | before the first round the loop state holds, with the one-state run of the seeded fresh grid |
| GridSearch.LoopGood | src/algorithms/index.ts:170 | the loop state includes the invariant |
| GridSearch.LoopAdvances | src/algorithms/index.ts:170-209 | a round taken where the loop continues keeps the loop state, with the run extended by the state reached, and stops exactly when the target is now visited |
| GridSearch.LoopEnds | src/algorithms/index.ts:170-216 | at the loop exit the run is complete, no further round applies, and the invariant, budget, target, closure, queue and layer facts hold |
| GridSearch.Explore | src/algorithms/index.ts:167-215 | the loop keeps `Looping`: its states so far are a run from the seeded fresh grid, each one `RoundStep` from the one before, with the invariant, visited cells closed, reached cells queued, Dijkstra's layers, the visit order within the budget and ending at the target if it holds it, and equal coordinates giving exactly `[start]`; it ends only with the queue empty, the budget spent or the target visited |
| GridSearch.Search | src/algorithms/index.ts:153-216 | the grid, visit order and queue returned are the end of a run of the loop from the seeded fresh grid (`IsRun`), the only one by `RunIsUnique`; the run leaves the grid's layout unchanged; its visit order has no walls or repeats, equals the visited cells, starts at the start at the seed distance, stays within the budget and ends at the target if it holds it; the run ends only with an empty queue, a spent budget or the target visited; links point at adjacent cells visited earlier; visited cells but the target have their open neighbours visited or linked, and linked unvisited open cells are queued; queued distances are finite; for Dijkstra links add one, distances never fall along the visit order and reached cells lie in layers; for A* reached cells hold their straight-line distance; one coordinates object does nothing |
| GridSearch.DijkstraOg | src/algorithms/index.ts:153-216 | the result is the end of the run of the loop with the start at distance 0 and `current + 1` relaxation, with every guarantee of `Search` |
| GridSearch.AStar | src/algorithms/index.ts:75-150 | the result is the end of the run of the loop with straight-line distances, with every guarantee of `Search`, and with every visited or linked cell, the start included, holding the squared straight-line distance from its position to the target |
| GridSearch.WalkStaysVisited | src/algorithms/index.ts:170-210 | with nothing queued, a walk from a visited cell that crosses no wall stays among the visited cells unless it passes the target |
| GridSearch.DrainedRunCoversWalks | src/algorithms/index.ts:170-210 | a run whose queue empties before the target is visited has visited every cell that a wall-free walk from the start reaches |
| GridSearch.ReachableTargetIsFound | src/algorithms/index.ts:153-216 | with no budget limit and distinct coordinate objects, the target is visited whenever a wall-free walk leads to it from the start |
| GridSearch.WalkBoundsDistance | src/algorithms/index.ts:170-210 | Dijkstra: for a wall-free walk from the start, the last visited distance is at most the walk's steps, or the walk ends at a visited cell other than the target whose distance is at most its steps |
| GridSearch.VisitedDistanceIsShortest | src/algorithms/index.ts:153-216 | Dijkstra: no wall-free walk from the start to a visited cell has fewer steps than that cell's distance |
| ShortestPath.PathTo | src/algorithms/index.ts:236-254 | the cells met walking predecessor links back from a cell: at least one and no more than the cell's visit rank plus one; the cell itself is last |
| ShortestPath.PathStep | src/algorithms/index.ts:244-250 | a linked cell's identity parses to a position in the grid with a smaller visit rank, and the cell's path is that position's path plus the cell |
| ShortestPath.UnshiftStep | src/algorithms/index.ts:243-250 | after unshifting a linked cell, what is still to walk is its predecessor's path |
| ShortestPath.PathCellsAreGridCells | src/algorithms/index.ts:241-251 | every cell on the path is the grid's cell at its own position, and the first has no predecessor |
| ShortestPath.LinkStep | src/algorithms/index.ts:244-250 | a link leads to an adjacent, visited, earlier-ranked cell, and the path runs through it |
| ShortestPath.PathIsLinked | src/algorithms/index.ts:236-254 | each cell after the first names the cell before it as its predecessor; that cell is adjacent and visited |
| ShortestPath.PathBeginsAtStart | src/algorithms/index.ts:236-254 | the path back from a visited or linked cell begins at the start, at the seed distance |
| ShortestPath.PathLengthIsDistance | src/algorithms/index.ts:236-254 | after Dijkstra, the path back from a visited or linked cell has exactly one cell more than that cell's distance |
| ShortestPath.NodesInShortestPathOrder | src/algorithms/index.ts:236-254 | the loop returns exactly the path back from the finish, with the finish last |
| ShortestPath.ReconstructedPath | src/algorithms/index.ts:236-254 | after any run, the path back from the finish ends at the finish, begins with a cell without predecessor, and is a chain of linked adjacent visited cells; it begins at the start when the finish was reached or linked; after Dijkstra it has the finish's distance plus one cells; after a run that did nothing it is the finish alone |
| ShortestPath.RouteIsOpen | src/algorithms/index.ts:236-254 | the positions of a chain of linked grid cells ending at a visited cell form a wall-free walk |
| ShortestPath.PathIsShortest | src/algorithms/index.ts:236-254 | after Dijkstra, the positions of the path back from a visited finish form a wall-free walk from the start to the finish, and no wall-free walk between them has fewer cells |
| Orchestrator.RuleOf | src/algorithms/index.ts:52-55 | the dispatch table: `astar` relaxes by straight-line distance, `dijkstra` by unit steps |
| Orchestrator.Dispatch | src/algorithms/index.ts:52-63 | the name selects the search: the result is the end of the run (`IsRun`) of A* with straight-line distances or Dijkstra with unit steps, with every guarantee of `Search` |
| Orchestrator.ReportHolds | src/algorithms/index.ts:63-71 | after a run, the path read back from the end has every property `Reported` lists, a shortest route for a Dijkstra run that visited the end included |
| Orchestrator.WorkAlgorithm | src/algorithms/index.ts:36-72 | the visit order and queue, read in the grid as the run leaves it (also returned), are the end of the run (`IsRun`) of the named search on the freshly built grid, with every guarantee of `Search`; the path is the one walked back from the end cell, with every path guarantee of `Reported`: after Dijkstra, when the end was visited, it is a shortest wall-free route from the start; when start and end are one object the path is the untouched end cell alone |

## Left out

- `console.log` (src/algorithms/index.ts:138): a debugging side effect with no behaviour.
- AStar: the distances stored are squared straight-line distances, not `Math.sqrt` of them. Square root is increasing on non-negative numbers, so every comparison, and therefore the pop order and the visit order, is the same. Floating-point arithmetic is not modelled.
- `Number.POSITIVE_INFINITY` is the value `Infinite`. GridSearch.Round has no branch for the return on an infinite distance (src/algorithms/index.ts:189-194). Every queued distance is finite (`GridSearch.GoodQueue`, and `RoundStep` states it of every popped head), so that return is never taken.
- Budget: `maxWanted` is `Unlimited` (the default, infinity) or a natural. A fractional or negative `maxWanted` is not modelled. It behaves like the next natural up, or like 0.
- Orchestrator.WorkAlgorithm: requires the start and end inside the grid, and coordinates outside it are not modelled. With a row outside the grid, the source throws a `TypeError` when it reads the cell. With the row inside and the column outside, the cell read is `undefined`, and the outcome depends on where it is first used. The run throws when the start copy `{distance}` is looked up in the grid, or when `targetNode.id` is read at the first expansion. It does not throw when the seed is skipped as a wall, or when one coordinates object is passed for both. For example, with a walled start the loop ends empty and the path walk on an `undefined` end cell returns `[]`.
- Orchestrator.WorkAlgorithm: the `this` binding of `map[algorithm].call(this, ...)` is JavaScript calling plumbing. The dispatch table is a `match` on `GraphAlgorithm`.
- The display flags `isOnShortestPath` and `isOnQueue` are kept as inert fields. Nothing in the engine reads them or writes them after the grid is built.
- References to grid cells, in the queue, the neighbour lists and `visitedNodesInOrder`, are modelled by positions. A cell is read in the grid as the run leaves it, which is what a reference shows once the run is over.
- GridSearch.Search: requires a grid with nothing visited and nothing linked. The only caller passes a freshly built grid. Running a second search on a used grid is not modelled.
- GridSearch.Explore: termination is proved by the number of positions never visited, and by the queue length between visits. The bound of 1 + 4·rows·columns pushes is not stated.
- CellIds.BacktrackIndices: `Number` is modelled on strings of decimal digits, where the empty string is 0. Every other string is NaN. Signs, blanks, exponents and hexadecimal never occur in an identity.
- ShortestPath.NodesInShortestPathOrder: requires every link to name an adjacent cell visited earlier, which every run guarantees. An identity that does not parse, or a link to an undefined row, would throw in the source. These cases are not modelled.
- GridSearch.AStar: no optimality is stated. `astar` adds no path cost, so it is greedy best-first search and its path need not be shortest. Shortest paths are proved for Dijkstra only.
