/**
 * One run of the visualizer: build a fresh grid, search it with the chosen
 * algorithm, then walk the predecessor links back from the finish cell.
 */
module Orchestrator {
  import opened Grids
  import opened PendingQueue
  import opened GridSearch
  import opened ShortestPath

  /** The algorithms a run can name. */
  datatype GraphAlgorithm = Astar | Dijkstra

  /** The rule by which the chosen algorithm queues a neighbour. */
  function RuleOf(algorithm: GraphAlgorithm): Relaxation
  {
    match algorithm
    case Astar => StraightLine
    case Dijkstra => UnitStep
  }

  /** What a run hands back to the visualizer. */
  datatype Results = Results(
    nodesInShortestPathOrder: seq<Cell>,
    queue: seq<Entry>,
    visitedNodesInOrder: seq<Coord>)

  /** Run the search the algorithm names on the grid. */
  method Dispatch(grid: Grid, start: Coord, end: Coord, maxWanted: Budget, algorithm: GraphAlgorithm, sameObject: bool)
    returns (visited: seq<Coord>, queue: seq<Entry>, ghost trace: seq<State>)
    requires Shaped(grid.cells) && Pristine(grid.cells)
    requires InBounds(grid.cells, start) && InBounds(grid.cells, end)
    requires sameObject ==> start == end
    modifies grid
    ensures IsRun(trace, old(grid.cells), RuleOf(algorithm), start, end, maxWanted, sameObject, grid.cells, visited, queue)
    ensures Outcome(old(grid.cells), grid.cells, visited, queue, RuleOf(algorithm), start, end, maxWanted, sameObject)
  {
    match algorithm {
      case Astar =>
        visited, queue, trace := AStar(grid, start, end, maxWanted, sameObject);
      case Dijkstra =>
        visited, queue, trace := DijkstraOg(grid, start, end, maxWanted, sameObject);
    }
  }

  /**
   * What the results of a finished run say about the path: it is what
   * following the predecessor links back from the end gives, a chain of
   * linked, adjacent cells ending at the end's cell and beginning with a cell
   * without predecessor, which is the start whenever the end was reached or
   * linked; after Dijkstra it has one cell more than the end's distance and,
   * when the end was visited, it is a shortest route through the grid as it
   * was built; when the search did nothing it is the end's cell alone.
   */
  ghost predicate Reported(built: Cells, cells: Cells, r: Results, algorithm: GraphAlgorithm,
                           start: Coord, end: Coord, sameObject: bool)
  {
    InBounds(built, end) && InBounds(cells, end) && LinksSound(cells, r.visitedNodesInOrder) &&
    r.nodesInShortestPathOrder == PathTo(cells, r.visitedNodesInOrder, end) &&
    var p := r.nodesInShortestPathOrder;
    |p| >= 1 && p[|p| - 1] == At(cells, end) && p[0].previousNode.None? &&
    (forall k :: 0 < k < |p| ==> LinkedTo(p[k - 1], p[k])) &&
    (end in r.visitedNodesInOrder || |p| > 1 ==> PositionOf(p[0]) == start) &&
    (algorithm.Dijkstra? && (end in r.visitedNodesInOrder || |p| > 1) ==> At(cells, end).distance == Finite(|p| - 1)) &&
    (algorithm.Dijkstra? && end in r.visitedNodesInOrder ==> ShortestRoute(built, start, end, p)) &&
    (sameObject ==> p == [At(built, end)])
  }

  /** The path read back after a run is the one `Reported` describes. */
  lemma ReportHolds(built: Cells, cells: Cells, visited: seq<Coord>, queue: seq<Entry>, path: seq<Cell>,
                    algorithm: GraphAlgorithm, start: Coord, end: Coord, maxWanted: Budget, sameObject: bool)
    requires Outcome(built, cells, visited, queue, RuleOf(algorithm), start, end, maxWanted, sameObject)
    requires InBounds(built, end) && LinksSound(cells, visited) && path == PathTo(cells, visited, end)
    ensures Reported(built, cells, Results(path, queue, visited), algorithm, start, end, sameObject)
  {
    ReconstructedPath(built, cells, visited, queue, RuleOf(algorithm), start, end, maxWanted, sameObject);
    if algorithm.Dijkstra? && end in visited {
      PathIsShortest(built, cells, visited, queue, start, end, maxWanted, sameObject);
    }
  }

  /**
   * `workAlgorithm`. `sameObject` says that the caller passed one
   * coordinates object as both start and end. `cells` is the grid as the
   * search leaves it: the cells that the references in the results denote.
   */
  method WorkAlgorithm(rows: nat, columns: nat, start: Coord, end: Coord, walls: set<string>,
                       maxWanted: Budget, algorithm: GraphAlgorithm, sameObject: bool)
    returns (r: Results, cells: Cells, ghost trace: seq<State>)
    requires start.row < rows && start.column < columns
    requires end.row < rows && end.column < columns
    requires sameObject ==> start == end
    ensures var built := BuildGraph(rows, columns, start, end, walls);
      IsRun(trace, built, RuleOf(algorithm), start, end, maxWanted, sameObject, cells, r.visitedNodesInOrder, r.queue) &&
      Outcome(built, cells, r.visitedNodesInOrder, r.queue, RuleOf(algorithm), start, end, maxWanted, sameObject)
    ensures Reported(BuildGraph(rows, columns, start, end, walls), cells, r, algorithm, start, end, sameObject)
    ensures sameObject ==> r.nodesInShortestPathOrder == [InitialCell(end.row, end.column, start, end, walls)]
  {
    var g := BuildGraph(rows, columns, start, end, walls);
    var grid := new Grid(g);
    var visited, queue;
    visited, queue, trace := Dispatch(grid, start, end, maxWanted, algorithm, sameObject);
    cells := grid.cells;
    ReconstructedPath(g, cells, visited, queue, RuleOf(algorithm), start, end, maxWanted, sameObject);
    var path := NodesInShortestPathOrder(grid, end, visited);
    r := Results(path, queue, visited);
    ReportHolds(g, cells, visited, queue, path, algorithm, start, end, maxWanted, sameObject);
  }
}
