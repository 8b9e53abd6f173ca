/**
 * Path reconstruction after a search: starting from the finish cell, read
 * each cell's predecessor identity back into a position and step to that
 * cell, putting every cell met in front of the list, until a cell without a
 * predecessor.
 */
module ShortestPath {
  import opened Wrappers
  import opened CellIds
  import opened Grids
  import opened PendingQueue
  import opened GridSearch

  /**
   * The cells met by following predecessor links back from `c`, the first
   * one without a predecessor first and the cell at `c` last. The links
   * lead to cells visited earlier, which bounds the walk.
   */
  ghost function PathTo(cells: Cells, order: seq<Coord>, c: Coord): (p: seq<Cell>)
    requires InBounds(cells, c) && LinksSound(cells, order)
    ensures 1 <= |p| <= Rank(order, c) + 1
    ensures p[|p| - 1] == At(cells, c)
    decreases Rank(order, c)
  {
    var cell := At(cells, c);
    if cell.previousNode.None? then [cell]
    else
      assert LinkOk(cells, order, Coord(c.row, c.column));
      PathTo(cells, order, LinkOf(cell.previousNode.value).value) + [cell]
  }

  /** One step back: a linked cell's path is its predecessor's path followed by the cell. */
  lemma PathStep(cells: Cells, order: seq<Coord>, c: Coord)
    requires InBounds(cells, c) && LinksSound(cells, order) && At(cells, c).previousNode.Some?
    ensures var ix := BacktrackIndices(At(cells, c).previousNode.value);
      |ix| >= 2 && ix[0].Some? && ix[1].Some? &&
      var q := Coord(ix[0].value, ix[1].value);
      InBounds(cells, q) && Rank(order, q) < Rank(order, c) &&
      PathTo(cells, order, c) == PathTo(cells, order, q) + [At(cells, c)]
  {
    assert LinkOk(cells, order, Coord(c.row, c.column));
  }

  /** Putting a linked cell in front of a partial result leaves its predecessor's path still to walk. */
  lemma UnshiftStep(cells: Cells, order: seq<Coord>, c: Coord, after: seq<Cell>)
    requires InBounds(cells, c) && LinksSound(cells, order) && At(cells, c).previousNode.Some?
    ensures var ix := BacktrackIndices(At(cells, c).previousNode.value);
      |ix| >= 2 && ix[0].Some? && ix[1].Some? &&
      var q := Coord(ix[0].value, ix[1].value);
      InBounds(cells, q) && Rank(order, q) < Rank(order, c) &&
      PathTo(cells, order, c) + after == PathTo(cells, order, q) + ([At(cells, c)] + after)
  {
    PathStep(cells, order, c);
  }

  /** Every cell of the path is the grid's cell at its own position, and the first has no predecessor. */
  lemma {:induction false} PathCellsAreGridCells(cells: Cells, order: seq<Coord>, c: Coord)
    requires Shaped(cells) && InBounds(cells, c) && LinksSound(cells, order)
    ensures var p := PathTo(cells, order, c);
      p[0].previousNode.None? &&
      forall k :: 0 <= k < |p| ==> InBounds(cells, PositionOf(p[k])) && At(cells, PositionOf(p[k])) == p[k]
    decreases Rank(order, c)
  {
    var cell := At(cells, c);
    if cell.previousNode.Some? {
      PathStep(cells, order, c);
      var q := LinkOf(cell.previousNode.value).value;
      PathCellsAreGridCells(cells, order, q);
      var before := PathTo(cells, order, q);
      var p := before + [cell];
      assert PositionOf(cell) == c;
      forall k | 0 <= k < |p| ensures InBounds(cells, PositionOf(p[k])) && At(cells, PositionOf(p[k])) == p[k] {
        if k < |before| {
          assert p[k] == before[k];
        }
      }
    }
  }

  /** A link leads to an adjacent visited cell, and the path runs through it. */
  lemma LinkStep(cells: Cells, order: seq<Coord>, c: Coord)
    requires Shaped(cells) && InBounds(cells, c) && VisitOrder(cells, order) && LinksSound(cells, order)
    requires At(cells, c).previousNode.Some?
    ensures var q := LinkOf(At(cells, c).previousNode.value);
      q.Some? && InBounds(cells, q.value) && Adjacent(q.value, c) && At(cells, q.value).isVisited &&
      PositionOf(At(cells, q.value)) == q.value && PositionOf(At(cells, c)) == c &&
      Rank(order, q.value) < Rank(order, c) &&
      PathTo(cells, order, c) == PathTo(cells, order, q.value) + [At(cells, c)]
  {
    PathStep(cells, order, c);
    assert LinkOk(cells, order, Coord(c.row, c.column));
    var q := LinkOf(At(cells, c).previousNode.value).value;
    assert cells[q.row][q.column].isVisited;
  }

  /**
   * `cell` names `prev` as its predecessor, and `prev` is a visited cell
   * orthogonally adjacent to it.
   */
  predicate LinkedTo(prev: Cell, cell: Cell)
  {
    cell.previousNode.Some? && LinkOf(cell.previousNode.value) == Some(PositionOf(prev)) &&
    Adjacent(PositionOf(prev), PositionOf(cell)) && prev.isVisited
  }

  /**
   * Each cell of the path after the first has a predecessor identity that
   * reads back as the position of the cell before it, which is adjacent and
   * visited.
   */
  lemma {:induction false} PathIsLinked(cells: Cells, order: seq<Coord>, c: Coord)
    requires Shaped(cells) && InBounds(cells, c) && VisitOrder(cells, order) && LinksSound(cells, order)
    ensures var p := PathTo(cells, order, c);
      forall k :: 0 < k < |p| ==> LinkedTo(p[k - 1], p[k])
    decreases Rank(order, c)
  {
    var cell := At(cells, c);
    if cell.previousNode.Some? {
      LinkStep(cells, order, c);
      var q := LinkOf(cell.previousNode.value).value;
      PathIsLinked(cells, order, q);
      var before := PathTo(cells, order, q);
      var p := before + [cell];
      forall k | 0 < k < |p| ensures LinkedTo(p[k - 1], p[k]) {
        if k < |before| {
          assert p[k] == before[k] && p[k - 1] == before[k - 1];
        }
      }
    }
  }

  /** A path back from a visited or linked cell begins at the start, at the seed distance. */
  lemma {:induction false} PathBeginsAtStart(cells: Cells, order: seq<Coord>, c: Coord, start: Coord, sd: Distance)
    requires Shaped(cells) && InBounds(cells, c) && VisitOrder(cells, order) && LinksSound(cells, order)
    requires Roots(cells, start, sd)
    requires At(cells, c).isVisited || At(cells, c).previousNode.Some?
    ensures var p := PathTo(cells, order, c);
      PositionOf(p[0]) == start && p[0].distance == sd
    decreases Rank(order, c)
  {
    var cell := At(cells, c);
    if cell.previousNode.Some? {
      assert LinkOk(cells, order, Coord(c.row, c.column));
      var q := LinkOf(cell.previousNode.value).value;
      assert cells[q.row][q.column].isVisited;
      PathBeginsAtStart(cells, order, q, start, sd);
      var before := PathTo(cells, order, q);
      assert (before + [cell])[0] == before[0];
    } else {
      assert cells[c.row][c.column].isVisited;
    }
  }

  /**
   * Dijkstra: every link adds one to the distance and the start is at 0, so
   * the path back from a visited or linked cell has one cell more than that
   * cell's distance.
   */
  lemma {:induction false} PathLengthIsDistance(cells: Cells, order: seq<Coord>, c: Coord, start: Coord)
    requires Shaped(cells) && InBounds(cells, c) && VisitOrder(cells, order) && LinksSound(cells, order)
    requires DistancesChained(cells) && Roots(cells, start, Finite(0))
    requires At(cells, c).isVisited || At(cells, c).previousNode.Some?
    ensures At(cells, c).distance.Finite?
    ensures |PathTo(cells, order, c)| == At(cells, c).distance.value + 1
    decreases Rank(order, c)
  {
    var cell := At(cells, c);
    if cell.previousNode.Some? {
      assert LinkOk(cells, order, Coord(c.row, c.column));
      var q := LinkOf(cell.previousNode.value).value;
      assert cells[q.row][q.column].isVisited;
      PathLengthIsDistance(cells, order, q, start);
    } else {
      assert cells[c.row][c.column].isVisited;
    }
  }

  /**
   * `getNodesInShortestPathOrder`: walk back from the cell at `finish`,
   * putting each cell in front of the result, until a cell has no
   * predecessor. `order` is the visit order of the search that set the links.
   */
  method NodesInShortestPathOrder(grid: Grid, finish: Coord, ghost order: seq<Coord>) returns (path: seq<Cell>)
    requires InBounds(grid.cells, finish) && LinksSound(grid.cells, order)
    ensures path == PathTo(grid.cells, order, finish)
  {
    path := [];
    var current: Option<Coord> := Some(finish);
    while current.Some?
      invariant current.Some? ==>
        InBounds(grid.cells, current.value) &&
        PathTo(grid.cells, order, finish) == PathTo(grid.cells, order, current.value) + path
      invariant current.None? ==> PathTo(grid.cells, order, finish) == path
      decreases if current.Some? then Rank(order, current.value) + 1 else 0
    {
      var c := current.value;
      var node := At(grid.cells, c);
      ghost var after := path;
      path := [node] + path;
      if node.previousNode.None? {
        current := None;
      } else {
        UnshiftStep(grid.cells, order, c, after);
        var backtracked := BacktrackIndices(node.previousNode.value);
        current := Some(Coord(backtracked[0].value, backtracked[1].value));
      }
    }
  }

  /**
   * What path reconstruction yields after any search: a chain of linked,
   * adjacent cells ending at the target's cell and beginning with a cell
   * without predecessor, which is the start whenever the target was reached
   * or linked; after Dijkstra a reached or linked target's path has one cell
   * more than its distance; when the search did nothing it is the target's cell alone.
   */
  lemma ReconstructedPath(cells0: Cells, cells: Cells, visited: seq<Coord>, queue: seq<Entry>,
                          rule: Relaxation, start: Coord, target: Coord, maxWanted: Budget, sameObject: bool)
    requires Outcome(cells0, cells, visited, queue, rule, start, target, maxWanted, sameObject)
    requires InBounds(cells0, target)
    ensures InBounds(cells, target) && LinksSound(cells, visited)
    ensures var p := PathTo(cells, visited, target);
      p[|p| - 1] == At(cells, target) && p[0].previousNode.None? &&
      (forall k :: 0 < k < |p| ==> LinkedTo(p[k - 1], p[k])) &&
      (forall k :: 0 <= k < |p| ==> InBounds(cells, PositionOf(p[k])) && At(cells, PositionOf(p[k])) == p[k]) &&
      (target in visited || |p| > 1 ==> PositionOf(p[0]) == start && p[0].distance == SeedDistance(rule, start, target)) &&
      (rule.UnitStep? && (target in visited || |p| > 1) ==> At(cells, target).distance == Finite(|p| - 1)) &&
      (sameObject ==> p == [At(cells0, target)])
  {
    PathCellsAreGridCells(cells, visited, target);
    PathIsLinked(cells, visited, target);
    var p := PathTo(cells, visited, target);
    var linked := At(cells, target).previousNode.Some?;
    if target in visited || linked {
      assert target in visited ==> cells[target.row][target.column].isVisited;
      PathBeginsAtStart(cells, visited, target, start, SeedDistance(rule, start, target));
      if rule.UnitStep? {
        PathLengthIsDistance(cells, visited, target, start);
      }
    }
  }

  /** The positions of the cells of a path, in order. */
  function Route(p: seq<Cell>): seq<Coord>
  {
    seq(|p|, k requires 0 <= k < |p| => PositionOf(p[k]))
  }

  /**
   * The positions of the cells of `p` form an open walk from `start` to
   * `target`, and no open walk between them has fewer cells.
   */
  ghost predicate ShortestRoute(cells: Cells, start: Coord, target: Coord, p: seq<Cell>)
  {
    var route := Route(p);
    route != [] && OpenWalk(cells, route) && route[0] == start && route[|route| - 1] == target &&
    forall w :: OpenWalk(cells, w) && w != [] && w[0] == start && w[|w| - 1] == target ==> |p| <= |w|
  }

  /**
   * A chain of linked grid cells ending at a visited cell crosses no wall:
   * each of its cells is visited, and visited cells are not walls.
   */
  lemma RouteIsOpen(cells0: Cells, cells: Cells, visited: seq<Coord>, p: seq<Cell>)
    requires SameLayout(cells0, cells) && VisitOrder(cells, visited) && OpenAndFinite(cells, visited)
    requires p != [] && p[|p| - 1].isVisited
    requires forall k :: 0 <= k < |p| ==> InBounds(cells, PositionOf(p[k])) && At(cells, PositionOf(p[k])) == p[k]
    requires forall k :: 0 < k < |p| ==> LinkedTo(p[k - 1], p[k])
    ensures OpenWalk(cells0, Route(p))
  {
    var route := Route(p);
    forall k | 0 <= k < |route| ensures InBounds(cells0, route[k]) && !At(cells0, route[k]).isWall {
      var c := route[k];
      assert At(cells, c).isVisited by {
        if k < |p| - 1 {
          assert LinkedTo(p[k], p[k + 1]);
        }
      }
      var i :| 0 <= i < |visited| && visited[i] == c;
      assert Layout(At(cells0, c)) == Layout(At(cells, c));
    }
    forall k | 0 < k < |route| ensures Adjacent(route[k - 1], route[k]) {
      assert LinkedTo(p[k - 1], p[k]);
    }
  }

  /** Dijkstra: the path back from a visited target is a shortest route through the grid as it was built. */
  lemma PathIsShortest(cells0: Cells, cells: Cells, visited: seq<Coord>, queue: seq<Entry>,
                       start: Coord, target: Coord, maxWanted: Budget, sameObject: bool)
    requires Outcome(cells0, cells, visited, queue, UnitStep, start, target, maxWanted, sameObject)
    requires InBounds(cells0, target) && target in visited
    ensures InBounds(cells, target) && LinksSound(cells, visited)
    ensures ShortestRoute(cells0, start, target, PathTo(cells, visited, target))
  {
    ReconstructedPath(cells0, cells, visited, queue, UnitStep, start, target, maxWanted, sameObject);
    var p := PathTo(cells, visited, target);
    RouteIsOpen(cells0, cells, visited, p);
    forall w | OpenWalk(cells0, w) && w != [] && w[0] == start && w[|w| - 1] == target
      ensures |p| <= |w|
    {
      VisitedDistanceIsShortest(cells0, cells, visited, queue, start, target, maxWanted, sameObject, w);
    }
  }
}
