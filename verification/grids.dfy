/**
 * The grid: a rectangular matrix of cell records, built fresh for each run and
 * then updated in place by a search. A JavaScript reference to a grid cell is
 * modelled by the cell's position.
 */
module Grids {
  import opened Wrappers
  import opened CellIds

  /** A position `[row, column]`. */
  datatype Coord = Coord(row: nat, column: nat)

  /** A cell's distance; `Infinite` stands for `Number.POSITIVE_INFINITY`. */
  datatype Distance = Finite(value: nat) | Infinite

  /** One grid cell, with the fields of a visualizer node. */
  datatype Cell = Cell(
    id: string,
    row: nat,
    column: nat,
    isStart: bool,
    isFinish: bool,
    isWall: bool,
    distance: Distance,
    isVisited: bool,
    isOnShortestPath: bool,
    isOnQueue: bool,
    previousNode: Option<string>)

  type Cells = seq<seq<Cell>>

  /** The mutable grid shared by a search and the path reconstruction. */
  class Grid {
    var cells: Cells

    constructor (cells: Cells)
      ensures this.cells == cells
    {
      this.cells := cells;
    }
  }

  predicate InBounds(cells: Cells, c: Coord)
  {
    c.row < |cells| && c.column < |cells[c.row]|
  }

  function At(cells: Cells, c: Coord): Cell
    requires InBounds(cells, c)
  {
    cells[c.row][c.column]
  }

  /** The position a cell record sits at. */
  function PositionOf(x: Cell): Coord
  {
    Coord(x.row, x.column)
  }

  /** The grid with the cell at `c` replaced by `x` and every other cell as before. */
  function Update(cells: Cells, c: Coord, x: Cell): (r: Cells)
    requires InBounds(cells, c)
    ensures |r| == |cells| && forall i :: 0 <= i < |r| ==> |r[i]| == |cells[i]|
    ensures forall i, j :: 0 <= i < |r| && 0 <= j < |r[i]| ==>
      r[i][j] == if Coord(i, j) == c then x else cells[i][j]
  {
    cells[c.row := cells[c.row][c.column := x]]
  }

  /** Rectangular, and every cell knows its own position and identity. */
  ghost predicate Shaped(cells: Cells)
  {
    (forall i :: 0 <= i < |cells| ==> |cells[i]| == |cells[0]|) &&
    (forall i, j :: 0 <= i < |cells| && 0 <= j < |cells[i]| ==>
      cells[i][j].row == i && cells[i][j].column == j && cells[i][j].id == IdOf(i, j))
  }

  /** No cell visited yet and no cell linked to a predecessor. */
  ghost predicate Pristine(cells: Cells)
  {
    forall i, j :: 0 <= i < |cells| && 0 <= j < |cells[i]| ==>
      !cells[i][j].isVisited && cells[i][j].previousNode.None?
  }

  /** The part of a cell that no search changes. */
  function Layout(x: Cell): Cell
  {
    x.(distance := Infinite, isVisited := false, previousNode := None)
  }

  /** Same dimensions and the same cells up to distance, visited flag and predecessor. */
  ghost predicate SameLayout(a: Cells, b: Cells)
  {
    |a| == |b| && (forall i :: 0 <= i < |a| ==> |a[i]| == |b[i]|) &&
    forall i, j :: 0 <= i < |a| && 0 <= j < |a[i]| ==> Layout(a[i][j]) == Layout(b[i][j])
  }

  /** The cell at row `i`, column `j` of a freshly built grid. */
  function InitialCell(i: nat, j: nat, start: Coord, target: Coord, walls: set<string>): Cell
  {
    Cell(
      id := IdOf(i, j),
      row := i,
      column := j,
      isStart := i == start.row && j == start.column,
      isFinish := i == target.row && j == target.column,
      isWall := IdOf(i, j) in walls,
      distance := Infinite,
      isVisited := false,
      isOnShortestPath := false,
      isOnQueue := false,
      previousNode := None)
  }

  /**
   * `rows` rows of `columns` cells; walls are the cells whose identity is in
   * `walls`, start and finish are the cells at the given positions.
   */
  function BuildGraph(rows: nat, columns: nat, start: Coord, target: Coord, walls: set<string>): (g: Cells)
    ensures |g| == rows && forall i :: 0 <= i < rows ==> |g[i]| == columns
    ensures Shaped(g) && Pristine(g)
    ensures forall i, j :: 0 <= i < rows && 0 <= j < columns ==>
      (g[i][j].isWall <==> IdOf(i, j) in walls) &&
      (g[i][j].isStart <==> Coord(i, j) == start) &&
      (g[i][j].isFinish <==> Coord(i, j) == target) &&
      g[i][j].distance == Infinite &&
      !g[i][j].isOnShortestPath && !g[i][j].isOnQueue
  {
    seq(rows, i requires 0 <= i < rows => seq(columns, j requires 0 <= j < columns => InitialCell(i, j, start, target, walls)))
  }

  /**
   * The position a predecessor identity names, read back with
   * `split(":").slice(1).map(Number)`; `None` when fewer than two numbers come out.
   */
  function LinkOf(id: string): Option<Coord>
  {
    var ix := BacktrackIndices(id);
    if |ix| >= 2 && ix[0].Some? && ix[1].Some? then Some(Coord(ix[0].value, ix[1].value)) else None
  }

  /** A cell's identity names its own position. */
  lemma LinkOfId(c: Coord)
    ensures LinkOf(IdOf(c.row, c.column)) == Some(c)
  {
    IdRoundTrip(c.row, c.column);
  }

  function Abs(x: int): nat { if x < 0 then -x else x }

  /** Orthogonally adjacent: Manhattan distance exactly one. */
  predicate Adjacent(a: Coord, b: Coord)
  {
    Abs(a.row - b.row) + Abs(a.column - b.column) == 1
  }

  /** Where `to` lies from `from`: 0 up, 1 down, 2 left, 3 right. */
  function Direction(from: Coord, to: Coord): nat
  {
    if to.row < from.row then 0
    else if to.row > from.row then 1
    else if to.column < from.column then 2
    else 3
  }

  /** The elements of `s` that satisfy `keep`, in their order (`Array.prototype.filter`). */
  function Filter(s: seq<Coord>, keep: Coord -> bool): (r: seq<Coord>)
    ensures |r| <= |s|
    ensures forall x :: x in r <==> x in s && keep(x)
  {
    if s == [] then []
    else if keep(s[0]) then [s[0]] + Filter(s[1..], keep)
    else Filter(s[1..], keep)
  }

  /** The positions lie round `from` in strictly increasing direction. */
  predicate InDirectionOrder(from: Coord, s: seq<Coord>)
  {
    forall k, l :: 0 <= k < l < |s| ==> Direction(from, s[k]) < Direction(from, s[l])
  }

  lemma PrependKeepsDirectionOrder(from: Coord, x: Coord, s: seq<Coord>)
    requires InDirectionOrder(from, s)
    requires forall y :: y in s ==> Direction(from, x) < Direction(from, y)
    ensures InDirectionOrder(from, [x] + s)
  {
    var r := [x] + s;
    forall k, l | 0 <= k < l < |r| ensures Direction(from, r[k]) < Direction(from, r[l]) {
      assert r[l] == s[l - 1];
      if k > 0 {
        assert r[k] == s[k - 1];
      } else {
        assert s[l - 1] in s;
      }
    }
  }

  /** Filtering keeps positions that go round `from` in direction order in that order. */
  lemma {:induction false} FilterKeepsOrder(s: seq<Coord>, keep: Coord -> bool, from: Coord)
    requires InDirectionOrder(from, s)
    ensures InDirectionOrder(from, Filter(s, keep))
  {
    if s != [] {
      FilterKeepsOrder(s[1..], keep, from);
      var tail := Filter(s[1..], keep);
      forall x | x in tail ensures Direction(from, s[0]) < Direction(from, x) {
        var l :| 0 <= l < |s[1..]| && s[1..][l] == x;
        assert s[l + 1] == x;
      }
      if keep(s[0]) {
        PrependKeepsDirectionOrder(from, s[0], tail);
      }
    }
  }

  /** Not visited, read in the given grid. */
  function UnvisitedIn(cells: Cells): Coord -> bool
  {
    c => InBounds(cells, c) && !At(cells, c).isVisited
  }

  /** Not a wall, read in the given grid. */
  function UnwalledIn(cells: Cells): Coord -> bool
  {
    c => InBounds(cells, c) && !At(cells, c).isWall
  }

  /** The positions above, below, left and right of `node` that lie inside the grid, in that order. */
  function Orthogonal(cells: Cells, node: Coord): seq<Coord>
    requires |cells| > 0
  {
    (if node.row > 0 then [Coord(node.row - 1, node.column)] else []) +
    (if node.row + 1 < |cells| then [Coord(node.row + 1, node.column)] else []) +
    (if node.column > 0 then [Coord(node.row, node.column - 1)] else []) +
    (if node.column + 1 < |cells[0]| then [Coord(node.row, node.column + 1)] else [])
  }

  lemma OrthogonalFacts(cells: Cells, node: Coord)
    requires Shaped(cells) && InBounds(cells, node)
    ensures var around := Orthogonal(cells, node);
      (forall c :: c in around ==> InBounds(cells, c) && Adjacent(node, c)) &&
      (forall c :: InBounds(cells, c) && Adjacent(node, c) ==> c in around) &&
      InDirectionOrder(node, around)
  {
  }

  /**
   * The in-bounds orthogonal neighbours of `node` that are not yet visited:
   * at most four, each inside the grid, adjacent and unvisited, every such
   * neighbour present, in up, down, left, right order.
   */
  function UnvisitedNeighbors(cells: Cells, node: Coord): (ns: seq<Coord>)
    requires Shaped(cells) && InBounds(cells, node)
    ensures |ns| <= 4
    ensures forall k :: 0 <= k < |ns| ==>
      InBounds(cells, ns[k]) && Adjacent(node, ns[k]) && !At(cells, ns[k]).isVisited
    ensures forall c :: InBounds(cells, c) && Adjacent(node, c) && !At(cells, c).isVisited ==> c in ns
    ensures InDirectionOrder(node, ns)
  {
    var around := Orthogonal(cells, node);
    OrthogonalFacts(cells, node);
    FilterKeepsOrder(around, UnvisitedIn(cells), node);
    Filter(around, UnvisitedIn(cells))
  }
}
