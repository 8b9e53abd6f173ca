/**
 * The two search strategies. Dijkstra and A* run the same loop: sort the
 * pending array by distance and take its head; skip it if its cell is
 * already visited or a wall; stop if its distance is infinite; otherwise mark
 * the cell visited, append it to the visit order, stop if it is the target,
 * and give every unvisited, non-wall neighbour a new distance and a link back
 * to the current cell before queueing it. The loop also stops, before sorting,
 * as soon as the visit order reaches the budget. The strategies differ only in
 * the distance they seed the start with and give a neighbour.
 */
module GridSearch {
  import opened Wrappers
  import opened CellIds
  import opened Grids
  import opened PendingQueue

  /** How a strategy sets the distance of a neighbour it reaches. */
  datatype Relaxation =
    | UnitStep      // Dijkstra: the current cell's distance plus one
    | StraightLine  // A*: the neighbour's own distance to the target, never plus the path cost

  /** `maxWanted`: the largest visit order a run may produce. */
  datatype Budget = Unlimited | AtMost(limit: nat)

  predicate Exhausted(b: Budget, count: nat)
  {
    b.AtMost? && count >= b.limit
  }

  /**
   * The square of the straight-line distance between two positions. Square
   * root is increasing, so ordering by it orders exactly as the Euclidean
   * distance does.
   */
  function SquaredDistance(a: Coord, b: Coord): nat
  {
    Abs(a.row - b.row) * Abs(a.row - b.row) + Abs(a.column - b.column) * Abs(a.column - b.column)
  }

  /** The distance the copy of the start cell is queued with. */
  function SeedDistance(rule: Relaxation, start: Coord, target: Coord): Distance
  {
    match rule
    case UnitStep => Finite(0)
    case StraightLine => Finite(SquaredDistance(start, target))
  }

  /** The distance a neighbour `n` gets when reached from a cell at distance `from`. */
  function RelaxedDistance(rule: Relaxation, from: nat, n: Coord, target: Coord): Distance
  {
    match rule
    case UnitStep => Finite(from + 1)
    case StraightLine => Finite(SquaredDistance(n, target))
  }

  /** The first queue entry: the start cell copied with its own distance. */
  function SeedEntry(cells: Cells, rule: Relaxation, start: Coord, target: Coord): Entry
    requires InBounds(cells, start)
  {
    Seed(At(cells, start).(distance := SeedDistance(rule, start, target)))
  }

  /** References to the cells at the given positions, in order. */
  function RefsTo(ns: seq<Coord>): seq<Entry>
  {
    seq(|ns|, k requires 0 <= k < |ns| => Ref(ns[k]))
  }

  // ---------------------------------------------------------------------------
  // Visit order and predecessor links

  function IndexOf(order: seq<Coord>, c: Coord): (k: nat)
    requires c in order
    ensures k < |order| && order[k] == c && c !in order[..k]
  {
    if order[0] == c then 0 else 1 + IndexOf(order[1..], c)
  }

  /** The first occurrence is the only index before which the element does not occur. */
  lemma {:induction false} IndexOfUnique(order: seq<Coord>, c: Coord, k: nat)
    requires k < |order| && order[k] == c && c !in order[..k]
    ensures IndexOf(order, c) == k
  {
    if k > 0 {
      assert order[0] in order[..k];
      assert order[1..][..k - 1] == order[..k][1..];
      IndexOfUnique(order[1..], c, k - 1);
    }
  }

  /** When a cell was visited; cells not (yet) visited come after all visited ones. */
  function Rank(order: seq<Coord>, c: Coord): nat
  {
    if c in order then IndexOf(order, c) else |order|
  }

  lemma {:induction false} RankAppend(order: seq<Coord>, x: Coord, y: Coord)
    requires x !in order
    ensures y in order ==> Rank(order + [x], y) == Rank(order, y)
    ensures y == x ==> Rank(order + [x], y) == |order|
    ensures y !in order && y != x ==> Rank(order + [x], y) == |order| + 1
  {
    if y in order {
      var k := IndexOf(order, y);
      assert (order + [x])[..k] == order[..k];
      IndexOfUnique(order + [x], y, k);
    }
  }

  /** The visit order lists each visited cell exactly once, and nothing else. */
  ghost predicate VisitOrder(cells: Cells, order: seq<Coord>)
  {
    (forall k :: 0 <= k < |order| ==> InBounds(cells, order[k])) &&
    (forall k, l :: 0 <= k < l < |order| ==> order[k] != order[l]) &&
    (forall i, j :: 0 <= i < |cells| && 0 <= j < |cells[i]| ==>
      (cells[i][j].isVisited <==> Coord(i, j) in order))
  }

  /** No visited cell is a wall, and each has a finite distance. */
  ghost predicate OpenAndFinite(cells: Cells, order: seq<Coord>)
  {
    forall k :: 0 <= k < |order| && InBounds(cells, order[k]) ==>
      !At(cells, order[k]).isWall && At(cells, order[k]).distance.Finite?
  }

  /**
   * A cell with a predecessor link names an adjacent cell inside the grid
   * that was visited before it (or before anything, if it is not visited).
   */
  ghost predicate LinkOk(cells: Cells, order: seq<Coord>, c: Coord)
    requires InBounds(cells, c)
  {
    match At(cells, c).previousNode
    case None => true
    case Some(pid) =>
      var p := LinkOf(pid);
      p.Some? && InBounds(cells, p.value) && Adjacent(p.value, c) &&
      p.value in order && Rank(order, p.value) < Rank(order, c)
  }

  ghost predicate LinksSound(cells: Cells, order: seq<Coord>)
  {
    forall i, j :: 0 <= i < |cells| && 0 <= j < |cells[i]| ==> LinkOk(cells, order, Coord(i, j))
  }

  /** A finite distance read in the grid, 0 elsewhere. */
  function DistAt(cells: Cells, c: Coord): nat
  {
    if InBounds(cells, c) && At(cells, c).distance.Finite? then At(cells, c).distance.value else 0
  }

  /** Dijkstra: a linked cell's distance is its predecessor's distance plus one. */
  ghost predicate DistancesChained(cells: Cells)
  {
    forall i, j ::
      (0 <= i < |cells| && 0 <= j < |cells[i]| && cells[i][j].previousNode.Some? &&
       LinkOf(cells[i][j].previousNode.value).Some?) ==>
        var p := LinkOf(cells[i][j].previousNode.value).value;
        cells[i][j].distance.Finite? && InBounds(cells, p) && At(cells, p).distance.Finite? &&
        cells[i][j].distance.value == At(cells, p).distance.value + 1
  }

  /** A visited cell without a predecessor is the start, at the seed distance. */
  ghost predicate Roots(cells: Cells, start: Coord, d: Distance)
  {
    forall i, j ::
      (0 <= i < |cells| && 0 <= j < |cells[i]| && cells[i][j].isVisited && cells[i][j].previousNode.None?) ==>
        Coord(i, j) == start && cells[i][j].distance == d
  }

  /** A*: every visited or linked cell holds its own squared straight-line distance to the target. */
  ghost predicate StraightLineDistances(cells: Cells, target: Coord)
  {
    forall i, j ::
      (0 <= i < |cells| && 0 <= j < |cells[i]| && (cells[i][j].isVisited || cells[i][j].previousNode.Some?)) ==>
        cells[i][j].distance == Finite(SquaredDistance(Coord(i, j), target))
  }

  /** Dijkstra: distances along the visit order never decrease. */
  ghost predicate Nondecreasing(cells: Cells, order: seq<Coord>)
  {
    forall k, l :: 0 <= k < l < |order| ==> DistAt(cells, order[k]) <= DistAt(cells, order[l])
  }

  /** Every queued reference names a grid cell that has been reached: finite distance, linked. */
  ghost predicate QueueOk(cells: Cells, q: seq<Entry>)
  {
    forall e :: e in q && e.Ref? ==>
      InBounds(cells, e.at) && At(cells, e.at).distance.Finite? && At(cells, e.at).previousNode.Some?
  }

  /** Dijkstra: every queued reference to an unvisited cell is at least `floor` away. */
  ghost predicate FrontierAbove(cells: Cells, q: seq<Entry>, floor: nat)
  {
    forall e :: e in q && e.Ref? && InBounds(cells, e.at) && !At(cells, e.at).isVisited ==>
      DistAt(cells, e.at) >= floor
  }

  /** The grid started fresh, and the search has changed none of its layout. */
  ghost predicate Frame(cells0: Cells, cells: Cells, start: Coord)
  {
    Shaped(cells0) && Pristine(cells0) && InBounds(cells0, start) &&
    Shaped(cells) && SameLayout(cells0, cells)
  }

  /** What the visit order, the visited flags and the predecessor links record. */
  ghost predicate History(cells: Cells, order: seq<Coord>, start: Coord, sd: Distance)
  {
    VisitOrder(cells, order) && OpenAndFinite(cells, order) &&
    LinksSound(cells, order) && Roots(cells, start, sd) &&
    (order != [] ==> order[0] == start)
  }

  /** The pending array holds the seed alone before the first expansion, and references after it. */
  ghost predicate Pending(cells0: Cells, cells: Cells, order: seq<Coord>, q: seq<Entry>,
                          rule: Relaxation, start: Coord, target: Coord)
  {
    QueueOk(cells, q) &&
    ((order == [] && InBounds(cells0, start) && q == [SeedEntry(cells0, rule, start, target)] && cells == cells0) ||
     (forall e :: e in q ==> e.Ref?)) &&
    (order == [] ==> cells == cells0)
  }

  /**
   * Dijkstra: links add one to the distance, and visits happen in order of
   * distance, the last at `floor`. A*: reached cells hold their straight-line
   * distance to the target.
   */
  ghost predicate Distances(cells: Cells, order: seq<Coord>, q: seq<Entry>, rule: Relaxation, target: Coord, floor: nat)
  {
    (rule.StraightLine? ==> StraightLineDistances(cells, target)) &&
    (rule.UnitStep? ==> DistancesChained(cells)) &&
    (rule.UnitStep? && order != [] ==>
      Nondecreasing(cells, order) && DistAt(cells, order[|order| - 1]) == floor &&
      FrontierAbove(cells, q, floor))
  }

  /** The state at the head of each round of the search loop. */
  ghost predicate Invariant(cells0: Cells, cells: Cells, order: seq<Coord>, q: seq<Entry>,
                            rule: Relaxation, start: Coord, target: Coord, floor: nat)
  {
    Frame(cells0, cells, start) && History(cells, order, start, SeedDistance(rule, start, target)) &&
    Pending(cells0, cells, order, q, rule, start, target) && Distances(cells, order, q, rule, target, floor)
  }

  /** A term that only the lemmas looking inside `Good` mention. */
  ghost predicate Unfold(n: int) { true }

  /**
   * `Invariant`, kept behind the trigger `Unfold` so that the methods, which
   * only pass it from one round to the next, do not expand its quantifiers.
   */
  ghost predicate Good(cells0: Cells, cells: Cells, order: seq<Coord>, q: seq<Entry>,
                       rule: Relaxation, start: Coord, target: Coord, floor: nat)
  {
    InBounds(cells0, start) && Shaped(cells) &&
    forall n {:trigger Unfold(n)} :: Unfold(n) ==> Invariant(cells0, cells, order, q, rule, start, target, floor)
  }

  // ---------------------------------------------------------------------------
  // The number of grid positions not yet in the visit order: it falls by one
  // at each expansion, so the loop pushes at most four references per cell
  // and terminates.

  ghost function Positions(cells: Cells): set<Coord>
  {
    set i, j | 0 <= i < |cells| && 0 <= j < |cells[i]| :: Coord(i, j)
  }

  ghost function Unseen(cells: Cells, order: seq<Coord>): nat
  {
    |Positions(cells) - (set c | c in order)|
  }

  lemma UnseenShrinks(cells: Cells, order: seq<Coord>, x: Coord)
    requires InBounds(cells, x) && x !in order
    ensures Unseen(cells, order + [x]) < Unseen(cells, order)
  {
    var left := Positions(cells) - (set c | c in order);
    assert Coord(x.row, x.column) in Positions(cells);
    assert Positions(cells) - (set c | c in order + [x]) == left - {x};
    assert left == (left - {x}) + {x};
  }

  // ---------------------------------------------------------------------------
  // Relaxing the neighbours of the current cell

  /**
   * `after` is `before` with each cell at a position in `ns` given the
   * strategy's new distance and a link to `fromId`, and nothing else changed.
   */
  ghost predicate Relaxed(before: Cells, after: Cells, ns: seq<Coord>, fromId: string, fromDist: nat,
                          rule: Relaxation, target: Coord)
  {
    |after| == |before| && (forall i :: 0 <= i < |before| ==> |after[i]| == |before[i]|) &&
    forall i, j :: 0 <= i < |before| && 0 <= j < |before[i]| ==>
      after[i][j] ==
        if Coord(i, j) in ns then
          before[i][j].(distance := RelaxedDistance(rule, fromDist, Coord(i, j), target),
                        previousNode := Some(fromId))
        else before[i][j]
  }

  /** `unwalledNeighbors.forEach(...)`: relax each neighbour in turn and push a reference to it. */
  method Relax(grid: Grid, ns: seq<Coord>, fromId: string, fromDist: nat, rule: Relaxation,
               target: Coord, queue: seq<Entry>) returns (queue': seq<Entry>)
    requires forall k :: 0 <= k < |ns| ==> InBounds(grid.cells, ns[k])
    modifies grid
    ensures Relaxed(old(grid.cells), grid.cells, ns, fromId, fromDist, rule, target)
    ensures queue' == queue + RefsTo(ns)
  {
    ghost var before := grid.cells;
    queue' := queue;
    for k := 0 to |ns|
      invariant Relaxed(before, grid.cells, ns[..k], fromId, fromDist, rule, target)
      invariant queue' == queue + RefsTo(ns[..k])
    {
      var n := ns[k];
      grid.cells := Update(grid.cells, n,
        At(grid.cells, n).(distance := RelaxedDistance(rule, fromDist, n, target), previousNode := Some(fromId)));
      queue' := queue' + [Ref(n)];
      assert ns[..k + 1] == ns[..k] + [n];
    }
    assert ns[..|ns|] == ns;
  }

  // ---------------------------------------------------------------------------
  // One round of the loop preserves Good

  lemma GoodQueue(cells0: Cells, cells: Cells, order: seq<Coord>, q: seq<Entry>,
                  rule: Relaxation, start: Coord, target: Coord, floor: nat)
    requires Invariant(cells0, cells, order, q, rule, start, target, floor)
    ensures AllOk(cells, q)
    ensures forall e :: e in q ==> Key(cells, e).Finite?
  {
    forall e | e in q ensures EntryOk(cells, e) && Key(cells, e).Finite? {
      if e.Seed? {
        assert q == [SeedEntry(cells0, rule, start, target)];
      }
    }
  }

  /** What the popped head denotes: a reached cell inside the grid, or the start copy in round one. */
  lemma HeadFacts(cells0: Cells, cells: Cells, order: seq<Coord>, q: seq<Entry>,
                  rule: Relaxation, start: Coord, target: Coord)
    requires Shaped(cells) && InBounds(cells0, start) && QueueOk(cells, q) && AllOk(cells, q) && q != []
    requires (order == [] && q == [SeedEntry(cells0, rule, start, target)] && cells == cells0) ||
             (forall e :: e in q ==> e.Ref?)
    ensures var head := SortByDistance(cells, q)[0];
      var closest := View(cells, head);
      var here := Coord(closest.row, closest.column);
      InBounds(cells, here) && closest.id == IdOf(here.row, here.column) &&
      closest.isWall == At(cells, here).isWall && closest.distance.Finite? &&
      (head.Ref? ==> head.at == here && closest == At(cells, here) && At(cells, here).previousNode.Some?) &&
      (head.Seed? ==> q == [head] && head == SeedEntry(cells0, rule, start, target) &&
                      here == start && order == [] && cells == cells0)
  {
    var sorted := SortByDistance(cells, q);
    var head := sorted[0];
    PopFacts(cells, q);
    if head.Seed? {
      assert q == [SeedEntry(cells0, rule, start, target)];
    }
  }

  /** A round that pops a visited cell or a wall changes only the queue. */
  lemma SkipStep(cells0: Cells, cells: Cells, order: seq<Coord>, q: seq<Entry>,
                 rule: Relaxation, start: Coord, target: Coord, floor: nat)
    requires Invariant(cells0, cells, order, q, rule, start, target, floor) && q != []
    requires AllOk(cells, q)
    ensures Invariant(cells0, cells, order, SortByDistance(cells, q)[1..], rule, start, target, floor)
  {
    var sorted := SortByDistance(cells, q);
    var rest := sorted[1..];
    PopFacts(cells, q);
    if q == [SeedEntry(cells0, rule, start, target)] {
      assert rest == [];
    }
  }

  /** The grid after `isVisited = true` and `distance = d` on the cell at `here`. */
  function Mark(cells: Cells, here: Coord, d: nat): Cells
    requires InBounds(cells, here)
  {
    Update(cells, here, At(cells, here).(isVisited := true, distance := Finite(d)))
  }

  lemma MarkKeepsOrder(cells: Cells, order: seq<Coord>, here: Coord, d: nat)
    requires Shaped(cells) && VisitOrder(cells, order) && OpenAndFinite(cells, order)
    requires InBounds(cells, here) && !At(cells, here).isVisited && !At(cells, here).isWall
    ensures here !in order
    ensures Shaped(Mark(cells, here, d)) && SameLayout(cells, Mark(cells, here, d))
    ensures VisitOrder(Mark(cells, here, d), order + [here])
    ensures OpenAndFinite(Mark(cells, here, d), order + [here])
  {
    var cells' := Mark(cells, here, d);
    var order' := order + [here];
    assert forall k :: 0 <= k < |order| ==> order[k] != here;
    forall k | 0 <= k < |order'| ensures InBounds(cells', order'[k]) && !At(cells', order'[k]).isWall && At(cells', order'[k]).distance.Finite? {
      if k < |order| { assert order'[k] == order[k]; }
    }
  }

  lemma MarkKeepsLinks(cells: Cells, order: seq<Coord>, here: Coord, d: nat)
    requires InBounds(cells, here) && here !in order && LinksSound(cells, order)
    ensures LinksSound(Mark(cells, here, d), order + [here])
  {
    var cells' := Mark(cells, here, d);
    var order' := order + [here];
    forall y ensures (y in order ==> Rank(order', y) == Rank(order, y)) && Rank(order', y) >= Rank(order, y) {
      RankAppend(order, here, y);
    }
    forall i, j | 0 <= i < |cells'| && 0 <= j < |cells'[i]| ensures LinkOk(cells', order', Coord(i, j)) {
      assert LinkOk(cells, order, Coord(i, j));
    }
  }

  lemma MarkKeepsRoots(cells: Cells, here: Coord, d: nat, start: Coord, sd: Distance)
    requires InBounds(cells, here) && Roots(cells, start, sd)
    requires At(cells, here).previousNode.None? ==> here == start && sd == Finite(d)
    ensures Roots(Mark(cells, here, d), start, sd)
  {
  }

  lemma MarkKeepsQueue(cells: Cells, q: seq<Entry>, here: Coord, d: nat)
    requires InBounds(cells, here) && QueueOk(cells, q)
    ensures QueueOk(Mark(cells, here, d), q)
  {
  }

  lemma MarkKeepsChain(cells: Cells, here: Coord, d: nat)
    requires InBounds(cells, here) && DistancesChained(cells)
    requires At(cells, here).distance == Finite(d) || Pristine(cells)
    ensures DistancesChained(Mark(cells, here, d))
  {
  }

  lemma MarkKeepsMonotone(cells: Cells, order: seq<Coord>, q: seq<Entry>, here: Coord, d: nat, floor: nat)
    requires InBounds(cells, here) && here !in order && Nondecreasing(cells, order)
    requires order != [] ==> DistAt(cells, order[|order| - 1]) == floor && floor <= d
    requires forall e :: e in q && e.Ref? && InBounds(cells, e.at) && e.at != here ==> DistAt(cells, e.at) >= d || At(cells, e.at).isVisited
    ensures Nondecreasing(Mark(cells, here, d), order + [here])
    ensures DistAt(Mark(cells, here, d), here) == d
    ensures FrontierAbove(Mark(cells, here, d), q, d)
  {
    var cells' := Mark(cells, here, d);
    var order' := order + [here];
    assert forall k :: 0 <= k < |order| ==> order[k] != here && DistAt(cells', order[k]) == DistAt(cells, order[k]);
    forall k, l | 0 <= k < l < |order'| ensures DistAt(cells', order'[k]) <= DistAt(cells', order'[l]) {
      if l == |order| {
        assert DistAt(cells, order[k]) <= DistAt(cells, order[|order| - 1]);
      }
    }
  }

  /** Marking the popped cell visited and appending it to the visit order. */
  lemma MarkStep(cells0: Cells, cells: Cells, order: seq<Coord>, q: seq<Entry>,
                 rule: Relaxation, start: Coord, target: Coord, floor: nat,
                 head: Entry, rest: seq<Entry>, here: Coord, d: nat)
    requires Good(cells0, cells, order, q, rule, start, target, floor)
    requires head in q && |rest| + 1 == |q| && EntryOk(cells, head)
    requires forall e :: e in rest ==> e in q && EntryOk(cells, e) && Le(Key(cells, head), Key(cells, e))
    requires InBounds(cells, here) && !At(cells, here).isVisited && !At(cells, here).isWall
    requires Key(cells, head) == Finite(d)
    requires head.Ref? ==> head.at == here && At(cells, here).previousNode.Some?
    requires head.Seed? ==> q == [head] && head == SeedEntry(cells0, rule, start, target) &&
                            here == start && order == [] && cells == cells0
    ensures here !in order
    ensures Good(cells0, Mark(cells, here, d), order + [here], rest, rule, start, target, d)
  {
    assert Unfold(0);
    var sd := SeedDistance(rule, start, target);
    MarkKeepsHistory(cells0, cells, order, here, d, start, sd);
    MarkKeepsPending(cells0, cells, order, q, rest, here, d, rule, start, target);
    if rule.UnitStep? {
      MarkKeepsDistances(cells, order, q, head, rest, here, d, target, floor);
    } else {
      assert d == SquaredDistance(here, target) by {
        if head.Ref? {
          assert cells[here.row][here.column].previousNode.Some?;
        }
      }
      MarkKeepsStraightLines(cells, here, d, target);
    }
  }

  lemma MarkKeepsHistory(cells0: Cells, cells: Cells, order: seq<Coord>, here: Coord, d: nat,
                         start: Coord, sd: Distance)
    requires Frame(cells0, cells, start) && History(cells, order, start, sd)
    requires InBounds(cells, here) && !At(cells, here).isVisited && !At(cells, here).isWall
    requires At(cells, here).previousNode.None? ==> here == start && sd == Finite(d)
    requires order == [] ==> here == start
    ensures here !in order
    ensures Frame(cells0, Mark(cells, here, d), start) && History(Mark(cells, here, d), order + [here], start, sd)
  {
    MarkKeepsOrder(cells, order, here, d);
    MarkKeepsLinks(cells, order, here, d);
    MarkKeepsRoots(cells, here, d, start, sd);
    assert SameLayout(cells0, Mark(cells, here, d));
  }

  lemma MarkKeepsPending(cells0: Cells, cells: Cells, order: seq<Coord>, q: seq<Entry>, rest: seq<Entry>,
                         here: Coord, d: nat, rule: Relaxation, start: Coord, target: Coord)
    requires Pending(cells0, cells, order, q, rule, start, target) && InBounds(cells, here)
    requires |rest| + 1 == |q| && forall e :: e in rest ==> e in q
    ensures Pending(cells0, Mark(cells, here, d), order + [here], rest, rule, start, target)
  {
    MarkKeepsQueue(cells, rest, here, d);
    if exists e :: e in q && e.Seed? {
      assert rest == [];
    }
  }

  lemma MarkKeepsDistances(cells: Cells, order: seq<Coord>, q: seq<Entry>, head: Entry, rest: seq<Entry>,
                           here: Coord, d: nat, target: Coord, floor: nat)
    requires Distances(cells, order, q, UnitStep, target, floor) && QueueOk(cells, q)
    requires InBounds(cells, here) && here !in order && !At(cells, here).isVisited
    requires At(cells, here).distance == Finite(d) || (order == [] && Pristine(cells))
    requires head in q && EntryOk(cells, head) && Key(cells, head) == Finite(d)
    requires head.Ref? ==> head.at == here
    requires order != [] ==> head.Ref?
    requires forall e :: e in rest ==> e in q && EntryOk(cells, e) && Le(Key(cells, head), Key(cells, e))
    ensures Distances(Mark(cells, here, d), order + [here], rest, UnitStep, target, d)
  {
    MarkKeepsChain(cells, here, d);
    if order != [] {
      assert DistAt(cells, here) >= floor;
    }
    forall e | e in rest && e.Ref? && InBounds(cells, e.at) && e.at != here
      ensures DistAt(cells, e.at) >= d || At(cells, e.at).isVisited
    {
      assert Le(Key(cells, head), Key(cells, e));
    }
    MarkKeepsMonotone(cells, order, rest, here, d, floor);
  }

  /** A*: the cell marked visited receives its own straight-line distance. */
  lemma MarkKeepsStraightLines(cells: Cells, here: Coord, d: nat, target: Coord)
    requires InBounds(cells, here) && StraightLineDistances(cells, target)
    requires d == SquaredDistance(here, target)
    ensures StraightLineDistances(Mark(cells, here, d), target)
  {
  }

  /** The neighbours relaxed from `here`: inside the grid, adjacent to it, not visited, not walls. */
  ghost predicate NeighborsOk(cells: Cells, here: Coord, ns: seq<Coord>)
  {
    forall c :: c in ns ==>
      InBounds(cells, c) && Adjacent(here, c) && !At(cells, c).isVisited && !At(cells, c).isWall
  }

  /** `getUnvisitedNeighbors` followed by the filter that drops walls. */
  function OpenNeighbors(cells: Cells, here: Coord): seq<Coord>
    requires Shaped(cells) && InBounds(cells, here)
  {
    Filter(UnvisitedNeighbors(cells, here), UnwalledIn(cells))
  }

  lemma NeighborsAreOk(cells: Cells, here: Coord)
    requires Shaped(cells) && InBounds(cells, here)
    ensures NeighborsOk(cells, here, OpenNeighbors(cells, here))
    ensures forall k :: 0 <= k < |OpenNeighbors(cells, here)| ==> InBounds(cells, OpenNeighbors(cells, here)[k])
  {
    var ns := UnvisitedNeighbors(cells, here);
    forall c | c in ns ensures InBounds(cells, c) && Adjacent(here, c) && !At(cells, c).isVisited {
      var k :| 0 <= k < |ns| && ns[k] == c;
    }
  }

  lemma RelaxKeepsCells(cells: Cells, cells': Cells, order: seq<Coord>, ns: seq<Coord>, fromId: string,
                        fromDist: nat, rule: Relaxation, target: Coord, start: Coord, sd: Distance)
    requires Shaped(cells) && VisitOrder(cells, order) && OpenAndFinite(cells, order) && Roots(cells, start, sd)
    requires Relaxed(cells, cells', ns, fromId, fromDist, rule, target)
    requires forall c :: c in ns ==> InBounds(cells, c) && !At(cells, c).isVisited
    ensures Shaped(cells') && SameLayout(cells, cells')
    ensures VisitOrder(cells', order) && OpenAndFinite(cells', order) && Roots(cells', start, sd)
    ensures forall k :: 0 <= k < |order| ==> At(cells', order[k]) == At(cells, order[k])
  {
    forall k | 0 <= k < |order| ensures At(cells', order[k]) == At(cells, order[k]) {
      assert InBounds(cells, order[k]) && At(cells, order[k]).isVisited;
    }
  }

  lemma RelaxKeepsLinks(cells: Cells, cells': Cells, order: seq<Coord>, here: Coord, ns: seq<Coord>,
                        fromDist: nat, rule: Relaxation, target: Coord)
    requires VisitOrder(cells, order) && LinksSound(cells, order)
    requires order != [] && here == order[|order| - 1]
    requires Relaxed(cells, cells', ns, IdOf(here.row, here.column), fromDist, rule, target)
    requires NeighborsOk(cells, here, ns)
    ensures LinksSound(cells', order)
  {
    LinkOfId(here);
    IndexOfUnique(order, here, |order| - 1);
    forall i, j | 0 <= i < |cells'| && 0 <= j < |cells'[i]| ensures LinkOk(cells', order, Coord(i, j)) {
      var c := Coord(i, j);
      if c in ns {
        assert c !in order;
      } else {
        assert LinkOk(cells, order, c);
      }
    }
  }

  lemma RelaxKeepsQueue(cells: Cells, cells': Cells, q: seq<Entry>, ns: seq<Coord>, fromId: string,
                        fromDist: nat, rule: Relaxation, target: Coord)
    requires QueueOk(cells, q) && (forall c :: c in ns ==> InBounds(cells, c))
    requires Relaxed(cells, cells', ns, fromId, fromDist, rule, target)
    ensures QueueOk(cells', q + RefsTo(ns))
  {
    forall e | e in q + RefsTo(ns) && e.Ref?
      ensures InBounds(cells', e.at) && At(cells', e.at).distance.Finite? && At(cells', e.at).previousNode.Some?
    {
      if e !in q {
        var k :| 0 <= k < |RefsTo(ns)| && RefsTo(ns)[k] == e;
        assert e.at == ns[k] && e.at in ns;
      }
    }
  }

  lemma RelaxKeepsChain(cells: Cells, cells': Cells, order: seq<Coord>, here: Coord, ns: seq<Coord>, d: nat,
                        target: Coord)
    requires VisitOrder(cells, order) && LinksSound(cells, order) && DistancesChained(cells)
    requires InBounds(cells, here) && here in order && At(cells, here).distance == Finite(d)
    requires Relaxed(cells, cells', ns, IdOf(here.row, here.column), d, UnitStep, target)
    requires NeighborsOk(cells, here, ns)
    ensures DistancesChained(cells')
  {
    LinkOfId(here);
    forall i, j | 0 <= i < |cells'| && 0 <= j < |cells'[i]| && cells'[i][j].previousNode.Some? &&
                  LinkOf(cells'[i][j].previousNode.value).Some?
      ensures var p := LinkOf(cells'[i][j].previousNode.value).value;
        cells'[i][j].distance.Finite? && InBounds(cells', p) && At(cells', p).distance.Finite? &&
        cells'[i][j].distance.value == At(cells', p).distance.value + 1
    {
      var c := Coord(i, j);
      if c !in ns {
        assert LinkOk(cells, order, c);
        var p := LinkOf(cells[i][j].previousNode.value).value;
        assert p in order && At(cells, p).isVisited;
        assert p !in ns;
      }
    }
  }

  lemma RelaxKeepsFrontier(cells: Cells, cells': Cells, order: seq<Coord>, q: seq<Entry>, here: Coord,
                           ns: seq<Coord>, d: nat, target: Coord)
    requires VisitOrder(cells, order) && Nondecreasing(cells, order) && FrontierAbove(cells, q, d)
    requires order != [] && DistAt(cells, order[|order| - 1]) == d
    requires Relaxed(cells, cells', ns, IdOf(here.row, here.column), d, UnitStep, target)
    requires forall c :: c in ns ==> InBounds(cells, c) && !At(cells, c).isVisited
    ensures Nondecreasing(cells', order) && DistAt(cells', order[|order| - 1]) == d
    ensures FrontierAbove(cells', q + RefsTo(ns), d)
  {
    assert forall k :: 0 <= k < |order| ==> order[k] !in ns && DistAt(cells', order[k]) == DistAt(cells, order[k]);
    forall e | e in q + RefsTo(ns) && e.Ref? && InBounds(cells', e.at) && !At(cells', e.at).isVisited
      ensures DistAt(cells', e.at) >= d
    {
      if e !in q {
        var k :| 0 <= k < |RefsTo(ns)| && RefsTo(ns)[k] == e;
        assert e.at == ns[k] && e.at in ns;
      }
    }
  }

  /** A*: each relaxed neighbour receives its own straight-line distance to the target. */
  lemma RelaxKeepsStraightLines(cells: Cells, cells': Cells, ns: seq<Coord>, fromId: string, fromDist: nat,
                                target: Coord)
    requires StraightLineDistances(cells, target)
    requires Relaxed(cells, cells', ns, fromId, fromDist, StraightLine, target)
    ensures StraightLineDistances(cells', target)
  {
  }

  /** Relaxing the neighbours of the cell just visited and queueing references to them. */
  lemma RelaxStep(cells0: Cells, cells: Cells, cells': Cells, order: seq<Coord>, q: seq<Entry>,
                  rule: Relaxation, start: Coord, target: Coord, here: Coord, d: nat, ns: seq<Coord>)
    requires Good(cells0, cells, order, q, rule, start, target, d)
    requires order != [] && here == order[|order| - 1]
    requires InBounds(cells, here) && At(cells, here).distance == Finite(d)
    requires NeighborsOk(cells, here, ns)
    requires Relaxed(cells, cells', ns, IdOf(here.row, here.column), d, rule, target)
    ensures Good(cells0, cells', order, q + RefsTo(ns), rule, start, target, d)
  {
    assert Unfold(0);
    RelaxKeepsInvariant(cells0, cells, cells', order, q, rule, start, target, here, d, ns);
  }

  lemma RelaxKeepsInvariant(cells0: Cells, cells: Cells, cells': Cells, order: seq<Coord>, q: seq<Entry>,
                  rule: Relaxation, start: Coord, target: Coord, here: Coord, d: nat, ns: seq<Coord>)
    requires Invariant(cells0, cells, order, q, rule, start, target, d)
    requires order != [] && here == order[|order| - 1] && At(cells, here).distance == Finite(d)
    requires NeighborsOk(cells, here, ns)
    requires Relaxed(cells, cells', ns, IdOf(here.row, here.column), d, rule, target)
    ensures Invariant(cells0, cells', order, q + RefsTo(ns), rule, start, target, d)
  {
    RelaxKeepsCells(cells, cells', order, ns, IdOf(here.row, here.column), d, rule, target, start,
                    SeedDistance(rule, start, target));
    RelaxKeepsLinks(cells, cells', order, here, ns, d, rule, target);
    RelaxKeepsQueue(cells, cells', q, ns, IdOf(here.row, here.column), d, rule, target);
    if rule.UnitStep? {
      RelaxKeepsChain(cells, cells', order, here, ns, d, target);
      RelaxKeepsFrontier(cells, cells', order, q, here, ns, d, target);
    } else {
      RelaxKeepsStraightLines(cells, cells', ns, IdOf(here.row, here.column), d, target);
    }
    assert SameLayout(cells0, cells');
    assert forall e :: e in q + RefsTo(ns) ==> e.Ref?;
  }

  // ---------------------------------------------------------------------------
  // What one round does, and what it keeps

  /**
   * One pass of the loop body after the budget check, as a relation between
   * the state before it and the state after: sort the pending array and shift
   * its head; drop it when its grid cell is visited or it is a wall; otherwise
   * mark the grid cell visited at the head's distance, which is finite, append
   * it to the visit order, and stop if it is the target, or else relax its
   * unvisited, unwalled neighbours and queue references to them.
   */
  ghost predicate RoundStep(cells: Cells, order: seq<Coord>, q: seq<Entry>, rule: Relaxation, target: Coord,
                            cells': Cells, order': seq<Coord>, q': seq<Entry>, stop: bool)
  {
    AllOk(cells, q) && q != [] &&
    var sorted := SortByDistance(cells, q);
    var closest := View(cells, sorted[0]);
    var here := PositionOf(closest);
    InBounds(cells, here) && closest.distance.Finite? &&
    if At(cells, here).isVisited || closest.isWall then
      !stop && order' == order && q' == sorted[1..] && cells' == cells
    else
      var marked := Mark(cells, here, closest.distance.value);
      order' == order + [here] && (stop <==> here == target) &&
      Shaped(marked) && InBounds(marked, here) &&
      if stop then
        cells' == marked && q' == sorted[1..]
      else
        var ns := OpenNeighbors(marked, here);
        q' == sorted[1..] + RefsTo(ns) && Relaxed(marked, cells', ns, closest.id, closest.distance.value, rule, target)
  }

  /** `RoundStep`, kept behind the trigger `Unfold` like `Good`, so that the search loop does not expand it. */
  ghost predicate Stepped(cells: Cells, order: seq<Coord>, q: seq<Entry>, rule: Relaxation, target: Coord,
                          cells': Cells, order': seq<Coord>, q': seq<Entry>, stop: bool)
  {
    forall n {:trigger Unfold(n)} :: Unfold(n) ==> RoundStep(cells, order, q, rule, target, cells', order', q', stop)
  }

  /** Every in-grid neighbour of `c` that is not a wall is visited or linked to a predecessor. */
  ghost predicate Surrounded(cells: Cells, c: Coord)
  {
    forall n :: InBounds(cells, n) && Adjacent(c, n) && !At(cells, n).isWall ==>
      At(cells, n).isVisited || At(cells, n).previousNode.Some?
  }

  /** Every visited cell but the target has had its neighbours relaxed. */
  ghost predicate Closed(cells: Cells, order: seq<Coord>, target: Coord)
  {
    forall c :: c in order && c != target ==> Surrounded(cells, c)
  }

  /** A cell reached through a link that is neither visited nor a wall: it still has to be expanded. */
  ghost predicate Waiting(cells: Cells, c: Coord)
  {
    InBounds(cells, c) && At(cells, c).previousNode.Some? && !At(cells, c).isVisited && !At(cells, c).isWall
  }

  /** Every waiting cell still has a reference pending. */
  ghost predicate Queued(cells: Cells, q: seq<Entry>)
  {
    forall c :: Waiting(cells, c) ==> Ref(c) in q
  }

  /** Marking a cell visited unlinks nothing and makes nothing a wall. */
  lemma MarkKeepsClosed(cells: Cells, order: seq<Coord>, here: Coord, d: nat, target: Coord)
    requires InBounds(cells, here) && Closed(cells, order, target)
    ensures Closed(Mark(cells, here, d), order, target)
  {
    var marked := Mark(cells, here, d);
    forall c | c in order && c != target ensures Surrounded(marked, c) {
      assert Surrounded(cells, c);
    }
  }

  /** Relaxing links cells and changes no visited flag and no wall. */
  lemma RelaxKeepsClosed(before: Cells, after: Cells, order: seq<Coord>, ns: seq<Coord>, fromId: string,
                         fromDist: nat, rule: Relaxation, target: Coord)
    requires Relaxed(before, after, ns, fromId, fromDist, rule, target) && Closed(before, order, target)
    ensures Closed(after, order, target)
  {
    forall c | c in order && c != target ensures Surrounded(after, c) {
      assert Surrounded(before, c);
    }
  }

  /** After its open neighbours are relaxed, every open neighbour of `here` is visited or linked. */
  lemma RelaxSurrounds(cells: Cells, after: Cells, here: Coord, fromId: string, fromDist: nat,
                       rule: Relaxation, target: Coord)
    requires Shaped(cells) && InBounds(cells, here)
    requires Relaxed(cells, after, OpenNeighbors(cells, here), fromId, fromDist, rule, target)
    ensures Surrounded(after, here)
  {
    var ns := OpenNeighbors(cells, here);
    forall n | InBounds(after, n) && Adjacent(here, n) && !At(after, n).isWall
      ensures At(after, n).isVisited || At(after, n).previousNode.Some?
    {
      assert InBounds(cells, n);
      if !At(cells, n).isVisited {
        assert n in UnvisitedNeighbors(cells, here);
        assert UnwalledIn(cells)(n);
      }
    }
  }

  /** A round leaves every visited cell but the target with its open neighbours reached. */
  lemma RoundKeepsClosed(cells: Cells, order: seq<Coord>, q: seq<Entry>, rule: Relaxation, target: Coord,
                         cells': Cells, order': seq<Coord>, q': seq<Entry>, stop: bool)
    requires Shaped(cells) && RoundStep(cells, order, q, rule, target, cells', order', q', stop)
    requires Closed(cells, order, target)
    ensures Closed(cells', order', target)
  {
    var sorted := SortByDistance(cells, q);
    var closest := View(cells, sorted[0]);
    var here := PositionOf(closest);
    if !At(cells, here).isVisited && !closest.isWall {
      var d := closest.distance.value;
      var marked := Mark(cells, here, d);
      MarkKeepsClosed(cells, order, here, d, target);
      if !stop {
        var ns := OpenNeighbors(marked, here);
        RelaxKeepsClosed(marked, cells', order, ns, closest.id, d, rule, target);
        RelaxSurrounds(marked, cells', here, closest.id, d, rule, target);
      }
    }
  }

  /** Shifting the head of the sorted pending array keeps every other entry. */
  lemma ShiftKeeps(cells: Cells, q: seq<Entry>, e: Entry)
    requires AllOk(cells, q) && e in q && e != SortByDistance(cells, q)[0]
    ensures e in SortByDistance(cells, q)[1..]
  {
    var sorted := SortByDistance(cells, q);
    SortByDistancePermutes(cells, q);
    assert e in multiset(sorted);
    assert sorted == [sorted[0]] + sorted[1..];
  }

  /** A cell waiting after `here` is marked visited was waiting before, and is not `here`. */
  lemma MarkWaiting(cells: Cells, here: Coord, d: nat, c: Coord)
    requires InBounds(cells, here) && Waiting(Mark(cells, here, d), c)
    ensures c != here && Waiting(cells, c)
  {
  }

  /** A cell waiting after a relaxation that did not touch it was waiting before. */
  lemma RelaxWaiting(before: Cells, after: Cells, ns: seq<Coord>, fromId: string, fromDist: nat,
                     rule: Relaxation, target: Coord, c: Coord)
    requires Relaxed(before, after, ns, fromId, fromDist, rule, target) && Waiting(after, c) && c !in ns
    ensures Waiting(before, c)
  {
    assert after[c.row][c.column] == before[c.row][c.column];
  }

  lemma RefsToHas(ns: seq<Coord>, c: Coord)
    requires c in ns
    ensures Ref(c) in RefsTo(ns)
  {
    var k :| 0 <= k < |ns| && ns[k] == c;
    assert RefsTo(ns)[k] == Ref(c);
  }

  /** A round leaves a reference pending to every waiting cell. */
  lemma RoundKeepsQueued(cells: Cells, order: seq<Coord>, q: seq<Entry>, rule: Relaxation, target: Coord,
                         cells': Cells, order': seq<Coord>, q': seq<Entry>, stop: bool)
    requires Shaped(cells) && RoundStep(cells, order, q, rule, target, cells', order', q', stop)
    requires Queued(cells, q)
    ensures Queued(cells', q')
  {
    var sorted := SortByDistance(cells, q);
    var head := sorted[0];
    var closest := View(cells, head);
    var here := PositionOf(closest);
    if At(cells, here).isVisited || closest.isWall {
      forall c | Waiting(cells', c) ensures Ref(c) in q' {
        ShiftKeeps(cells, q, Ref(c));
      }
    } else {
      var d := closest.distance.value;
      var marked := Mark(cells, here, d);
      var ns := if stop then [] else OpenNeighbors(marked, here);
      forall c | Waiting(cells', c) ensures Ref(c) in q' {
        if c in ns {
          RefsToHas(ns, c);
        } else {
          if !stop {
            RelaxWaiting(marked, cells', ns, closest.id, d, rule, target, c);
          }
          MarkWaiting(cells, here, d, c);
          assert head != Ref(c);
          ShiftKeeps(cells, q, Ref(c));
        }
      }
    }
  }

  // ---------------------------------------------------------------------------
  // Dijkstra explores the grid in layers

  /** Visited, or linked to a predecessor: the cell has been given a distance. */
  ghost predicate Reached(cells: Cells, c: Coord)
  {
    InBounds(cells, c) && (At(cells, c).isVisited || At(cells, c).previousNode.Some?)
  }

  /**
   * The distance at `c` has the parity of the number of steps between `start`
   * and `c`: a step to an adjacent position changes `row + column` by one.
   */
  ghost predicate EvenFrom(cells: Cells, start: Coord, c: Coord)
  {
    (DistAt(cells, c) + c.row + c.column + start.row + start.column) % 2 == 0
  }

  /** Every reached cell has a distance of the parity of its grid distance from the start. */
  ghost predicate Alternating(cells: Cells, start: Coord)
  {
    forall c :: Reached(cells, c) ==> EvenFrom(cells, start, c)
  }

  /** Every waiting cell is at the distance of the last visited cell or one more. */
  ghost predicate Banded(cells: Cells, order: seq<Coord>)
  {
    order != [] ==>
      forall c :: Waiting(cells, c) ==>
        DistAt(cells, order[|order| - 1]) <= DistAt(cells, c) <= DistAt(cells, order[|order| - 1]) + 1
  }

  /** Every open neighbour of a visited cell other than the target is at most one step farther. */
  ghost predicate StepBounded(cells: Cells, order: seq<Coord>, target: Coord)
  {
    forall c, n :: c in order && c != target && InBounds(cells, n) && Adjacent(c, n) && !At(cells, n).isWall ==>
      DistAt(cells, n) <= DistAt(cells, c) + 1
  }

  /** Dijkstra: the search reaches the grid in layers of equal distance, as a breadth-first search does. */
  ghost predicate Layered(cells: Cells, order: seq<Coord>, start: Coord, target: Coord)
  {
    Alternating(cells, start) && Banded(cells, order) && StepBounded(cells, order, target)
  }

  /** One step to an adjacent position keeps the parity relation when the distance grows by one. */
  lemma ParityStep(a: Coord, b: Coord, start: Coord, x: nat)
    requires Adjacent(a, b) && (x + a.row + a.column + start.row + start.column) % 2 == 0
    ensures (x + 1 + b.row + b.column + start.row + start.column) % 2 == 0
  {
    if a.row == b.row {
      assert b.column == a.column + 1 || a.column == b.column + 1;
    } else {
      assert b.row == a.row + 1 || a.row == b.row + 1;
    }
  }

  /**
   * Marking `here` visited at distance `d`, the distance it was reached at
   * (0 for the start in the first round), keeps the layers, with `here` as the
   * last visited cell; its own neighbours are the relaxation's business.
   */
  lemma MarkKeepsLayers(cells: Cells, order: seq<Coord>, here: Coord, d: nat, start: Coord, target: Coord)
    requires InBounds(cells, here) && here !in order && !At(cells, here).isVisited
    requires Alternating(cells, start) && StepBounded(cells, order, target)
    requires order == [] ==> here == start && d == 0
    requires order != [] ==> Reached(cells, here) && DistAt(cells, here) == d
    requires forall c :: Waiting(cells, c) && c != here ==> d <= DistAt(cells, c) <= d + 1
    ensures var marked := Mark(cells, here, d);
      Alternating(marked, start) && Banded(marked, order + [here]) && StepBounded(marked, order, target) &&
      (here == target ==> StepBounded(marked, order + [here], target))
  {
    var marked := Mark(cells, here, d);
    forall c | Reached(marked, c) ensures EvenFrom(marked, start, c) {
      if c != here {
        assert Reached(cells, c);
      }
    }
    forall c | Waiting(marked, c) ensures d <= DistAt(marked, c) <= d + 1 {
      MarkWaiting(cells, here, d, c);
    }
    forall c, n | c in order && c != target && InBounds(marked, n) && Adjacent(c, n) && !At(marked, n).isWall
      ensures DistAt(marked, n) <= DistAt(marked, c) + 1
    {
      assert c != here;
      assert DistAt(cells, n) <= DistAt(cells, c) + 1;
    }
  }

  /** A relaxed neighbour gets one more than `here`, so the parity relation carries over. */
  lemma RelaxKeepsAlternating(marked: Cells, after: Cells, ns: seq<Coord>, here: Coord, d: nat, fromId: string,
                              start: Coord, target: Coord)
    requires InBounds(marked, here) && At(marked, here).isVisited && DistAt(marked, here) == d
    requires forall c :: c in ns ==> Adjacent(here, c)
    requires Alternating(marked, start)
    requires Relaxed(marked, after, ns, fromId, d, UnitStep, target)
    ensures Alternating(after, start)
  {
    assert Reached(marked, here);
    forall c | Reached(after, c) ensures EvenFrom(after, start, c) {
      if c in ns {
        ParityStep(here, c, start, d);
      } else {
        assert Reached(marked, c);
      }
    }
  }

  /** Relaxed neighbours wait at `d + 1`, one beyond `here`, the last visited cell. */
  lemma RelaxKeepsBanded(marked: Cells, after: Cells, order: seq<Coord>, ns: seq<Coord>, here: Coord, d: nat,
                         fromId: string, target: Coord)
    requires InBounds(marked, here) && DistAt(marked, here) == d && here !in ns
    requires Banded(marked, order + [here])
    requires Relaxed(marked, after, ns, fromId, d, UnitStep, target)
    ensures Banded(after, order + [here])
  {
    var order' := order + [here];
    assert order'[|order'| - 1] == here;
    forall c | Waiting(after, c) ensures d <= DistAt(after, c) <= d + 1 {
      if c !in ns {
        RelaxWaiting(marked, after, ns, fromId, d, UnitStep, target, c);
      }
    }
  }

  /** After its open neighbours are relaxed, `here` has each open neighbour at most one step farther. */
  lemma HereBoundsNeighbor(marked: Cells, after: Cells, order: seq<Coord>, here: Coord, d: nat, fromId: string,
                           target: Coord, n: Coord)
    requires Shaped(marked) && InBounds(marked, here) && At(marked, here).isVisited && DistAt(marked, here) == d
    requires VisitOrder(marked, order + [here])
    requires forall k :: 0 <= k < |order| + 1 ==> DistAt(marked, (order + [here])[k]) <= d
    requires Relaxed(marked, after, OpenNeighbors(marked, here), fromId, d, UnitStep, target)
    requires InBounds(after, n) && Adjacent(here, n) && !At(after, n).isWall
    ensures DistAt(after, n) <= DistAt(after, here) + 1
  {
    var ns := OpenNeighbors(marked, here);
    var order' := order + [here];
    NeighborsAreOk(marked, here);
    assert here !in ns;
    if n !in ns {
      assert At(marked, n).isVisited;
      var k :| 0 <= k < |order'| && order'[k] == n;
    }
  }

  /**
   * A waiting neighbour of the last visited cell lies on the next layer: it
   * is within one of `d`, and adjacency gives it the other parity.
   */
  lemma NextLayer(cells: Cells, order: seq<Coord>, here: Coord, d: nat, start: Coord, n: Coord)
    requires order != [] && order[|order| - 1] == here && Reached(cells, here) && DistAt(cells, here) == d
    requires Alternating(cells, start) && Banded(cells, order) && Waiting(cells, n) && Adjacent(here, n)
    ensures DistAt(cells, n) == d + 1
  {
    assert EvenFrom(cells, start, here) && EvenFrom(cells, start, n);
    ParityStep(here, n, start, d);
  }

  /**
   * An earlier visited cell keeps its bound: a neighbour relaxed now is
   * waiting, so it was already at `d + 1`, within one step of the cell.
   */
  lemma EarlierBoundsNeighbor(marked: Cells, after: Cells, ns: seq<Coord>, order: seq<Coord>, here: Coord, d: nat,
                              fromId: string, start: Coord, target: Coord, c: Coord, n: Coord)
    requires InBounds(marked, here) && At(marked, here).isVisited && DistAt(marked, here) == d
    requires NeighborsOk(marked, here, ns) && Relaxed(marked, after, ns, fromId, d, UnitStep, target)
    requires Alternating(marked, start) && Banded(marked, order + [here]) && StepBounded(marked, order, target)
    requires c in order && c != target && Surrounded(marked, c) && InBounds(marked, c) && At(marked, c).isVisited
    requires InBounds(after, n) && Adjacent(c, n) && !At(after, n).isWall
    ensures DistAt(after, n) <= DistAt(after, c) + 1
  {
    assert c !in ns;
    if n in ns {
      assert DistAt(marked, n) <= DistAt(marked, c) + 1;
      NextLayer(marked, order + [here], here, d, start, n);
    }
  }

  /** After the relaxation every visited cell but the target has its open neighbours within one step. */
  lemma RelaxKeepsStepBounded(marked: Cells, after: Cells, order: seq<Coord>, here: Coord, d: nat, fromId: string,
                              start: Coord, target: Coord)
    requires Shaped(marked) && InBounds(marked, here) && At(marked, here).isVisited && DistAt(marked, here) == d
    requires VisitOrder(marked, order + [here])
    requires forall k :: 0 <= k < |order| + 1 ==> DistAt(marked, (order + [here])[k]) <= d
    requires Alternating(marked, start) && Banded(marked, order + [here]) && StepBounded(marked, order, target)
    requires Closed(marked, order, target)
    requires Relaxed(marked, after, OpenNeighbors(marked, here), fromId, d, UnitStep, target)
    ensures StepBounded(after, order + [here], target)
  {
    var ns := OpenNeighbors(marked, here);
    NeighborsAreOk(marked, here);
    forall c, n | c in order + [here] && c != target && InBounds(after, n) && Adjacent(c, n) && !At(after, n).isWall
      ensures DistAt(after, n) <= DistAt(after, c) + 1
    {
      if c == here {
        HereBoundsNeighbor(marked, after, order, here, d, fromId, target, n);
      } else {
        assert InBounds(marked, c) && At(marked, c).isVisited && Surrounded(marked, c);
        EarlierBoundsNeighbor(marked, after, ns, order, here, d, fromId, start, target, c, n);
      }
    }
  }

  /** Relaxing the open neighbours of the last visited cell `here` keeps the layers. */
  lemma RelaxKeepsLayers(marked: Cells, after: Cells, order: seq<Coord>, here: Coord, d: nat, fromId: string,
                         start: Coord, target: Coord)
    requires Shaped(marked) && InBounds(marked, here) && At(marked, here).isVisited && DistAt(marked, here) == d
    requires VisitOrder(marked, order + [here])
    requires forall k :: 0 <= k < |order| + 1 ==> DistAt(marked, (order + [here])[k]) <= d
    requires Alternating(marked, start) && Banded(marked, order + [here]) && StepBounded(marked, order, target)
    requires Closed(marked, order, target)
    requires Relaxed(marked, after, OpenNeighbors(marked, here), fromId, d, UnitStep, target)
    ensures Layered(after, order + [here], start, target)
  {
    var ns := OpenNeighbors(marked, here);
    NeighborsAreOk(marked, here);
    RelaxKeepsAlternating(marked, after, ns, here, d, fromId, start, target);
    RelaxKeepsBanded(marked, after, order, ns, here, d, fromId, target);
    RelaxKeepsStepBounded(marked, after, order, here, d, fromId, start, target);
  }

  /**
   * Dijkstra: a waiting cell other than the one popped is at the popped
   * distance or one more: the sort puts nothing nearer first, and the layers
   * put nothing farther than one past the last visited cell.
   */
  lemma WaitingNearHead(cells0: Cells, cells: Cells, order: seq<Coord>, q: seq<Entry>,
                        start: Coord, target: Coord, floor: nat, c: Coord)
    requires Invariant(cells0, cells, order, q, UnitStep, start, target, floor) && q != []
    requires Queued(cells, q) && Banded(cells, order)
    requires AllOk(cells, q) && Waiting(cells, c)
    ensures var head := SortByDistance(cells, q)[0];
      var closest := View(cells, head);
      var here := PositionOf(closest);
      InBounds(cells, here) && closest.distance.Finite? &&
      (!At(cells, here).isVisited && c != here ==>
        closest.distance.value <= DistAt(cells, c) <= closest.distance.value + 1)
  {
    var sorted := SortByDistance(cells, q);
    var head := sorted[0];
    GoodQueue(cells0, cells, order, q, UnitStep, start, target, floor);
    HeadFacts(cells0, cells, order, q, UnitStep, start, target);
    PopFacts(cells, q);
    assert order != [];
    var here := PositionOf(View(cells, head));
    if !At(cells, here).isVisited && c != here {
      assert head != Ref(c);
      ShiftKeeps(cells, q, Ref(c));
      assert head.Ref?;
      assert DistAt(cells, here) >= floor;
    }
  }

  /**
   * Dijkstra: marking `here` visited at `d` and, unless it is the target,
   * relaxing its open neighbours keeps the layers, when `here` was reached at
   * `d` (the start at 0 in round one), no visited cell is farther, and every
   * other waiting cell is at `d` or `d + 1`.
   */
  lemma ExpansionKeepsLayers(cells: Cells, order: seq<Coord>, here: Coord, d: nat, fromId: string,
                             start: Coord, target: Coord, cells': Cells, stop: bool)
    requires Shaped(cells) && InBounds(cells, here) && !At(cells, here).isVisited && !At(cells, here).isWall
    requires VisitOrder(cells, order) && OpenAndFinite(cells, order) && Closed(cells, order, target)
    requires Layered(cells, order, start, target) && Nondecreasing(cells, order)
    requires order == [] ==> here == start && d == 0
    requires order != [] ==> Reached(cells, here) && DistAt(cells, here) == d && DistAt(cells, order[|order| - 1]) <= d
    requires forall c :: Waiting(cells, c) && c != here ==> d <= DistAt(cells, c) <= d + 1
    requires stop ==> here == target && cells' == Mark(cells, here, d)
    requires !stop ==> (Shaped(Mark(cells, here, d)) &&
      Relaxed(Mark(cells, here, d), cells', OpenNeighbors(Mark(cells, here, d), here), fromId, d, UnitStep, target))
    ensures Layered(cells', order + [here], start, target)
  {
    MarkKeepsOrder(cells, order, here, d);
    MarkKeepsLayers(cells, order, here, d, start, target);
    var marked := Mark(cells, here, d);
    if !stop {
      MarkKeepsClosed(cells, order, here, d, target);
      forall k | 0 <= k < |order| + 1 ensures DistAt(marked, (order + [here])[k]) <= d {
        if k < |order| {
          assert DistAt(cells, order[k]) <= DistAt(cells, order[|order| - 1]);
        }
      }
      RelaxKeepsLayers(marked, cells', order, here, d, fromId, start, target);
    }
  }

  /**
   * Dijkstra: a round keeps the layers. A skipped entry changes nothing they
   * read; an expanded cell is the nearest pending one, so every other waiting
   * cell is at its distance or one more.
   */
  lemma ExpandKeepsLayers(cells0: Cells, cells: Cells, order: seq<Coord>, q: seq<Entry>,
                          start: Coord, target: Coord, floor: nat,
                          cells': Cells, order': seq<Coord>, q': seq<Entry>, stop: bool)
    requires Invariant(cells0, cells, order, q, UnitStep, start, target, floor)
    requires RoundStep(cells, order, q, UnitStep, target, cells', order', q', stop)
    requires Closed(cells, order, target) && Queued(cells, q) && Layered(cells, order, start, target)
    ensures Layered(cells', order', start, target)
  {
    var sorted := SortByDistance(cells, q);
    var head := sorted[0];
    var closest := View(cells, head);
    var here := PositionOf(closest);
    if At(cells, here).isVisited || closest.isWall {
      return;
    }
    var d := closest.distance.value;
    GoodQueue(cells0, cells, order, q, UnitStep, start, target, floor);
    HeadFacts(cells0, cells, order, q, UnitStep, start, target);
    forall c | Waiting(cells, c) && c != here ensures d <= DistAt(cells, c) <= d + 1 {
      WaitingNearHead(cells0, cells, order, q, start, target, floor, c);
    }
    assert order != [] ==> head.Ref? && DistAt(cells, here) >= floor;
    ExpansionKeepsLayers(cells, order, here, d, closest.id, start, target, cells', stop);
  }

  /** Dijkstra: every round keeps the layers. */
  lemma RoundKeepsLayers(cells0: Cells, cells: Cells, order: seq<Coord>, q: seq<Entry>,
                         start: Coord, target: Coord, floor: nat,
                         cells': Cells, order': seq<Coord>, q': seq<Entry>, stop: bool)
    requires Good(cells0, cells, order, q, UnitStep, start, target, floor)
    requires Stepped(cells, order, q, UnitStep, target, cells', order', q', stop)
    requires Closed(cells, order, target) && Queued(cells, q) && Layered(cells, order, start, target)
    ensures Layered(cells', order', start, target)
  {
    assert Unfold(0);
    ExpandKeepsLayers(cells0, cells, order, q, start, target, floor, cells', order', q', stop);
  }

  /**
   * What the search loop needs from a round on top of `Good`: at most one
   * cell is appended, the round stops exactly when that cell is the target,
   * and visited cells stay closed and waiting cells queued.
   */
  lemma RoundKeeps(cells: Cells, order: seq<Coord>, q: seq<Entry>, rule: Relaxation, target: Coord,
                   cells': Cells, order': seq<Coord>, q': seq<Entry>, stop: bool)
    requires Shaped(cells) && Stepped(cells, order, q, rule, target, cells', order', q', stop)
    requires target !in order && Closed(cells, order, target) && Queued(cells, q)
    ensures order <= order' && |order'| <= |order| + 1
    ensures stop <==> target in order'
    ensures target in order' ==> order'[|order'| - 1] == target
    ensures Closed(cells', order', target) && Queued(cells', q')
  {
    assert Unfold(0);
    RoundKeepsClosed(cells, order, q, rule, target, cells', order', q', stop);
    RoundKeepsQueued(cells, order, q, rule, target, cells', order', q', stop);
  }

  // ---------------------------------------------------------------------------
  // Runs: the sequence of states the search loop passes through

  /** The search between two rounds: the grid, the visit order and the pending array. */
  datatype State = State(cells: Cells, order: seq<Coord>, queue: seq<Entry>)

  /** The loop runs another round from `s`: the budget is not reached, something is pending, the target is not visited. */
  predicate Continues(s: State, target: Coord, maxWanted: Budget)
  {
    !Exhausted(maxWanted, |s.order|) && s.queue != [] && target !in s.order
  }

  /** Round `k` of `trace` runs from its state `k` and leads to state `k + 1`, stopping when it visits the target. */
  ghost predicate StepAt(trace: seq<State>, k: nat, rule: Relaxation, target: Coord, maxWanted: Budget)
    requires k + 1 < |trace|
  {
    Continues(trace[k], target, maxWanted) &&
    Stepped(trace[k].cells, trace[k].order, trace[k].queue, rule, target,
            trace[k + 1].cells, trace[k + 1].order, trace[k + 1].queue, target in trace[k + 1].order)
  }

  ghost predicate Steps(trace: seq<State>, rule: Relaxation, target: Coord, maxWanted: Budget)
  {
    forall k :: 0 <= k < |trace| - 1 ==> StepAt(trace, k, rule, target, maxWanted)
  }

  /**
   * `trace` runs from the first state of a search on the fresh grid `cells0`
   * (nothing visited, the start copy pending, or nothing pending when start
   * and target are one object) round by round to the state `cells`, `order`, `q`.
   */
  ghost predicate Traced(trace: seq<State>, cells0: Cells, rule: Relaxation, start: Coord, target: Coord,
                         maxWanted: Budget, sameObject: bool, cells: Cells, order: seq<Coord>, q: seq<Entry>)
  {
    InBounds(cells0, start) && trace != [] &&
    trace[0] == State(cells0, [], if sameObject then [] else [SeedEntry(cells0, rule, start, target)]) &&
    Steps(trace, rule, target, maxWanted) &&
    trace[|trace| - 1] == State(cells, order, q)
  }

  /**
   * `trace` is the whole run of `dijkstraOg` or `astar` on the fresh grid
   * `cells0`: it begins with nothing visited and the start copy pending (with
   * nothing pending when start and target are one object), takes one round
   * after another, and ends, in the state `cells`, `visited`, `queue`, as soon
   * as the loop does not continue.
   */
  ghost predicate IsRun(trace: seq<State>, cells0: Cells, rule: Relaxation, start: Coord, target: Coord,
                        maxWanted: Budget, sameObject: bool, cells: Cells, visited: seq<Coord>, queue: seq<Entry>)
  {
    Traced(trace, cells0, rule, start, target, maxWanted, sameObject, cells, visited, queue) &&
    !Continues(State(cells, visited, queue), target, maxWanted)
  }

  /** Relaxing the same neighbours from the same cell gives one grid only. */
  lemma RelaxedIsFunctional(before: Cells, a: Cells, b: Cells, ns: seq<Coord>, fromId: string, fromDist: nat,
                            rule: Relaxation, target: Coord)
    requires Relaxed(before, a, ns, fromId, fromDist, rule, target)
    requires Relaxed(before, b, ns, fromId, fromDist, rule, target)
    ensures a == b
  {
    forall i | 0 <= i < |before| ensures a[i] == b[i] {
      assert forall j :: 0 <= j < |before[i]| ==> a[i][j] == b[i][j];
    }
  }

  /** A round has one outcome: the state before it fixes the state after it and whether it stops. */
  lemma RoundStepIsFunctional(cells: Cells, order: seq<Coord>, q: seq<Entry>, rule: Relaxation, target: Coord,
                              cells1: Cells, order1: seq<Coord>, q1: seq<Entry>, stop1: bool,
                              cells2: Cells, order2: seq<Coord>, q2: seq<Entry>, stop2: bool)
    requires RoundStep(cells, order, q, rule, target, cells1, order1, q1, stop1)
    requires RoundStep(cells, order, q, rule, target, cells2, order2, q2, stop2)
    ensures cells1 == cells2 && order1 == order2 && q1 == q2 && stop1 == stop2
  {
    var sorted := SortByDistance(cells, q);
    var closest := View(cells, sorted[0]);
    var here := PositionOf(closest);
    if !At(cells, here).isVisited && !closest.isWall && !stop1 {
      var marked := Mark(cells, here, closest.distance.value);
      RelaxedIsFunctional(marked, cells1, cells2, OpenNeighbors(marked, here), closest.id,
                          closest.distance.value, rule, target);
    }
  }

  /** Every state of a run but the last continues. */
  lemma ContinuesBeforeEnd(trace: seq<State>, k: nat, rule: Relaxation, target: Coord, maxWanted: Budget)
    requires Steps(trace, rule, target, maxWanted) && k + 1 < |trace|
    ensures Continues(trace[k], target, maxWanted)
  {
    assert StepAt(trace, k, rule, target, maxWanted);
  }

  /** Two runs in the same state after `k` rounds are in the same state after `k + 1`. */
  lemma SameStep(t1: seq<State>, t2: seq<State>, k: nat, rule: Relaxation, target: Coord, maxWanted: Budget)
    requires k + 1 < |t1| && k + 1 < |t2| && t1[k] == t2[k]
    requires StepAt(t1, k, rule, target, maxWanted) && StepAt(t2, k, rule, target, maxWanted)
    ensures t1[k + 1] == t2[k + 1]
  {
    assert Unfold(0);
    RoundStepIsFunctional(t1[k].cells, t1[k].order, t1[k].queue, rule, target,
                          t1[k + 1].cells, t1[k + 1].order, t1[k + 1].queue, target in t1[k + 1].order,
                          t2[k + 1].cells, t2[k + 1].order, t2[k + 1].queue, target in t2[k + 1].order);
  }

  /**
   * A run is determined by its inputs: two runs from the same grid with the
   * same strategy, start, target and budget pass through the same states, so
   * they visit the same cells in the same order and leave the same grid and
   * pending array.
   */
  lemma RunIsUnique(cells0: Cells, rule: Relaxation, start: Coord, target: Coord, maxWanted: Budget, sameObject: bool,
                    t1: seq<State>, cells1: Cells, visited1: seq<Coord>, queue1: seq<Entry>,
                    t2: seq<State>, cells2: Cells, visited2: seq<Coord>, queue2: seq<Entry>)
    requires IsRun(t1, cells0, rule, start, target, maxWanted, sameObject, cells1, visited1, queue1)
    requires IsRun(t2, cells0, rule, start, target, maxWanted, sameObject, cells2, visited2, queue2)
    ensures t1 == t2
    ensures cells1 == cells2 && visited1 == visited2 && queue1 == queue2
  {
    var n := if |t1| < |t2| then |t1| else |t2|;
    var k := 0;
    while k < n - 1
      invariant 0 <= k < n
      invariant forall i :: 0 <= i <= k ==> t1[i] == t2[i]
    {
      assert StepAt(t1, k, rule, target, maxWanted) && StepAt(t2, k, rule, target, maxWanted);
      SameStep(t1, t2, k, rule, target, maxWanted);
      k := k + 1;
    }
    if |t1| < |t2| {
      ContinuesBeforeEnd(t2, n - 1, rule, target, maxWanted);
      assert false;
    } else if |t2| < |t1| {
      ContinuesBeforeEnd(t1, n - 1, rule, target, maxWanted);
      assert false;
    }
  }

  /** Before the first round a run is its first state alone. */
  lemma RunStarts(cells0: Cells, rule: Relaxation, start: Coord, target: Coord, maxWanted: Budget, sameObject: bool)
    requires InBounds(cells0, start)
    ensures var q := if sameObject then [] else [SeedEntry(cells0, rule, start, target)];
      Traced([State(cells0, [], q)], cells0, rule, start, target, maxWanted, sameObject, cells0, [], q)
  {
  }

  /** A run that continues from its last state is extended by the round taken there. */
  lemma StepsExtend(trace: seq<State>, cells0: Cells, rule: Relaxation, start: Coord, target: Coord,
                    maxWanted: Budget, cells: Cells, order: seq<Coord>, q: seq<Entry>,
                    cells': Cells, order': seq<Coord>, q': seq<Entry>, stop: bool)
    requires Traced(trace, cells0, rule, start, target, maxWanted, false, cells, order, q)
    requires Continues(State(cells, order, q), target, maxWanted)
    requires Stepped(cells, order, q, rule, target, cells', order', q', stop)
    requires stop <==> target in order'
    ensures Traced(trace + [State(cells', order', q')], cells0, rule, start, target, maxWanted, false, cells', order', q')
  {
    var next := State(cells', order', q');
    var t := trace + [next];
    forall k | 0 <= k < |t| - 1 ensures StepAt(t, k, rule, target, maxWanted) {
      if k < |trace| - 1 {
        assert StepAt(trace, k, rule, target, maxWanted);
        assert t[k] == trace[k] && t[k + 1] == trace[k + 1];
      }
    }
  }

  // ---------------------------------------------------------------------------
  // The search

  /** What a finished run guarantees about the grid, the visit order and the queue it returns. */
  ghost predicate Outcome(cells0: Cells, cells: Cells, visited: seq<Coord>, queue: seq<Entry>,
                          rule: Relaxation, start: Coord, target: Coord, maxWanted: Budget, sameObject: bool)
  {
    InBounds(cells0, start) && InBounds(cells, start) &&
    // the grid keeps its dimensions, identities, walls, start and finish
    Shaped(cells) && SameLayout(cells0, cells) &&
    // every visited cell is listed exactly once, in visiting order; none is a wall
    VisitOrder(cells, visited) && OpenAndFinite(cells, visited) &&
    // the budget bounds the visit order
    (maxWanted.AtMost? ==> |visited| <= maxWanted.limit) &&
    // nothing is expanded after the target
    (target in visited ==> visited[|visited| - 1] == target) &&
    // the start is visited first, at the seed distance
    (visited != [] ==> visited[0] == start && At(cells, start).distance == SeedDistance(rule, start, target)) &&
    // predecessor links point at adjacent cells visited earlier; only the start has none
    LinksSound(cells, visited) && Roots(cells, start, SeedDistance(rule, start, target)) &&
    // every queued entry has a finite distance
    AllOk(cells, queue) && (forall e :: e in queue ==> Key(cells, e).Finite?) &&
    // Dijkstra: distance grows by one along each link and never falls along the visit order
    (rule.UnitStep? ==> DistancesChained(cells) && Nondecreasing(cells, visited)) &&
    // A*: every visited or linked cell holds its squared straight-line distance to the target
    (rule.StraightLine? ==> StraightLineDistances(cells, target)) &&
    // every visited cell but the target has had its open neighbours reached,
    // and every reached cell that is neither visited nor a wall is still pending
    Closed(cells, visited, target) && Queued(cells, queue) &&
    // Dijkstra: reached cells lie in layers one step apart, as in a breadth-first search
    (rule.UnitStep? ==> Layered(cells, visited, start, target)) &&
    // the loop ended because the pending array emptied, the budget ran out or the target was visited
    (sameObject || queue == [] || Exhausted(maxWanted, |visited|) || target in visited) &&
    // a start that is not a wall is visited unless the budget is zero
    (!sameObject && !Exhausted(maxWanted, 0) && !At(cells0, start).isWall ==> visited != []) &&
    // the same coordinates object for start and target: nothing happens
    (sameObject ==> visited == [] && queue == [] && cells == cells0) &&
    // equal but distinct coordinates: one expansion, of the start, which is the target
    (start == target && !sameObject && !Exhausted(maxWanted, 0) && !At(cells0, start).isWall ==>
      visited == [start] && queue == [])
  }

  lemma GoodOutcome(cells0: Cells, cells: Cells, visited: seq<Coord>, queue: seq<Entry>,
                    rule: Relaxation, start: Coord, target: Coord, floor: nat, maxWanted: Budget)
    requires Good(cells0, cells, visited, queue, rule, start, target, floor)
    requires maxWanted.AtMost? ==> |visited| <= maxWanted.limit
    requires target in visited ==> visited[|visited| - 1] == target
    requires start == target && !Exhausted(maxWanted, 0) && !At(cells0, start).isWall ==> visited == [start] && queue == []
    requires Closed(cells, visited, target) && Queued(cells, queue)
    requires rule.UnitStep? ==> Layered(cells, visited, start, target)
    requires queue == [] || Exhausted(maxWanted, |visited|) || target in visited
    requires !Exhausted(maxWanted, 0) && !At(cells0, start).isWall ==> visited != []
    ensures Outcome(cells0, cells, visited, queue, rule, start, target, maxWanted, false)
  {
    assert Unfold(0);
    GoodQueue(cells0, cells, visited, queue, rule, start, target, floor);
    if visited != [] {
      IndexOfUnique(visited, start, 0);
      assert LinkOk(cells, visited, start);
    }
    if rule.UnitStep? && visited == [] {
      assert Nondecreasing(cells, visited);
    }
  }

  /** Everything the loop needs to know about the head it pops and the entries left behind. */
  lemma PopStep(cells0: Cells, cells: Cells, order: seq<Coord>, q: seq<Entry>,
                rule: Relaxation, start: Coord, target: Coord, floor: nat)
    requires Good(cells0, cells, order, q, rule, start, target, floor) && q != []
    ensures AllOk(cells, q)
    ensures var sorted := SortByDistance(cells, q);
      var head := sorted[0];
      var closest := View(cells, head);
      var here := Coord(closest.row, closest.column);
      Good(cells0, cells, order, sorted[1..], rule, start, target, floor) &&
      head in q && |sorted[1..]| + 1 == |q| && EntryOk(cells, head) &&
      (forall e :: e in sorted[1..] ==> e in q && EntryOk(cells, e) && Le(Key(cells, head), Key(cells, e))) &&
      InBounds(cells, here) && closest.id == IdOf(here.row, here.column) &&
      InBounds(cells0, here) && (!At(cells, here).isVisited ==> here !in order) &&
      closest.isWall == At(cells, here).isWall && closest.distance.Finite? &&
      (head.Ref? ==> head.at == here && At(cells, here).previousNode.Some?) &&
      (head.Seed? ==> q == [head] && head == SeedEntry(cells0, rule, start, target) &&
                      here == start && order == [] && cells == cells0 && !At(cells, here).isVisited)
  {
    assert Unfold(0);
    GoodQueue(cells0, cells, order, q, rule, start, target, floor);
    HeadFacts(cells0, cells, order, q, rule, start, target);
    PopFacts(cells, q);
    SkipStep(cells0, cells, order, q, rule, start, target, floor);
  }

  /**
   * `getUnvisitedNeighbors`, the wall filter and the `forEach` that relaxes each
   * remaining neighbour of the cell just visited and queues a reference to it.
   */
  method RelaxNeighbors(grid: Grid, ghost cells0: Cells, visited: seq<Coord>, queue: seq<Entry>,
                        here: Coord, d: nat, closestId: string, rule: Relaxation, start: Coord, target: Coord)
    returns (queue': seq<Entry>)
    requires Good(cells0, grid.cells, visited, queue, rule, start, target, d)
    requires visited != [] && here == visited[|visited| - 1]
    requires InBounds(grid.cells, here) && At(grid.cells, here).distance == Finite(d)
    requires closestId == IdOf(here.row, here.column)
    modifies grid
    ensures var ns := OpenNeighbors(old(grid.cells), here);
      Relaxed(old(grid.cells), grid.cells, ns, closestId, d, rule, target) && queue' == queue + RefsTo(ns)
    ensures Good(cells0, grid.cells, visited, queue', rule, start, target, d)
  {
    var unvisitedNeighbors := UnvisitedNeighbors(grid.cells, here);
    var unwalledNeighbors := Filter(unvisitedNeighbors, UnwalledIn(grid.cells));
    NeighborsAreOk(grid.cells, here);
    ghost var marked := grid.cells;
    queue' := Relax(grid, unwalledNeighbors, closestId, d, rule, target, queue);
    RelaxStep(cells0, marked, grid.cells, visited, queue, rule, start, target, here, d, unwalledNeighbors);
  }

  /**
   * One expansion of `closestNode`: mark its grid cell visited at distance `d`,
   * append it to the visit order, stop when it is the target, and otherwise
   * relax its unvisited, unwalled neighbours and queue references to them.
   */
  method Expand(grid: Grid, ghost cells0: Cells, visited: seq<Coord>, ghost q: seq<Entry>,
                ghost head: Entry, rest: seq<Entry>, here: Coord, d: nat, closestId: string, targetId: string,
                rule: Relaxation, start: Coord, target: Coord, ghost floor: nat)
    returns (visited': seq<Coord>, queue': seq<Entry>, found: bool)
    requires Good(cells0, grid.cells, visited, q, rule, start, target, floor)
    requires head in q && |rest| + 1 == |q| && EntryOk(grid.cells, head)
    requires forall e :: e in rest ==> e in q && EntryOk(grid.cells, e) && Le(Key(grid.cells, head), Key(grid.cells, e))
    requires InBounds(grid.cells, here) && !At(grid.cells, here).isVisited && !At(grid.cells, here).isWall
    requires Key(grid.cells, head) == Finite(d)
    requires head.Ref? ==> head.at == here && At(grid.cells, here).previousNode.Some?
    requires head.Seed? ==> q == [head] && head == SeedEntry(cells0, rule, start, target) &&
                            here == start && visited == [] && grid.cells == cells0
    requires closestId == IdOf(here.row, here.column) && targetId == IdOf(target.row, target.column)
    modifies grid
    ensures visited' == visited + [here] && here !in visited
    ensures found <==> here == target
    ensures var marked := Mark(old(grid.cells), here, d);
      Shaped(marked) && InBounds(marked, here) &&
      if found then
        grid.cells == marked && queue' == rest
      else
        var ns := OpenNeighbors(marked, here);
        queue' == rest + RefsTo(ns) && Relaxed(marked, grid.cells, ns, closestId, d, rule, target)
    ensures Good(cells0, grid.cells, visited', queue', rule, start, target, d)
  {
    MarkStep(cells0, grid.cells, visited, q, rule, start, target, floor, head, rest, here, d);
    grid.cells := Mark(grid.cells, here, d);
    visited' := visited + [here];
    queue' := rest;
    found := closestId == targetId;
    if found {
      IdInjective(here.row, here.column, target.row, target.column);
    } else {
      queue' := RelaxNeighbors(grid, cells0, visited', rest, here, d, closestId, rule, start, target);
    }
  }

  /** The state before the first round: nothing visited, only the seed queued. */
  lemma GoodStart(cells0: Cells, rule: Relaxation, start: Coord, target: Coord)
    requires Shaped(cells0) && Pristine(cells0) && InBounds(cells0, start)
    ensures Good(cells0, cells0, [], [SeedEntry(cells0, rule, start, target)], rule, start, target, 0)
  {
  }

  /** The same coordinates object for start and target: the grid is left as it was. */
  lemma IdleOutcome(cells0: Cells, rule: Relaxation, start: Coord, target: Coord, maxWanted: Budget)
    requires Shaped(cells0) && Pristine(cells0) && InBounds(cells0, start) && start == target
    ensures Outcome(cells0, cells0, [], [], rule, start, target, maxWanted, true)
  {
  }

  /**
   * One pass of the `while (queue.length)` body after the budget check: sort,
   * shift the nearest entry, skip it when its cell is visited or a wall, and
   * otherwise expand it. `stop` is set when the source returns: the expanded
   * cell is the target.
   */
  method Round(grid: Grid, ghost cells0: Cells, visited: seq<Coord>, queue: seq<Entry>, targetId: string,
               rule: Relaxation, start: Coord, target: Coord, ghost floor: nat)
    returns (visited': seq<Coord>, queue': seq<Entry>, stop: bool, ghost floor': nat)
    requires Good(cells0, grid.cells, visited, queue, rule, start, target, floor) && queue != []
    requires target !in visited && targetId == IdOf(target.row, target.column)
    modifies grid
    ensures Stepped(old(grid.cells), visited, queue, rule, target, grid.cells, visited', queue', stop)
    ensures Good(cells0, grid.cells, visited', queue', rule, start, target, floor')
    ensures Unseen(cells0, visited') < Unseen(cells0, visited) || (visited' == visited && |queue'| < |queue|)
    ensures queue == [SeedEntry(cells0, rule, start, target)] && !At(cells0, start).isWall ==>
      visited' == [start] && (start == target ==> stop && queue' == [])
  {
    PopStep(cells0, grid.cells, visited, queue, rule, start, target, floor);
    var sorted := SortByDistance(grid.cells, queue);
    var closestEntry := sorted[0];
    queue' := sorted[1..];
    visited' := visited;
    stop := false;
    floor' := floor;
    var closest := View(grid.cells, closestEntry);
    var here := PositionOf(closest);
    if !At(grid.cells, here).isVisited && !closest.isWall {
      // every pending distance is finite, so the source's return on an infinite one is never taken
      var d := closest.distance.value;
      UnseenShrinks(cells0, visited, here);
      visited', queue', stop := Expand(grid, cells0, visited, queue, closestEntry, sorted[1..], here,
                                       d, closest.id, targetId, rule, start, target, floor);
      floor' := d;
    }
  }

  /** A term that only the lemmas looking inside `Looping` mention. */
  ghost predicate Inspect(n: int) { true }

  /** What the search loop keeps from one round to the next, kept behind the trigger `Inspect`. */
  ghost predicate Looping(cells0: Cells, cells: Cells, visited: seq<Coord>, queue: seq<Entry>, rule: Relaxation,
                          start: Coord, target: Coord, maxWanted: Budget, floor: nat, trace: seq<State>)
  {
    forall n {:trigger Inspect(n)} :: Inspect(n) ==>
      Good(cells0, cells, visited, queue, rule, start, target, floor) &&
      Traced(trace, cells0, rule, start, target, maxWanted, false, cells, visited, queue) &&
      (maxWanted.AtMost? ==> |visited| <= maxWanted.limit) &&
      (target in visited ==> visited[|visited| - 1] == target) &&
      Closed(cells, visited, target) && Queued(cells, queue) &&
      (rule.UnitStep? ==> Layered(cells, visited, start, target)) &&
      (visited == [] && !At(cells0, start).isWall ==> queue == [SeedEntry(cells0, rule, start, target)]) &&
      (start == target && !At(cells0, start).isWall && visited != [] ==> visited == [start] && queue == [])
  }

  lemma LoopStarts(cells0: Cells, rule: Relaxation, start: Coord, target: Coord, maxWanted: Budget)
    requires Shaped(cells0) && Pristine(cells0) && InBounds(cells0, start)
    ensures var q := [SeedEntry(cells0, rule, start, target)];
      Looping(cells0, cells0, [], q, rule, start, target, maxWanted, 0, [State(cells0, [], q)])
  {
    GoodStart(cells0, rule, start, target);
    RunStarts(cells0, rule, start, target, maxWanted, false);
  }

  lemma LoopGood(cells0: Cells, cells: Cells, visited: seq<Coord>, queue: seq<Entry>, rule: Relaxation,
                 start: Coord, target: Coord, maxWanted: Budget, floor: nat, trace: seq<State>)
    requires Looping(cells0, cells, visited, queue, rule, start, target, maxWanted, floor, trace)
    ensures Good(cells0, cells, visited, queue, rule, start, target, floor)
  {
    assert Inspect(0);
  }

  /** A round taken from a state where the loop continues keeps `Looping` and extends the run. */
  lemma LoopAdvances(cells0: Cells, cells: Cells, order: seq<Coord>, q: seq<Entry>, rule: Relaxation,
                     start: Coord, target: Coord, maxWanted: Budget, trace: seq<State>,
                     cells': Cells, order': seq<Coord>, q': seq<Entry>, stop: bool, floor': nat)
    requires exists floor: nat :: Looping(cells0, cells, order, q, rule, start, target, maxWanted, floor, trace)
    requires target !in order && q != [] && !Exhausted(maxWanted, |order|)
    requires Stepped(cells, order, q, rule, target, cells', order', q', stop)
    requires Good(cells0, cells', order', q', rule, start, target, floor')
    requires q == [SeedEntry(cells0, rule, start, target)] && !At(cells0, start).isWall ==>
      order' == [start] && (start == target ==> stop && q' == [])
    ensures Looping(cells0, cells', order', q', rule, start, target, maxWanted, floor', trace + [State(cells', order', q')])
    ensures stop <==> target in order'
  {
    var floor: nat :| Looping(cells0, cells, order, q, rule, start, target, maxWanted, floor, trace);
    assert Inspect(0);
    RoundKeeps(cells, order, q, rule, target, cells', order', q', stop);
    if rule.UnitStep? {
      RoundKeepsLayers(cells0, cells, order, q, start, target, floor, cells', order', q', stop);
    }
    StepsExtend(trace, cells0, rule, start, target, maxWanted, cells, order, q, cells', order', q', stop);
  }

  /** When the loop ends, `Looping` gives everything a finished run promises. */
  lemma LoopEnds(cells0: Cells, cells: Cells, visited: seq<Coord>, queue: seq<Entry>, rule: Relaxation,
                 start: Coord, target: Coord, maxWanted: Budget, floor: nat, trace: seq<State>)
    requires Looping(cells0, cells, visited, queue, rule, start, target, maxWanted, floor, trace)
    requires queue == [] || Exhausted(maxWanted, |visited|) || target in visited
    ensures IsRun(trace, cells0, rule, start, target, maxWanted, false, cells, visited, queue)
    ensures Good(cells0, cells, visited, queue, rule, start, target, floor)
    ensures maxWanted.AtMost? ==> |visited| <= maxWanted.limit
    ensures target in visited ==> visited[|visited| - 1] == target
    ensures start == target && !Exhausted(maxWanted, 0) && !At(cells0, start).isWall ==>
      visited == [start] && queue == []
    ensures Closed(cells, visited, target) && Queued(cells, queue)
    ensures rule.UnitStep? ==> Layered(cells, visited, start, target)
    ensures !Exhausted(maxWanted, 0) && !At(cells0, start).isWall ==> visited != []
  {
    assert Inspect(0);
  }

  /**
   * The part of `dijkstraOg` and `astar` after the reference-equality check:
   * seed the pending array with a copy of the start node at the seed distance,
   * then run rounds until the budget is reached, the pending array empties,
   * or a round stops. `floor` is the distance of the last cell visited.
   */
  method Explore(grid: Grid, start: Coord, target: Coord, maxWanted: Budget, rule: Relaxation)
    returns (visited: seq<Coord>, queue: seq<Entry>, ghost floor: nat, ghost trace: seq<State>)
    requires Shaped(grid.cells) && Pristine(grid.cells)
    requires InBounds(grid.cells, start) && InBounds(grid.cells, target)
    modifies grid
    ensures Looping(old(grid.cells), grid.cells, visited, queue, rule, start, target, maxWanted, floor, trace)
    ensures queue == [] || Exhausted(maxWanted, |visited|) || target in visited
  {
    ghost var cells0 := grid.cells;
    visited := [];
    var startNode := At(grid.cells, start);
    var targetNode := At(grid.cells, target);
    queue := [Seed(startNode.(distance := SeedDistance(rule, start, target)))];
    floor := 0;
    trace := [State(cells0, visited, queue)];
    LoopStarts(cells0, rule, start, target, maxWanted);
    while queue != []
      invariant Looping(cells0, grid.cells, visited, queue, rule, start, target, maxWanted, floor, trace)
      invariant target !in visited
      decreases Unseen(cells0, visited), |queue|
    {
      if Exhausted(maxWanted, |visited|) {
        break;
      }
      LoopGood(cells0, grid.cells, visited, queue, rule, start, target, maxWanted, floor, trace);
      var stop;
      ghost var before, order, pending, trace0 := grid.cells, visited, queue, trace;
      visited, queue, stop, floor := Round(grid, cells0, visited, queue, targetNode.id, rule, start, target, floor);
      trace := trace + [State(grid.cells, visited, queue)];
      LoopAdvances(cells0, before, order, pending, rule, start, target, maxWanted, trace0,
                   grid.cells, visited, queue, stop, floor);
      if stop {
        break;
      }
    }
  }

  /**
   * The search shared by `dijkstraOg` and `astar` on a fresh grid: returns the
   * visit order and the final pending array, and leaves the grid with the
   * visited flags, distances and predecessor links the run set. `sameObject`
   * says whether the caller passed one coordinates array as both start and
   * target, which the source detects by reference equality.
   */
  method Search(grid: Grid, start: Coord, target: Coord, maxWanted: Budget, sameObject: bool, rule: Relaxation)
    returns (visited: seq<Coord>, queue: seq<Entry>, ghost trace: seq<State>)
    requires Shaped(grid.cells) && Pristine(grid.cells)
    requires InBounds(grid.cells, start) && InBounds(grid.cells, target)
    requires sameObject ==> start == target
    modifies grid
    ensures IsRun(trace, old(grid.cells), rule, start, target, maxWanted, sameObject, grid.cells, visited, queue)
    ensures Outcome(old(grid.cells), grid.cells, visited, queue, rule, start, target, maxWanted, sameObject)
  {
    if sameObject {
      IdleOutcome(grid.cells, rule, start, target, maxWanted);
      RunStarts(grid.cells, rule, start, target, maxWanted, true);
      return [], [], [State(grid.cells, [], [])];
    }
    ghost var floor;
    visited, queue, floor, trace := Explore(grid, start, target, maxWanted, rule);
    LoopEnds(old(grid.cells), grid.cells, visited, queue, rule, start, target, maxWanted, floor, trace);
    GoodOutcome(old(grid.cells), grid.cells, visited, queue, rule, start, target, floor, maxWanted);
  }

  /** `dijkstraOg`: the search whose queued cells carry their step count from the start. */
  method DijkstraOg(grid: Grid, start: Coord, target: Coord, maxWanted: Budget, sameObject: bool)
    returns (visited: seq<Coord>, queue: seq<Entry>, ghost trace: seq<State>)
    requires Shaped(grid.cells) && Pristine(grid.cells)
    requires InBounds(grid.cells, start) && InBounds(grid.cells, target)
    requires sameObject ==> start == target
    modifies grid
    ensures IsRun(trace, old(grid.cells), UnitStep, start, target, maxWanted, sameObject, grid.cells, visited, queue)
    ensures Outcome(old(grid.cells), grid.cells, visited, queue, UnitStep, start, target, maxWanted, sameObject)
  {
    visited, queue, trace := Search(grid, start, target, maxWanted, sameObject, UnitStep);
  }

  /** `astar`: the search whose queued cells carry their straight-line distance to the target. */
  method AStar(grid: Grid, start: Coord, target: Coord, maxWanted: Budget, sameObject: bool)
    returns (visited: seq<Coord>, queue: seq<Entry>, ghost trace: seq<State>)
    requires Shaped(grid.cells) && Pristine(grid.cells)
    requires InBounds(grid.cells, start) && InBounds(grid.cells, target)
    requires sameObject ==> start == target
    modifies grid
    ensures IsRun(trace, old(grid.cells), StraightLine, start, target, maxWanted, sameObject, grid.cells, visited, queue)
    ensures Outcome(old(grid.cells), grid.cells, visited, queue, StraightLine, start, target, maxWanted, sameObject)
  {
    visited, queue, trace := Search(grid, start, target, maxWanted, sameObject, StraightLine);
  }

  // ---------------------------------------------------------------------------
  // Completeness

  /** A walk through the grid: each step is to an adjacent position, and none lands on a wall. */
  ghost predicate OpenWalk(cells: Cells, w: seq<Coord>)
  {
    (forall k :: 0 <= k < |w| ==> InBounds(cells, w[k]) && !At(cells, w[k]).isWall) &&
    (forall k :: 0 < k < |w| ==> Adjacent(w[k - 1], w[k]))
  }

  /**
   * With nothing pending, a walk that starts at a visited cell and crosses no
   * wall never leaves the visited cells, unless it passes through the target.
   */
  lemma {:induction false} WalkStaysVisited(cells0: Cells, cells: Cells, visited: seq<Coord>, target: Coord,
                                           w: seq<Coord>)
    requires SameLayout(cells0, cells) && VisitOrder(cells, visited)
    requires Closed(cells, visited, target) && Queued(cells, []) && target !in visited
    requires OpenWalk(cells0, w) && w != [] && w[0] in visited
    ensures w[|w| - 1] in visited
  {
    if |w| > 1 {
      var w' := w[..|w| - 1];
      WalkStaysVisited(cells0, cells, visited, target, w');
      var p, c := w[|w| - 2], w[|w| - 1];
      assert Adjacent(p, c);
      assert Surrounded(cells, p);
      assert InBounds(cells0, c) && !At(cells0, c).isWall;
      assert Layout(At(cells0, c)) == Layout(At(cells, c));
      assert !Waiting(cells, c);
    }
  }

  /**
   * A run that ends with an empty pending array before visiting the target has
   * visited every cell that a walk from the start reaches without crossing a wall.
   */
  lemma DrainedRunCoversWalks(cells0: Cells, cells: Cells, visited: seq<Coord>, queue: seq<Entry>,
                              rule: Relaxation, start: Coord, target: Coord, maxWanted: Budget, w: seq<Coord>)
    requires Outcome(cells0, cells, visited, queue, rule, start, target, maxWanted, false)
    requires queue == [] && target !in visited && !Exhausted(maxWanted, 0)
    requires OpenWalk(cells0, w) && w != [] && w[0] == start
    ensures w[|w| - 1] in visited
  {
    assert !At(cells0, w[0]).isWall;
    WalkStaysVisited(cells0, cells, visited, target, w);
  }

  /**
   * A run with no budget limit, started with distinct coordinate objects,
   * visits the target whenever a walk from the start reaches it without
   * crossing a wall.
   */
  lemma ReachableTargetIsFound(cells0: Cells, cells: Cells, visited: seq<Coord>, queue: seq<Entry>,
                               rule: Relaxation, start: Coord, target: Coord, w: seq<Coord>)
    requires Outcome(cells0, cells, visited, queue, rule, start, target, Unlimited, false)
    requires OpenWalk(cells0, w) && w != [] && w[0] == start && w[|w| - 1] == target
    ensures target in visited
  {
    if target !in visited {
      DrainedRunCoversWalks(cells0, cells, visited, queue, rule, start, target, Unlimited, w);
    }
  }

  // ---------------------------------------------------------------------------
  // Dijkstra's distances are shortest

  /**
   * Dijkstra: along an open walk from the start, either the last visited cell
   * is no farther than the walk is long, or the walk ends at a visited cell
   * other than the target whose distance is no greater than the walk's length.
   */
  lemma {:induction false} WalkBoundsDistance(cells0: Cells, cells: Cells, visited: seq<Coord>,
                                             start: Coord, target: Coord, w: seq<Coord>)
    requires SameLayout(cells0, cells) && VisitOrder(cells, visited) && Closed(cells, visited, target)
    requires Banded(cells, visited) && StepBounded(cells, visited, target)
    requires visited != [] && visited[0] == start && DistAt(cells, start) == 0
    requires target in visited ==> visited[|visited| - 1] == target
    requires OpenWalk(cells0, w) && w != [] && w[0] == start
    ensures var last := w[|w| - 1];
      DistAt(cells, visited[|visited| - 1]) <= |w| - 1 ||
      (last in visited && last != target && DistAt(cells, last) <= |w| - 1)
  {
    if |w| > 1 {
      var w' := w[..|w| - 1];
      assert forall k :: 0 <= k < |w'| ==> w'[k] == w[k];
      WalkBoundsDistance(cells0, cells, visited, start, target, w');
      var p, c := w[|w| - 2], w[|w| - 1];
      if p in visited && p != target && DistAt(cells, p) <= |w| - 2 {
        assert Adjacent(p, c) && Surrounded(cells, p);
        assert Layout(At(cells0, c)) == Layout(At(cells, c));
        assert DistAt(cells, c) <= DistAt(cells, p) + 1;
        if !At(cells, c).isVisited {
          assert Waiting(cells, c);
        }
      }
    }
  }

  /**
   * Dijkstra: no open walk from the start to a visited cell is shorter than
   * that cell's distance, counted in steps.
   */
  lemma VisitedDistanceIsShortest(cells0: Cells, cells: Cells, visited: seq<Coord>, queue: seq<Entry>,
                                  start: Coord, target: Coord, maxWanted: Budget, sameObject: bool, w: seq<Coord>)
    requires Outcome(cells0, cells, visited, queue, UnitStep, start, target, maxWanted, sameObject)
    requires OpenWalk(cells0, w) && w != [] && w[0] == start && w[|w| - 1] in visited
    ensures DistAt(cells, w[|w| - 1]) <= |w| - 1
  {
    WalkBoundsDistance(cells0, cells, visited, start, target, w);
    var k :| 0 <= k < |visited| && visited[k] == w[|w| - 1];
    if k < |visited| - 1 {
      assert DistAt(cells, visited[k]) <= DistAt(cells, visited[|visited| - 1]);
    }
  }
}
