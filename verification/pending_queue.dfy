/**
 * The pending array of a search. Its first entry is a copy of the start cell
 * carrying its own distance; every later entry is a reference to a grid cell,
 * so its distance is whatever the grid holds when the array is sorted.
 * `queue.sort(nodesByAscDistance)` is a stable sort by distance and
 * `queue.shift()` takes the head.
 */
module PendingQueue {
  import opened Grids

  datatype Entry =
    | Seed(copy: Cell)  // `{...startNode, distance: d}`
    | Ref(at: Coord)    // a reference to the grid cell at `at`

  predicate EntryOk(cells: Cells, e: Entry)
  {
    e.Ref? ==> InBounds(cells, e.at)
  }

  predicate AllOk(cells: Cells, q: seq<Entry>)
  {
    forall k :: 0 <= k < |q| ==> EntryOk(cells, q[k])
  }

  /** The cell record an entry denotes in the given grid. */
  function View(cells: Cells, e: Entry): Cell
    requires EntryOk(cells, e)
  {
    match e
    case Seed(copy) => copy
    case Ref(at) => At(cells, at)
  }

  function Key(cells: Cells, e: Entry): Distance
    requires EntryOk(cells, e)
  {
    View(cells, e).distance
  }

  /**
   * `a` may stay before `b`: the comparator `a.distance - b.distance` is not
   * positive. Infinity minus infinity is NaN, which a sort reads as a tie.
   */
  predicate Le(a: Distance, b: Distance)
  {
    b.Infinite? || (a.Finite? && a.value <= b.value)
  }

  /** `Le` orders distances totally; two distances tie exactly when they are equal. */
  lemma LeOrdersDistances(a: Distance, b: Distance, c: Distance)
    ensures Le(a, a) && (Le(a, b) || Le(b, a))
    ensures Le(a, b) && Le(b, c) ==> Le(a, c)
    ensures Le(a, b) && Le(b, a) <==> a == b
  {
  }

  ghost predicate Sorted(cells: Cells, q: seq<Entry>)
    requires AllOk(cells, q)
  {
    forall k, l :: 0 <= k < l < |q| ==> Le(Key(cells, q[k]), Key(cells, q[l]))
  }

  /** Puts `x` in front of the first entry whose distance is not smaller than its own. */
  function Insert(cells: Cells, x: Entry, s: seq<Entry>): (r: seq<Entry>)
    requires EntryOk(cells, x) && AllOk(cells, s)
    ensures |r| == |s| + 1 && AllOk(cells, r)
  {
    if s == [] || Le(Key(cells, x), Key(cells, s[0])) then
      [x] + s
    else
      [s[0]] + Insert(cells, x, s[1..])
  }

  /** Inserting adds `x` and loses nothing. */
  lemma {:induction false} InsertPermutes(cells: Cells, x: Entry, s: seq<Entry>)
    requires EntryOk(cells, x) && AllOk(cells, s)
    ensures multiset(Insert(cells, x, s)) == multiset(s) + multiset{x}
  {
    if s != [] && !Le(Key(cells, x), Key(cells, s[0])) {
      InsertPermutes(cells, x, s[1..]);
      assert s == [s[0]] + s[1..];
    }
  }

  /** Putting an entry no farther than any other in front of a sorted queue keeps it sorted. */
  lemma PrependKeepsSorted(cells: Cells, x: Entry, s: seq<Entry>)
    requires EntryOk(cells, x) && AllOk(cells, s) && Sorted(cells, s)
    requires forall e :: e in s ==> Le(Key(cells, x), Key(cells, e))
    ensures AllOk(cells, [x] + s) && Sorted(cells, [x] + s)
  {
    var r := [x] + s;
    forall k, l | 0 <= k < l < |r| ensures Le(Key(cells, r[k]), Key(cells, r[l])) {
      assert r[l] == s[l - 1];
      if k > 0 {
        assert r[k] == s[k - 1];
      } else {
        assert s[l - 1] in s;
      }
    }
  }

  /** Inserting into a sorted queue keeps it sorted. */
  lemma {:induction false} InsertKeepsSorted(cells: Cells, x: Entry, s: seq<Entry>)
    requires EntryOk(cells, x) && AllOk(cells, s) && Sorted(cells, s)
    ensures Sorted(cells, Insert(cells, x, s))
  {
    if s == [] || Le(Key(cells, x), Key(cells, s[0])) {
      forall e | e in s ensures Le(Key(cells, x), Key(cells, e)) {
        var l :| 0 <= l < |s| && s[l] == e;
        if l > 0 {
          assert Le(Key(cells, s[0]), Key(cells, s[l]));
        }
      }
      PrependKeepsSorted(cells, x, s);
    } else {
      var t := Insert(cells, x, s[1..]);
      InsertKeepsSorted(cells, x, s[1..]);
      InsertPermutes(cells, x, s[1..]);
      assert forall k :: 1 <= k < |s| ==> Le(Key(cells, s[0]), Key(cells, s[k]));
      forall e | e in t ensures Le(Key(cells, s[0]), Key(cells, e)) {
        assert e in multiset(t);
        if e != x {
          assert e in multiset(s[1..]);
          var m :| 0 <= m < |s[1..]| && s[1..][m] == e;
          assert s[m + 1] == e;
        }
      }
      PrependKeepsSorted(cells, s[0], t);
    }
  }

  /**
   * The queue stably sorted by distance: a permutation of its entries whose
   * distances never decrease.
   */
  function SortByDistance(cells: Cells, q: seq<Entry>): (r: seq<Entry>)
    requires AllOk(cells, q)
    ensures |r| == |q| && AllOk(cells, r)
  {
    if q == [] then []
    else
      Insert(cells, q[0], SortByDistance(cells, q[1..]))
  }

  /** Sorting neither loses nor adds an entry. */
  lemma {:induction false} SortByDistancePermutes(cells: Cells, q: seq<Entry>)
    requires AllOk(cells, q)
    ensures multiset(SortByDistance(cells, q)) == multiset(q)
  {
    if q != [] {
      SortByDistancePermutes(cells, q[1..]);
      InsertPermutes(cells, q[0], SortByDistance(cells, q[1..]));
      assert q == [q[0]] + q[1..];
    }
  }

  /** The distances along the sorted queue never decrease. */
  lemma {:induction false} SortByDistanceIsSorted(cells: Cells, q: seq<Entry>)
    requires AllOk(cells, q)
    ensures Sorted(cells, SortByDistance(cells, q))
  {
    if q != [] {
      SortByDistanceIsSorted(cells, q[1..]);
      InsertKeepsSorted(cells, q[0], SortByDistance(cells, q[1..]));
    }
  }

  /** The entries of `q` at distance `k`, in their order in `q`. */
  function WithKey(cells: Cells, q: seq<Entry>, k: Distance): seq<Entry>
    requires AllOk(cells, q)
  {
    if q == [] then []
    else (if Key(cells, q[0]) == k then [q[0]] else []) + WithKey(cells, q[1..], k)
  }

  /**
   * `x` lands in front of every entry at its own distance: the entries it is
   * moved past are strictly nearer.
   */
  lemma {:induction false} InsertWithKey(cells: Cells, x: Entry, s: seq<Entry>, k: Distance)
    requires EntryOk(cells, x) && AllOk(cells, s)
    ensures WithKey(cells, Insert(cells, x, s), k) == (if Key(cells, x) == k then [x] else []) + WithKey(cells, s, k)
  {
    var r := Insert(cells, x, s);
    if s == [] || Le(Key(cells, x), Key(cells, s[0])) {
      assert r[0] == x && r[1..] == s;
    } else {
      var t := Insert(cells, x, s[1..]);
      InsertWithKey(cells, x, s[1..], k);
      assert r[0] == s[0] && r[1..] == t;
      assert Key(cells, s[0]) != Key(cells, x);
      var head := if Key(cells, s[0]) == k then [s[0]] else [];
      assert WithKey(cells, r, k) == head + WithKey(cells, t, k);
      assert WithKey(cells, s, k) == head + WithKey(cells, s[1..], k);
    }
  }

  /** The sort is stable: entries at the same distance keep their relative order. */
  lemma {:induction false} SortByDistanceIsStable(cells: Cells, q: seq<Entry>, k: Distance)
    requires AllOk(cells, q)
    ensures WithKey(cells, SortByDistance(cells, q), k) == WithKey(cells, q, k)
  {
    if q != [] {
      SortByDistanceIsStable(cells, q[1..], k);
      InsertWithKey(cells, q[0], SortByDistance(cells, q[1..]), k);
    }
  }

  /** The position of the earliest entry of least distance. */
  function FirstMinIndex(cells: Cells, q: seq<Entry>): (k: nat)
    requires AllOk(cells, q) && |q| > 0
    ensures k < |q|
    ensures forall i :: 0 <= i < |q| ==> Le(Key(cells, q[k]), Key(cells, q[i]))
    ensures forall i :: 0 <= i < k ==> !Le(Key(cells, q[i]), Key(cells, q[k]))
  {
    if |q| == 1 then 0
    else
      var k := FirstMinIndex(cells, q[1..]);
      if Le(Key(cells, q[0]), Key(cells, q[k + 1])) then 0 else k + 1
  }

  /** The head of the sorted queue is the earliest entry of least distance. */
  lemma {:induction false} SortedHead(cells: Cells, q: seq<Entry>)
    requires AllOk(cells, q) && |q| > 0
    ensures SortByDistance(cells, q)[0] == q[FirstMinIndex(cells, q)]
  {
    if |q| > 1 {
      SortedHead(cells, q[1..]);
    }
  }

  /** The head of the sorted queue is no farther than any entry. */
  lemma SortedHeadIsNearest(cells: Cells, q: seq<Entry>)
    requires AllOk(cells, q) && |q| > 0
    ensures forall e :: e in q ==> Le(Key(cells, SortByDistance(cells, q)[0]), Key(cells, e))
  {
    var r := SortByDistance(cells, q);
    SortByDistanceIsSorted(cells, q);
    SortByDistancePermutes(cells, q);
    forall e | e in q ensures Le(Key(cells, r[0]), Key(cells, e)) {
      assert e in multiset(r);
      var l :| 0 <= l < |r| && r[l] == e;
      if l == 0 {
        assert Le(Key(cells, e), Key(cells, e));
      }
    }
  }

  /**
   * `queue.shift()` after sorting: the head comes from the queue, and what
   * is left is the rest of the queue, each entry no nearer than the head.
   */
  lemma PopFacts(cells: Cells, q: seq<Entry>)
    requires AllOk(cells, q) && q != []
    ensures var sorted := SortByDistance(cells, q);
      sorted[0] in q && |sorted[1..]| + 1 == |q| &&
      forall e :: e in sorted[1..] ==> e in q && Le(Key(cells, sorted[0]), Key(cells, e))
  {
    var sorted := SortByDistance(cells, q);
    SortByDistanceIsSorted(cells, q);
    SortByDistancePermutes(cells, q);
    assert sorted[0] in multiset(q);
    forall e | e in sorted[1..] ensures e in q && Le(Key(cells, sorted[0]), Key(cells, e)) {
      assert e in multiset(sorted);
      var l :| 0 < l < |sorted| && sorted[l] == e;
    }
  }
}
