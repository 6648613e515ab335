/**
 * Queue1LSort4: quicksort of a queue, with partition draining the queue into
 * the entries no larger than a partitioner and the rest.
 *
 * A comparator is a function (T, T) -> int; the relation it computes holds of
 * (x, y) when compare(x, y) <= 0.
 */
module QueueSort {

  /** IS_TOTAL_PREORDER of the relation computed by order. */
  ghost predicate TotalPreorder<T(!new)>(order: (T, T) -> int) {
    && (forall x, y :: order(x, y) <= 0 || order(y, x) <= 0)
    && (forall x, y, z :: order(x, y) <= 0 && order(y, z) <= 0 ==> order(x, z) <= 0)
  }

  /** IS_SORTED: every pair of adjacent entries is in the relation. */
  ghost predicate Sorted<T>(order: (T, T) -> int, s: seq<T>) {
    forall i :: 0 <= i < |s| - 1 ==> order(s[i], s[i + 1]) <= 0
  }

  /**
   * The entries of s that partition puts in front (low) or in back (not low),
   * in their order in s.
   */
  function Part<T>(order: (T, T) -> int, s: seq<T>, p: T, low: bool): (r: seq<T>)
    ensures |r| <= |s|
  {
    if s == [] then []
    else
      var x := s[|s| - 1];
      Part(order, s[..|s| - 1], p, low) + (if (order(x, p) <= 0) == low then [x] else [])
  }

  /** The result of sort: the partitions of the rest sorted, around the first entry as pivot. */
  function QuickSorted<T>(order: (T, T) -> int, s: seq<T>): seq<T>
    decreases |s|
  {
    if |s| <= 1 then s
    else
      QuickSorted(order, Part(order, s[1..], s[0], true)) + [s[0]]
        + QuickSorted(order, Part(order, s[1..], s[0], false))
  }

  /* ------------------------------------------------------------------------
   * Properties of partition and sort
   * ------------------------------------------------------------------------ */

  /** front * back is a permutation of the partitioned entries. */
  lemma {:induction false} PartPermutation<T>(order: (T, T) -> int, s: seq<T>, p: T)
    ensures multiset(Part(order, s, p, true)) + multiset(Part(order, s, p, false)) == multiset(s)
  {
    if s != [] {
      PartPermutation(order, s[..|s| - 1], p);
      assert s == s[..|s| - 1] + [s[|s| - 1]];
    }
  }

  /** Every entry of front is related to the partitioner, no entry of back is. */
  lemma {:induction false} PartSide<T>(order: (T, T) -> int, s: seq<T>, p: T, low: bool)
    ensures forall x :: x in Part(order, s, p, low) ==> x in s && (order(x, p) <= 0 <==> low)
  {
    if s != [] {
      PartSide(order, s[..|s| - 1], p, low);
    }
  }

  /** Partitioning one more entry appends it to its side. */
  lemma PartExtend<T>(order: (T, T) -> int, s: seq<T>, k: nat, p: T, low: bool)
    requires k < |s|
    ensures Part(order, s[..k + 1], p, low)
            == Part(order, s[..k], p, low) + (if (order(s[k], p) <= 0) == low then [s[k]] else [])
  {
    assert s[..k + 1][..k] == s[..k];
  }

  /** a is a subsequence of b: a's entries occur in b in the same relative order. */
  ghost predicate Subsequence<T>(a: seq<T>, b: seq<T>)
    decreases |b|
  {
    if a == [] then true
    else if b == [] then false
    else if a[|a| - 1] == b[|b| - 1] then Subsequence(a[..|a| - 1], b[..|b| - 1])
    else Subsequence(a, b[..|b| - 1])
  }

  /** partition keeps the relative input order inside front and inside back. */
  lemma {:induction false} PartKeepsOrder<T>(order: (T, T) -> int, s: seq<T>, p: T, low: bool)
    ensures Subsequence(Part(order, s, p, low), s)
  {
    if s != [] {
      var a := Part(order, s[..|s| - 1], p, low);
      var x := s[|s| - 1];
      PartKeepsOrder(order, s[..|s| - 1], p, low);
      if (order(x, p) <= 0) == low {
        assert (a + [x])[..|a + [x]| - 1] == a;
      } else {
        assert Part(order, s, p, low) == a;
        SubsequenceOfLonger(a, s[..|s| - 1], x);
      }
    }
  }

  lemma {:induction false} SubsequenceOfLonger<T>(a: seq<T>, b: seq<T>, x: T)
    requires Subsequence(a, b)
    ensures Subsequence(a, b + [x])
    decreases |b|, 1
  {
    var bx := b + [x];
    assert bx[..|bx| - 1] == b;
    if a != [] && a[|a| - 1] == x {
      SubsequenceDropLast(a, b);
    }
  }

  lemma {:induction false} SubsequenceDropLast<T>(a: seq<T>, b: seq<T>)
    requires a != [] && Subsequence(a, b)
    ensures Subsequence(a[..|a| - 1], b)
    decreases |b|, 0
  {
    var b' := b[..|b| - 1];
    assert b' + [b[|b| - 1]] == b;
    if a[|a| - 1] == b[|b| - 1] {
      SubsequenceOfLonger(a[..|a| - 1], b', b[|b| - 1]);
    } else {
      SubsequenceDropLast(a, b');
      SubsequenceOfLonger(a[..|a| - 1], b', b[|b| - 1]);
    }
  }

  /** sort permutes its queue. */
  lemma {:induction false} QuickSortedPermutation<T>(order: (T, T) -> int, s: seq<T>)
    ensures multiset(QuickSorted(order, s)) == multiset(s)
    decreases |s|
  {
    if |s| > 1 {
      var lo := Part(order, s[1..], s[0], true);
      var hi := Part(order, s[1..], s[0], false);
      QuickSortedPermutation(order, lo);
      QuickSortedPermutation(order, hi);
      PartPermutation(order, s[1..], s[0]);
      var r := QuickSorted(order, s);
      assert r == QuickSorted(order, lo) + [s[0]] + QuickSorted(order, hi);
      assert multiset(r) == multiset(QuickSorted(order, lo)) + multiset{s[0]} + multiset(QuickSorted(order, hi));
      assert s == [s[0]] + s[1..];
      assert multiset(s) == multiset{s[0]} + multiset(s[1..]);
    }
  }

  /** Under a total preorder, the result of sort is sorted. */
  lemma {:induction false} QuickSortedSorted<T(!new)>(order: (T, T) -> int, s: seq<T>)
    requires TotalPreorder(order)
    ensures Sorted(order, QuickSorted(order, s))
    decreases |s|
  {
    if |s| > 1 {
      var p := s[0];
      var lo := Part(order, s[1..], p, true);
      var hi := Part(order, s[1..], p, false);
      var a := QuickSorted(order, lo);
      var b := QuickSorted(order, hi);
      QuickSortedSorted(order, lo);
      QuickSortedSorted(order, hi);
      if a != [] {
        assert order(a[|a| - 1], p) <= 0 by {
          QuickSortedPermutation(order, lo);
          PartSide(order, s[1..], p, true);
          assert a[|a| - 1] in multiset(lo);
        }
      }
      if b != [] {
        assert order(b[0], p) > 0 by {
          QuickSortedPermutation(order, hi);
          PartSide(order, s[1..], p, false);
          assert b[0] in multiset(hi);
        }
      }
      SortedJoin(order, a, p, b);
    }
  }

  /** Two sorted runs joined around p, the last of the first and the first of the second related to p, are sorted. */
  lemma SortedJoin<T>(order: (T, T) -> int, a: seq<T>, p: T, b: seq<T>)
    requires Sorted(order, a) && Sorted(order, b)
    requires a != [] ==> order(a[|a| - 1], p) <= 0
    requires b != [] ==> order(p, b[0]) <= 0
    ensures Sorted(order, a + [p] + b)
  {
    var r := a + [p] + b;
    forall i | 0 <= i < |r| - 1
      ensures order(r[i], r[i + 1]) <= 0
    {
      if i < |a| - 1 {
        assert r[i] == a[i] && r[i + 1] == a[i + 1];
      } else if i > |a| {
        assert r[i] == b[i - |a| - 1] && r[i + 1] == b[i - |a|];
      }
    }
  }

  /** r is sorted and holds the entries of s: what Queue1L.sort promises. */
  ghost predicate SortedPermutation<T>(order: (T, T) -> int, r: seq<T>, s: seq<T>) {
    Sorted(order, r) && multiset(r) == multiset(s)
  }

  /**
   * r is what sort leaves for the entries s: the entries partitioned in front
   * of s[0], sorted, then s[0], then the entries partitioned behind it, sorted.
   */
  ghost predicate AroundPivot<T>(order: (T, T) -> int, s: seq<T>, r: seq<T>)
    requires |s| > 1
  {
    var lo := Part(order, s[1..], s[0], true);
    var hi := Part(order, s[1..], s[0], false);
    && |r| == |lo| + 1 + |hi|
    && SortedPermutation(order, r[..|lo|], lo)
    && r[|lo|] == s[0]
    && SortedPermutation(order, r[|lo| + 1..], hi)
  }

  /** Two sorted partitions around the pivot make a sorted permutation of the queue. */
  lemma AroundPivotSorted<T(!new)>(order: (T, T) -> int, s: seq<T>, r: seq<T>)
    requires TotalPreorder(order) && |s| > 1 && AroundPivot(order, s, r)
    ensures SortedPermutation(order, r, s)
  {
    var p := s[0];
    var k := |Part(order, s[1..], p, true)|;
    var a, b := r[..k], r[k + 1..];
    assert r == a + [p] + b;
    PivotBounds(order, s[1..], p, a, b);
    SortedJoin(order, a, p, b);
    PartPermutation(order, s[1..], p);
    JoinPermutation(s, a, b);
  }

  /**
   * Entries holding the front partition are related to the partitioner, and
   * the partitioner is related to entries holding the back one.
   */
  lemma PivotBounds<T(!new)>(order: (T, T) -> int, t: seq<T>, p: T, a: seq<T>, b: seq<T>)
    requires TotalPreorder(order)
    requires multiset(a) == multiset(Part(order, t, p, true))
    requires multiset(b) == multiset(Part(order, t, p, false))
    ensures a != [] ==> order(a[|a| - 1], p) <= 0
    ensures b != [] ==> order(p, b[0]) <= 0
  {
    PartSide(order, t, p, true);
    PartSide(order, t, p, false);
    if a != [] {
      assert a[|a| - 1] in multiset(Part(order, t, p, true));
    }
    if b != [] {
      assert b[0] in multiset(Part(order, t, p, false));
    }
  }

  /** The rest split in two and rejoined around the first entry is a permutation of the whole. */
  lemma JoinPermutation<T>(s: seq<T>, a: seq<T>, b: seq<T>)
    requires |s| > 0 && multiset(a) + multiset(b) == multiset(s[1..])
    ensures multiset(a + [s[0]] + b) == multiset(s)
  {
    assert s == [s[0]] + s[1..];
  }

  /** The rebuilt queue of sort: the sorted partitions around the pivot. */
  lemma Rebuilt<T(!new)>(order: (T, T) -> int, s: seq<T>, lo: seq<T>, hi: seq<T>, r: seq<T>)
    requires TotalPreorder(order) && |s| > 1
    requires SortedPermutation(order, lo, Part(order, s[1..], s[0], true))
    requires SortedPermutation(order, hi, Part(order, s[1..], s[0], false))
    requires r == lo + [s[0]] + hi
    ensures AroundPivot(order, s, r) && SortedPermutation(order, r, s)
  {
    assert |lo| == |multiset(lo)| == |Part(order, s[1..], s[0], true)|;
    assert |hi| == |multiset(hi)| == |Part(order, s[1..], s[0], false)|;
    assert r[..|lo|] == lo && r[|lo| + 1..] == hi;
    AroundPivotSorted(order, s, r);
  }

  /** Entries compared by their tens digit: a total preorder with ties. */
  function ByTens(x: int, y: int): int {
    x / 10 - y / 10
  }

  /**
   * On <20, 1, 2> compared by tens, sort's contract admits <1, 2, 20>, while
   * the recursive quicksort gives <2, 1, 20>: which order equivalent entries
   * end up in is the library sort's, not the quicksort's.
   */
  lemma SortTiesOpen()
    ensures TotalPreorder(ByTens)
    ensures AroundPivot(ByTens, [20, 1, 2], [1, 2, 20]) && SortedPermutation(ByTens, [1, 2, 20], [20, 1, 2])
    ensures QuickSorted(ByTens, [20, 1, 2]) == [2, 1, 20]
  {
    TensSlices();
    TensParts();
    TensSortedPermutation();
    TensQuickSorted();
    TensPreorder();
  }

  /** The slices AroundPivot takes of SortTiesOpen's sequences. */
  lemma TensSlices()
    ensures [20, 1, 2][1..] == [1, 2]
    ensures [1, 2, 20][..2] == [1, 2] && [1, 2, 20][3..] == []
  {
    var s: seq<int> := [20, 1, 2];
    var r: seq<int> := [1, 2, 20];
    assert s[1..] == [1, 2] && r[..2] == [1, 2] && r[3..] == [];
  }

  /** Comparing by tens is a total preorder. */
  lemma TensPreorder()
    ensures TotalPreorder(ByTens)
  {
  }

  /** <1, 2, 20> is sorted by tens and holds the entries <20, 1, 2>. */
  lemma TensSortedPermutation()
    ensures SortedPermutation(ByTens, [1, 2, 20], [20, 1, 2])
  {
    var s: seq<int> := [20, 1, 2];
    var r: seq<int> := [1, 2, 20];
    assert s == [20] + [1, 2] && r == [1, 2] + [20];
  }

  /** The recursive quicksort of SortTiesOpen's entries, level by level. */
  lemma TensQuickSorted()
    ensures QuickSorted(ByTens, [20, 1, 2]) == [2, 1, 20]
  {
    TensParts();
    var s: seq<int> := [20, 1, 2];
    assert s[1..] == [1, 2];
    assert [1, 2][1..] == [2];
    var q: seq<int> := QuickSorted(ByTens, [1, 2]);
    assert q == [2] + [1] + [];
    assert QuickSorted(ByTens, s) == q + [20] + [];
  }

  /** How partition splits the entries of SortTiesOpen. */
  lemma TensParts()
    ensures Part(ByTens, [1, 2], 20, true) == [1, 2] && Part(ByTens, [1, 2], 20, false) == []
    ensures Part(ByTens, [2], 1, true) == [2] && Part(ByTens, [2], 1, false) == []
  {
    assert [1, 2][..1] == [1];
    assert [1][..0] == [];
    assert [2][..0] == [];
  }

  /** A queue of length at most one is left as it is. */
  lemma ShortQueueUnchanged<T>(order: (T, T) -> int, s: seq<T>)
    requires |s| <= 1
    ensures QuickSorted(order, s) == s
  {
  }

  /* ------------------------------------------------------------------------
   * The queue and the routines
   * ------------------------------------------------------------------------ */

  /** A queue; its front is items[0]. */
  class Queue<T(!new)> {
    var items: seq<T>

    /** A new queue is empty. */
    constructor ()
      ensures items == []
    {
      items := [];
    }

    method Length() returns (n: nat)
      ensures n == |items|
    {
      n := |items|;
    }

    method Enqueue(x: T)
      modifies this
      ensures items == old(items) + [x]
    {
      items := items + [x];
    }

    method Dequeue() returns (x: T)
      requires items != []
      modifies this
      ensures x == old(items)[0] && items == old(items)[1..]
    {
      x := items[0];
      items := items[1..];
    }

    method Clear()
      modifies this
      ensures items == []
    {
      items := [];
    }

    /**
     * sort as written: the front entry is the pivot, and the rest is
     * partitioned into two new Queue1L queues. Their sort is the component
     * library's, not this one, and the queue is rebuilt as
     * smaller * <pivot> * larger.
     */
    method Sort(order: (T, T) -> int)
      requires TotalPreorder(order)
      modifies this
      ensures SortedPermutation(order, items, old(items))
      ensures |old(items)| <= 1 ==> items == old(items)
      ensures |old(items)| > 1 ==> AroundPivot(order, old(items), items)
    {
      var len := Length();
      if len <= 1 {
        return;
      }
      ghost var s := items;
      ghost var smaller, larger := Part(order, s[1..], s[0], true), Part(order, s[1..], s[0], false);
      var pivot := Dequeue();
      var smallerEntries := new Queue<T>();
      var largerEntries := new Queue<T>();
      Partition(this, pivot, smallerEntries, largerEntries, order);
      assert smallerEntries.items == smaller && largerEntries.items == larger;
      smallerEntries.LibrarySort(order);
      largerEntries.LibrarySort(order);
      ghost var lo, hi := smallerEntries.items, largerEntries.items;
      assert SortedPermutation(order, lo, smaller) && SortedPermutation(order, hi, larger);
      Clear();
      Append(smallerEntries);
      assert items == lo;
      Enqueue(pivot);
      Append(largerEntries);
      assert items == lo + [s[0]] + hi;
      Rebuilt(order, s, lo, hi, items);
    }

    /**
     * Queue1L.sort from the component library, which is not part of this
     * model, by its contract: the entries sorted, in an order among equivalent
     * entries that the contract leaves open. QuickSorted is one such order.
     */
    method LibrarySort(order: (T, T) -> int)
      requires TotalPreorder(order)
      modifies this
      ensures SortedPermutation(order, items, old(items))
    {
      QuickSortedSorted(order, items);
      QuickSortedPermutation(order, items);
      items := QuickSorted(order, items);
    }

    /**
     * sort as its comment describes it: the partitions are sorted recursively
     * by this same quicksort, so the queue becomes QuickSorted of its entries.
     */
    method QuickSort(order: (T, T) -> int)
      modifies this
      ensures items == QuickSorted(order, old(items))
      decreases |items|
    {
      var len := Length();
      if len <= 1 {
        return;
      }
      ghost var s := items;
      ghost var smaller, larger := Part(order, s[1..], s[0], true), Part(order, s[1..], s[0], false);
      var pivot := Dequeue();
      var smallerEntries := new Queue<T>();
      var largerEntries := new Queue<T>();
      Partition(this, pivot, smallerEntries, largerEntries, order);
      assert smallerEntries.items == smaller && largerEntries.items == larger;
      smallerEntries.QuickSort(order);
      largerEntries.QuickSort(order);
      ghost var lo, hi := smallerEntries.items, largerEntries.items;
      Clear();
      Append(smallerEntries);
      assert items == lo;
      Enqueue(pivot);
      Append(largerEntries);
      assert items == lo + [pivot] + hi;
    }

    /** One rebuild loop of sort: move every entry of from, in order, to the back of this. */
    method Append(from: Queue<T>)
      requires from != this
      modifies this, from
      ensures items == old(items) + old(from.items)
      ensures from.items == []
    {
      ghost var whole := items + from.items;
      while from.items != []
        invariant items + from.items == whole
        decreases |from.items|
      {
        var x := from.Dequeue();
        Enqueue(x);
      }
    }
  }

  /**
   * partition: drain q, appending each entry x to front when
   * order(x, partitioner) <= 0 and to back otherwise.
   */
  method Partition<T(!new)>(q: Queue<T>, partitioner: T, front: Queue<T>, back: Queue<T>, order: (T, T) -> int)
    requires q != front && q != back && front != back
    modifies q, front, back
    ensures front.items == old(front.items) + Part(order, old(q.items), partitioner, true)
    ensures back.items == old(back.items) + Part(order, old(q.items), partitioner, false)
    ensures q.items == []
  {
    ghost var s, f0, b0 := q.items, front.items, back.items;
    ghost var k := 0;
    var n := q.Length();
    while n > 0
      invariant 0 <= k <= |s| && n == |q.items| == |s| - k
      invariant q.items == s[k..]
      invariant front.items == f0 + Part(order, s[..k], partitioner, true)
      invariant back.items == b0 + Part(order, s[..k], partitioner, false)
      decreases n
    {
      DistributeNext(q, partitioner, front, back, order, s, k, f0, b0);
      k := k + 1;
      n := q.Length();
    }
    assert s[..|s|] == s;
    q.Clear();
  }

  /** One round of partition's loop: the front entry of q goes to the back of front or of back. */
  method DistributeNext<T(!new)>(q: Queue<T>, partitioner: T, front: Queue<T>, back: Queue<T>, order: (T, T) -> int,
                           ghost s: seq<T>, ghost k: nat, ghost f0: seq<T>, ghost b0: seq<T>)
    requires q != front && q != back && front != back
    requires k < |s| && q.items == s[k..]
    requires front.items == f0 + Part(order, s[..k], partitioner, true)
    requires back.items == b0 + Part(order, s[..k], partitioner, false)
    modifies q, front, back
    ensures q.items == s[k + 1..]
    ensures front.items == f0 + Part(order, s[..k + 1], partitioner, true)
    ensures back.items == b0 + Part(order, s[..k + 1], partitioner, false)
  {
    assert s[k..][1..] == s[k + 1..];
    PartExtend(order, s, k, partitioner, true);
    PartExtend(order, s, k, partitioner, false);
    var x := q.Dequeue();
    var comparisonResult := order(x, partitioner);
    if comparisonResult <= 0 {
      front.Enqueue(x);
    } else {
      back.Enqueue(x);
    }
  }
}
