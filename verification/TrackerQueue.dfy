/**
  The priority queue of trackers: a binary max-heap over the trackers' cache
  ratios, as push_heap and pop_heap keep it. The ratios are read through the
  objects, so the heap is only in order as long as no queued tracker changes.
*/
module TrackerQueues {
  import opened CacheTrackers
  import Bounce

  // ----- Heaps of numbers

  function Up(i: nat): nat
    requires i > 0
  {
    (i - 1) / 2
  }

  ghost predicate Ordered(keys: seq<int>) {
    forall i :: 0 < i < |keys| ==> keys[Up(i)] >= keys[i]
  }

  /** In an ordered heap nothing exceeds the root. */
  lemma {:induction false} RootIsTop(keys: seq<int>, i: nat)
    requires Ordered(keys) && i < |keys|
    ensures keys[i] <= keys[0]
  {
    if i > 0 {
      RootIsTop(keys, Up(i));
    }
  }

  /** The children of `hole` do not exceed its parent. */
  ghost predicate Bridged(keys: seq<int>, hole: nat) {
    0 < hole < |keys| ==> forall i :: 0 < i < |keys| && Up(i) == hole ==> keys[Up(hole)] >= keys[i]
  }

  /** Ordered but for `hole`, which may exceed its parent (sifting up). */
  ghost predicate OrderedAbove(keys: seq<int>, hole: nat) {
    Bridged(keys, hole) && forall i :: 0 < i < |keys| && i != hole ==> keys[Up(i)] >= keys[i]
  }

  /** Ordered but for `hole`, which may be exceeded by its children (sifting down). */
  ghost predicate OrderedBelow(keys: seq<int>, hole: nat) {
    Bridged(keys, hole) && forall i :: 0 < i < |keys| && Up(i) != hole ==> keys[Up(i)] >= keys[i]
  }

  function Swapped<T>(e: seq<T>, i: nat, k: nat): (r: seq<T>)
    requires i < |e| && k < |e|
    ensures |r| == |e|
  {
    e[i := e[k]][k := e[i]]
  }

  lemma SiftedUp(keys: seq<int>, i: nat)
    requires 0 < i < |keys| && OrderedAbove(keys, i) && keys[Up(i)] < keys[i]
    ensures OrderedAbove(Swapped(keys, i, Up(i)), Up(i))
  {
    var r := Swapped(keys, i, Up(i));
    forall k | 0 < k < |r| && k != Up(i) ensures r[Up(k)] >= r[k] {
      assert keys[Up(k)] >= keys[k] || k == i;
    }
    if Up(i) > 0 {
      forall k | 0 < k < |r| && Up(k) == Up(i) ensures r[Up(Up(i))] >= r[k] {
        assert keys[Up(Up(i))] >= keys[Up(i)];
      }
    }
  }

  lemma SiftedDown(keys: seq<int>, i: nat, child: nat)
    requires i < child < |keys| && Up(child) == i && OrderedBelow(keys, i) && keys[i] < keys[child]
    requires forall k :: 0 < k < |keys| && Up(k) == i ==> keys[k] <= keys[child]
    ensures OrderedBelow(Swapped(keys, i, child), child)
  {
    var r := Swapped(keys, i, child);
    forall k | 0 < k < |r| && Up(k) != child ensures r[Up(k)] >= r[k] {
      assert keys[k] <= keys[Up(k)] || Up(k) == i;
    }
    forall k | 0 < k < |r| && Up(k) == child ensures r[Up(child)] >= r[k] {
      assert keys[k] <= keys[Up(k)];
    }
  }

  /** The last element in the place of the first. */
  function WithoutRoot<T>(e: seq<T>): (r: seq<T>)
    requires |e| > 1
    ensures |r| == |e| - 1
  {
    [e[|e| - 1]] + e[1..|e| - 1]
  }

  lemma RootTaken(keys: seq<int>)
    requires |keys| > 1 && Ordered(keys)
    ensures OrderedBelow(WithoutRoot(keys), 0)
  {
  }

  lemma RootTakenAll<T>(e: seq<T>)
    requires |e| > 1
    ensures multiset(e) == multiset(WithoutRoot(e)) + multiset{e[0]}
  {
    assert e == [e[0]] + e[1..|e| - 1] + [e[|e| - 1]];
  }

  // ----- The queue

  ghost function RatioOf(t: CacheTracker): int
    reads t
  {
    Bounce.Ratio(t.cacheUsed, t.cacheQuota)
  }

  ghost function Ratios(e: seq<CacheTracker>): (keys: seq<int>)
    reads e
    ensures |keys| == |e|
    ensures forall i :: 0 <= i < |e| ==> keys[i] == RatioOf(e[i])
  {
    seq(|e|, i requires 0 <= i < |e| reads e => RatioOf(e[i]))
  }

  /** The same trackers, in any order. */
  ghost predicate Permutes(a: seq<CacheTracker>, b: seq<CacheTracker>) {
    multiset(a) == multiset(b)
  }

  /** Swaps two trackers in the heap. */
  method Swap(e: seq<CacheTracker>, i: nat, k: nat, ghost all: seq<CacheTracker>) returns (r: seq<CacheTracker>)
    requires i < |e| && k < |e| && Permutes(e, all)
    ensures |r| == |e| && Permutes(r, all)
    ensures Ratios(r) == Swapped(Ratios(e), i, k)
  {
    r := Swapped(e, i, k);
    SwappedKeepsAll(e, i, k);
  }

  lemma SwappedKeepsAll<T>(e: seq<T>, i: nat, k: nat)
    requires i < |e| && k < |e|
    ensures multiset(Swapped(e, i, k)) == multiset(e)
  {
  }

  method SiftUp(e: seq<CacheTracker>) returns (r: seq<CacheTracker>)
    requires e != [] && OrderedAbove(Ratios(e), |e| - 1)
    ensures Ordered(Ratios(r)) && Permutes(r, e)
  {
    r := e;
    var i: nat := |e| - 1;
    while i > 0
      invariant i < |r| && Permutes(r, e)
      invariant OrderedAbove(Ratios(r), i)
    {
      var mine := r[i].GetCacheRatio();
      var above := r[Up(i)].GetCacheRatio();
      if mine <= above {
        return;
      }
      SiftedUp(Ratios(r), i);
      r := Swap(r, i, Up(i), e);
      i := Up(i);
    }
  }

  method SiftDown(e: seq<CacheTracker>) returns (r: seq<CacheTracker>)
    requires e != [] && OrderedBelow(Ratios(e), 0)
    ensures Ordered(Ratios(r)) && Permutes(r, e)
  {
    r := e;
    var i: nat := 0;
    while 2 * i + 1 < |r|
      invariant i < |r| && Permutes(r, e)
      invariant OrderedBelow(Ratios(r), i)
      decreases |r| - i
    {
      var child := LargerChild(r, i);
      var mine := r[i].GetCacheRatio();
      var best := r[child].GetCacheRatio();
      if best <= mine {
        return;
      }
      SiftedDown(Ratios(r), i, child);
      r := Swap(r, i, child, e);
      i := child;
    }
  }

  method LargerChild(e: seq<CacheTracker>, i: nat) returns (child: nat)
    requires 2 * i + 1 < |e|
    ensures i < child < |e| && Up(child) == i
    ensures forall k :: 0 < k < |e| && Up(k) == i ==> Ratios(e)[k] <= Ratios(e)[child]
  {
    child := 2 * i + 1;
    if child + 1 < |e| {
      var left := e[child].GetCacheRatio();
      var right := e[child + 1].GetCacheRatio();
      if left < right {
        child := child + 1;
      }
    }
  }

  /** The heap without its root. */
  method TakeRoot(e: seq<CacheTracker>) returns (r: seq<CacheTracker>)
    requires e != [] && Ordered(Ratios(e))
    ensures Ordered(Ratios(r)) && multiset(e) == multiset(r) + multiset{e[0]}
  {
    if |e| == 1 {
      return [];
    }
    RootTaken(Ratios(e));
    RootTakenAll(e);
    assert Ratios(WithoutRoot(e)) == WithoutRoot(Ratios(e));
    r := SiftDown(WithoutRoot(e));
  }

  class TrackerQueue {
    var elems: seq<CacheTracker>

    constructor ()
      ensures elems == []
    {
      elems := [];
    }

    ghost predicate Valid()
      reads this, elems
    {
      Ordered(Ratios(elems))
    }

    method Push(t: CacheTracker)
      requires Valid()
      modifies this
      ensures Valid() && multiset(elems) == multiset(old(elems)) + multiset{t}
    {
      elems := SiftUp(elems + [t]);
    }

    /** A tracker with the largest ratio. */
    method Top() returns (top: CacheTracker)
      requires Valid() && elems != []
      ensures top == elems[0] && forall t <- elems :: RatioOf(t) <= RatioOf(top)
    {
      top := elems[0];
      forall t <- elems ensures RatioOf(t) <= RatioOf(top) {
        var i :| 0 <= i < |elems| && elems[i] == t;
        RootIsTop(Ratios(elems), i);
      }
    }

    /** Removes and returns a tracker with the largest ratio. */
    method Pop() returns (top: CacheTracker)
      requires Valid() && elems != []
      modifies this
      ensures Valid() && multiset(old(elems)) == multiset(elems) + multiset{top}
      ensures forall t <- old(elems) :: RatioOf(t) <= RatioOf(top)
    {
      top := Top();
      elems := TakeRoot(elems);
    }
  }
}
