// sort.Slice as the rating code uses it. For slices of at most twelve
// elements the Go library sorts by straight insertion with adjacent swaps;
// that is the algorithm modelled here.
module SortSlice {
  import opened Models

  /**
   * The three comparators the rating code passes to sort.Slice. The last one
   * reads a fixed slice `keys` by position, whatever the slice being sorted holds.
   */
  datatype Order = ByPriority | ByLastUpdated | ByPosition(keys: seq<Contract>)

  /** The closure less(i, j), evaluated against the slice's current contents. */
  predicate Less(o: Order, s: seq<Contract>, i: nat, j: nat)
    requires i < |s| && j < |s|
  {
    match o
    case ByPriority => s[i].priority > s[j].priority
    case ByLastUpdated => s[i].lastUpdatedAt > s[j].lastUpdatedAt
    case ByPosition(keys) => i < |keys| && j < |keys| && keys[i].lastUpdatedAt > keys[j].lastUpdatedAt
  }

  /** The orders that compare the elements themselves. */
  predicate KeyOrder(o: Order)
  {
    o.ByPriority? || o.ByLastUpdated?
  }

  function KeyOf(o: Order, c: Contract): int
    requires KeyOrder(o)
  {
    if o.ByPriority? then c.priority else c.lastUpdatedAt
  }

  function Swap(s: seq<Contract>, i: nat, j: nat): (r: seq<Contract>)
    requires i < |s| && j < |s|
    ensures |r| == |s| && r[i] == s[j] && r[j] == s[i]
    ensures forall k :: 0 <= k < |s| && k != i && k != j ==> r[k] == s[k]
    ensures multiset(r) == multiset(s)
  {
    s[i := s[j]][j := s[i]]
  }

  /** The inner loop: move s[j] left while it compares less than its predecessor. */
  function Sink(o: Order, s: seq<Contract>, j: nat): (r: seq<Contract>)
    requires j < |s|
    ensures |r| == |s| && multiset(r) == multiset(s)
    ensures forall k :: j < k < |s| ==> r[k] == s[k]
    decreases j
  {
    if j > 0 && Less(o, s, j, j - 1) then Sink(o, Swap(s, j, j - 1), j - 1) else s
  }

  /** The outer loop from position i on. */
  function SortFrom(o: Order, s: seq<Contract>, i: nat): (r: seq<Contract>)
    requires 0 < i <= |s|
    ensures |r| == |s| && multiset(r) == multiset(s)
    decreases |s| - i
  {
    if i == |s| then s else SortFrom(o, Sink(o, s, i), i + 1)
  }

  /** sort.Slice(s, less) for the comparator o: a permutation of s. */
  function InsertionSort(o: Order, s: seq<Contract>): (r: seq<Contract>)
    ensures |r| == |s| && multiset(r) == multiset(s)
    ensures forall c :: c in r <==> c in s
  {
    var r := if |s| == 0 then s else SortFrom(o, s, 1);
    SameElements(r, s);
    r
  }

  lemma SameElements(r: seq<Contract>, s: seq<Contract>)
    requires multiset(r) == multiset(s)
    ensures forall c :: c in r <==> c in s
  {
    forall c
      ensures c in r <==> c in s
    {
      assert c in r <==> c in multiset(r);
      assert c in s <==> c in multiset(s);
    }
  }

  /** Position a holds a key no smaller than position b. */
  predicate InOrder(o: Order, s: seq<Contract>, a: nat, b: nat)
    requires KeyOrder(o) && a < |s| && b < |s|
  {
    KeyOf(o, s[a]) >= KeyOf(o, s[b])
  }

  /** Positions before n are in non-increasing key order. */
  predicate SortedUpTo(o: Order, s: seq<Contract>, n: nat)
    requires KeyOrder(o) && n <= |s|
  {
    forall a, b :: 0 <= a < b < n ==> InOrder(o, s, a, b)
  }

  /** The shape of the slice while s[j] is being moved left within s[..i+1]. */
  predicate SinkInv(o: Order, s: seq<Contract>, j: nat, i: nat)
    requires KeyOrder(o)
  {
    && j <= i < |s|
    && SortedUpTo(o, s, j)
    && (forall a, b :: j < a < b <= i ==> InOrder(o, s, a, b))
    && (forall a, b :: 0 <= a < j < b <= i ==> InOrder(o, s, a, b))
    && (forall b :: j < b <= i ==> InOrder(o, s, j, b))
  }

  // One-step unfoldings of Sink and SortFrom, used by the loops and the proofs below.
  lemma SinkStep(o: Order, s: seq<Contract>, j: nat)
    requires 0 < j < |s| && Less(o, s, j, j - 1)
    ensures Sink(o, s, j) == Sink(o, Swap(s, j, j - 1), j - 1)
  {
  }

  lemma SinkStop(o: Order, s: seq<Contract>, j: nat)
    requires j < |s| && !(j > 0 && Less(o, s, j, j - 1))
    ensures Sink(o, s, j) == s
  {
  }

  lemma SortFromStep(o: Order, s: seq<Contract>, i: nat)
    requires 0 < i < |s|
    ensures SortFrom(o, s, i) == SortFrom(o, Sink(o, s, i), i + 1)
  {
  }

  /** One adjacent swap moves the sinking element down one place and keeps the shape. */
  lemma SwapKeepsSinkInv(o: Order, s: seq<Contract>, j: nat, i: nat)
    requires KeyOrder(o) && SinkInv(o, s, j, i) && j > 0 && Less(o, s, j, j - 1)
    ensures SinkInv(o, Swap(s, j, j - 1), j - 1, i)
  {
    var t := Swap(s, j, j - 1);
    assert KeyOf(o, s[j]) > KeyOf(o, s[j - 1]);
    forall a, b | 0 <= a < b < j - 1
      ensures InOrder(o, t, a, b)
    {
      assert t[a] == s[a] && t[b] == s[b] && InOrder(o, s, a, b);
    }
    forall a, b | j - 1 < a < b <= i
      ensures InOrder(o, t, a, b)
    {
      if a == j {
        assert t[a] == s[j - 1] && t[b] == s[b] && InOrder(o, s, j - 1, b);
      } else {
        assert t[a] == s[a] && t[b] == s[b] && InOrder(o, s, a, b);
      }
    }
    forall a, b | 0 <= a < j - 1 < b <= i
      ensures InOrder(o, t, a, b)
    {
      assert t[a] == s[a];
      if b == j {
        assert t[b] == s[j - 1] && InOrder(o, s, a, j - 1);
      } else {
        assert t[b] == s[b] && InOrder(o, s, a, b);
      }
    }
    var p := j - 1;
    forall b | p < b <= i
      ensures InOrder(o, t, p, b)
    {
      assert t[p] == s[j];
      if b == j {
        assert t[b] == s[j - 1];
      } else {
        assert t[b] == s[b] && InOrder(o, s, j, b);
      }
    }
  }

  /** Once the sinking element stops, the prefix up to i is sorted. */
  lemma StoppedSinkSorted(o: Order, s: seq<Contract>, j: nat, i: nat)
    requires KeyOrder(o) && SinkInv(o, s, j, i) && !(j > 0 && Less(o, s, j, j - 1))
    ensures SortedUpTo(o, s, i + 1)
  {
    forall a, b | 0 <= a < b <= i
      ensures InOrder(o, s, a, b)
    {
      if b == j {
        assert InOrder(o, s, a, j - 1);
      } else if a < j < b {
        assert InOrder(o, s, a, b);
      } else if a == j {
        assert InOrder(o, s, j, b);
      } else {
        assert InOrder(o, s, a, b);
      }
    }
  }

  lemma {:induction false} SinkSorts(o: Order, s: seq<Contract>, j: nat, i: nat)
    requires KeyOrder(o) && SinkInv(o, s, j, i)
    ensures SortedUpTo(o, Sink(o, s, j), i + 1)
    decreases j
  {
    if j > 0 && Less(o, s, j, j - 1) {
      SwapKeepsSinkInv(o, s, j, i);
      SinkStep(o, s, j);
      SinkSorts(o, Swap(s, j, j - 1), j - 1, i);
    } else {
      SinkStop(o, s, j);
      StoppedSinkSorted(o, s, j, i);
    }
  }

  lemma {:induction false} SortFromSorts(o: Order, s: seq<Contract>, i: nat)
    requires KeyOrder(o) && 0 < i <= |s| && SortedUpTo(o, s, i)
    ensures SortedUpTo(o, SortFrom(o, s, i), |s|)
    decreases |s| - i
  {
    if i < |s| {
      SinkSorts(o, s, i, i);
      SortFromStep(o, s, i);
      SortFromSorts(o, Sink(o, s, i), i + 1);
    }
  }

  /** With a comparator on the elements, the result is sorted by non-increasing key. */
  lemma InsertionSortSorts(o: Order, s: seq<Contract>)
    requires KeyOrder(o)
    ensures var r := InsertionSort(o, s);
      forall a, b :: 0 <= a < b < |r| ==> KeyOf(o, r[a]) >= KeyOf(o, r[b])
  {
    if |s| > 0 {
      var r := InsertionSort(o, s);
      SortFromSorts(o, s, 1);
      forall a, b | 0 <= a < b < |r|
        ensures KeyOf(o, r[a]) >= KeyOf(o, r[b])
      {
        assert InOrder(o, r, a, b);
      }
    }
  }

  /** The head of a key-sorted non-empty result carries the largest key of the input. */
  lemma HeadIsMaximal(o: Order, s: seq<Contract>)
    requires KeyOrder(o) && |s| > 0
    ensures var r := InsertionSort(o, s);
      r[0] in s && forall c :: c in s ==> KeyOf(o, r[0]) >= KeyOf(o, c)
  {
    var r := InsertionSort(o, s);
    InsertionSortSorts(o, s);
    assert r[0] in multiset(r);
    forall c | c in s
      ensures KeyOf(o, r[0]) >= KeyOf(o, c)
    {
      assert c in multiset(s);
      assert c in multiset(r);
      var b :| 0 <= b < |r| && r[b] == c;
      if b > 0 {
        assert KeyOf(o, r[0]) >= KeyOf(o, r[b]);
      }
    }
  }

  /** sort.Slice on a slice backed by an array: sorted in place, as InsertionSort describes. */
  method Sort(a: array<Contract>, o: Order)
    modifies a
    ensures a[..] == InsertionSort(o, old(a[..]))
  {
    if a.Length == 0 {
      return;
    }
    ghost var goal := InsertionSort(o, a[..]);
    var i := 1;
    while i < a.Length
      invariant 1 <= i <= a.Length
      invariant SortFrom(o, a[..], i) == goal
      decreases a.Length - i
    {
      ghost var before := a[..];
      SortFromStep(o, before, i);
      SinkInPlace(a, o, i);
      i := i + 1;
    }
  }

  /** The inner loop of the insertion sort: adjacent swaps moving a[j] left. */
  method SinkInPlace(a: array<Contract>, o: Order, j0: nat)
    requires j0 < a.Length
    modifies a
    ensures a[..] == Sink(o, old(a[..]), j0)
  {
    ghost var goal := Sink(o, a[..], j0);
    var j := j0;
    while j > 0 && Less(o, a[..], j, j - 1)
      invariant 0 <= j <= j0
      invariant Sink(o, a[..], j) == goal
      decreases j
    {
      ghost var before := a[..];
      SinkStep(o, before, j);
      a[j], a[j - 1] := a[j - 1], a[j];
      assert a[..] == Swap(before, j, j - 1);
      j := j - 1;
    }
    SinkStop(o, a[..], j);
  }
}
