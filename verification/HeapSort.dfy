/** Heap sort in place. */
module HeapSort {
  import opened Order

  /** The places from `lo` to `hi` are in order. */
  predicate SortedIn(s: seq<int>, lo: nat, hi: nat)
    requires hi <= |s|
  {
    forall i, j :: lo <= i < j < hi ==> s[i] <= s[j]
  }

  function Swapped(s: seq<int>, i: nat, j: nat): (t: seq<int>)
    requires i < |s| && j < |s|
    ensures |t| == |s|
  {
    s[i := s[j]][j := s[i]]
  }

  function Largest(s: seq<int>, i: nat, n: nat): (k: nat)
    requires i < n <= |s|
    ensures k < n && (k == i || k == 2 * i + 1 || k == 2 * i + 2)
    ensures s[i] <= s[k]
    ensures 2 * i + 1 < n ==> s[2 * i + 1] <= s[k]
    ensures 2 * i + 2 < n ==> s[2 * i + 2] <= s[k]
  {
    var l, r := 2 * i + 1, 2 * i + 2;
    var m := if l < n && s[l] > s[i] then l else i;
    if r < n && s[r] > s[m] then r else m
  }

  /** Lets the value at `i` sink through the larger child, within the first `n` places. */
  function Heapified(s: seq<int>, i: nat, n: nat): (t: seq<int>)
    requires n <= |s|
    ensures |t| == |s|
    decreases n - i
  {
    if i >= n then s
    else
      var k := Largest(s, i, n);
      if k == i then s else Heapified(Swapped(s, k, i), k, n)
  }

  // ---------- the heap property ----------

  /** Node `k` is not smaller than its children. */
  predicate NodeOk(s: seq<int>, k: nat, n: nat)
    requires n <= |s|
  {
    && (2 * k + 1 < n ==> s[k] >= s[2 * k + 1])
    && (2 * k + 2 < n ==> s[k] >= s[2 * k + 2])
  }

  predicate HeapFrom(s: seq<int>, lo: nat, n: nat)
    requires n <= |s|
  {
    forall k :: lo <= k < n ==> NodeOk(s, k, n)
  }

  /** A heap from `lo` on, but for node `i`, whose children its parent still dominates. */
  predicate HeapBut(s: seq<int>, lo: nat, i: nat, n: nat)
    requires n <= |s|
  {
    && (forall k :: lo <= k < n && k != i ==> NodeOk(s, k, n))
    && (i > 0 && lo <= (i - 1) / 2 ==>
          var p := (i - 1) / 2;
          && (2 * i + 1 < n ==> s[p] >= s[2 * i + 1])
          && (2 * i + 2 < n ==> s[p] >= s[2 * i + 2]))
  }

  /** Sinking one step keeps the exception to one node, one level down. */
  lemma SinkOne(s: seq<int>, lo: nat, i: nat, n: nat)
    requires lo <= i < n <= |s| && HeapBut(s, lo, i, n)
    ensures
      var k := Largest(s, i, n);
      if k == i then HeapFrom(s, lo, n)
      else k > i && HeapBut(Swapped(s, k, i), lo, k, n)
  {
    var c := Largest(s, i, n);
    if c == i {
      forall k | lo <= k < n ensures NodeOk(s, k, n) {
      }
    } else {
      var t := Swapped(s, c, i);
      assert (c - 1) / 2 == i;
      forall k | lo <= k < n && k != c ensures NodeOk(t, k, n) {
        if k != i {
          assert NodeOk(s, k, n);
        }
      }
      assert NodeOk(s, c, n);
    }
  }

  lemma {:induction false} HeapifyRestores(s: seq<int>, lo: nat, i: nat, n: nat)
    requires lo <= i && n <= |s| && HeapBut(s, lo, i, n)
    ensures HeapFrom(Heapified(s, i, n), lo, n)
    decreases n - i
  {
    if i < n {
      SinkOne(s, lo, i, n);
      var k := Largest(s, i, n);
      if k != i {
        HeapifyRestores(Swapped(s, k, i), lo, k, n);
      }
    }
  }

  /** Sinking permutes the first `n` places and leaves the others; any bound on the values
      there stays one. */
  lemma {:induction false} HeapifyPermutes(s: seq<int>, i: nat, n: nat, cap: int)
    requires n <= |s|
    ensures
      var t := Heapified(s, i, n);
      && multiset(t) == multiset(s)
      && t[n..] == s[n..]
      && ((forall k :: 0 <= k < n ==> s[k] <= cap) ==> forall k :: 0 <= k < n ==> t[k] <= cap)
    decreases n - i
  {
    if i < n {
      var k := Largest(s, i, n);
      if k != i {
        HeapifyPermutes(Swapped(s, k, i), k, n, cap);
        SwapPermutes(s, k, i);
        assert Swapped(s, k, i)[n..] == s[n..];
      }
    }
  }

  lemma SwapPermutes(s: seq<int>, i: nat, j: nat)
    requires i < |s| && j < |s|
    ensures multiset(Swapped(s, i, j)) == multiset(s)
  {
  }

  lemma {:induction false} RootIsLargest(s: seq<int>, n: nat, k: nat)
    requires k < n <= |s| && HeapFrom(s, 0, n)
    ensures s[k] <= s[0]
    decreases k
  {
    if k > 0 {
      RootIsLargest(s, n, (k - 1) / 2);
      assert NodeOk(s, (k - 1) / 2, n);
    }
  }

  // ---------- building and sorting ----------

  function HeapBuilt(s: seq<int>, i: nat, n: nat): (t: seq<int>)
    requires n <= |s|
    ensures |t| == |s|
    decreases i
  {
    var t := Heapified(s, i, n);
    if i == 0 then t else HeapBuilt(t, i - 1, n)
  }

  /** Repeatedly moves the root behind the shrinking heap of size `n`. */
  function Drained(s: seq<int>, n: nat): (t: seq<int>)
    requires n <= |s|
    ensures |t| == |s|
    decreases n
  {
    if n < 2 then s
    else Drained(Heapified(Swapped(s, 0, n - 1), 0, n - 1), n - 1)
  }

  lemma {:induction false} BuildMakesHeap(s: seq<int>, i: nat, n: nat)
    requires n <= |s| && HeapFrom(s, i + 1, n)
    ensures HeapFrom(HeapBuilt(s, i, n), 0, n)
    ensures multiset(HeapBuilt(s, i, n)) == multiset(s) && HeapBuilt(s, i, n)[n..] == s[n..]
    decreases i
  {
    HeapifyRestores(s, i, i, n);
    HeapifyPermutes(s, i, n, 0);
    if i > 0 {
      BuildMakesHeap(Heapified(s, i, n), i - 1, n);
    }
  }

  /** No value in the first `n` places is above one in the places from `n` to `m`. */
  predicate Below(s: seq<int>, n: nat, m: nat)
    requires n <= m <= |s|
  {
    forall j, k :: 0 <= j < n <= k < m ==> s[j] <= s[k]
  }

  /** A heap of size `n`, not above the sorted places from `n` to `m`. */
  predicate Draining(s: seq<int>, n: nat, m: nat)
    requires n <= m <= |s|
  {
    HeapFrom(s, 0, n) && SortedIn(s, n, m) && Below(s, n, m)
  }

  lemma SwapRootOut(s: seq<int>, n: nat, m: nat)
    requires 2 <= n <= m <= |s| && Draining(s, n, m)
    ensures
      var u := Swapped(s, 0, n - 1);
      HeapBut(u, 0, 0, n - 1) && SortedIn(u, n - 1, m) && Below(u, n - 1, m)
  {
    hide Largest;
    var u, size := Swapped(s, 0, n - 1), n - 1;
    forall k | 0 <= k < n ensures s[k] <= s[0] {
      RootIsLargest(s, n, k);
    }
    forall k | 0 <= k < size && k != 0 ensures NodeOk(u, k, size) {
      assert NodeOk(s, k, n);
    }
  }

  /** Sinking the new root keeps what lies behind the heap, and keeps the heap below it. */
  lemma SinkKeepsBelow(u: seq<int>, n: nat, m: nat)
    requires n <= m <= |u| && SortedIn(u, n, m) && Below(u, n, m)
    ensures
      var t := Heapified(u, 0, n);
      SortedIn(t, n, m) && Below(t, n, m) && t[m..] == u[m..]
  {
    hide Heapified;
    var t := Heapified(u, 0, n);
    HeapifyPermutes(u, 0, n, 0);
    assert forall k :: n <= k < |u| ==> t[k] == t[n..][k - n] == u[n..][k - n] == u[k];
    forall k | n <= k < m ensures forall j :: 0 <= j < n ==> t[j] <= t[k] {
      HeapifyPermutes(u, 0, n, u[k]);
    }
  }

  lemma SwapInside(s: seq<int>, i: nat, j: nat, m: nat)
    requires i < m <= |s| && j < m
    ensures Swapped(s, i, j)[m..] == s[m..]
  {
  }

  lemma DrainOne(s: seq<int>, n: nat, m: nat)
    requires 2 <= n <= m <= |s| && Draining(s, n, m)
    ensures
      var t := Heapified(Swapped(s, 0, n - 1), 0, n - 1);
      Draining(t, n - 1, m) && multiset(t) == multiset(s) && t[m..] == s[m..]
  {
    hide Heapified, Swapped, SortedIn, Below, HeapBut, HeapFrom, NodeOk;
    var u := Swapped(s, 0, n - 1);
    SwapPermutes(s, 0, n - 1);
    SwapInside(s, 0, n - 1, m);
    SwapRootOut(s, n, m);
    HeapifyRestores(u, 0, 0, n - 1);
    HeapifyPermutes(u, 0, n - 1, 0);
    SinkKeepsBelow(u, n - 1, m);
  }

  lemma {:induction false} DrainSorts(s: seq<int>, n: nat, m: nat)
    requires n <= m <= |s| && Draining(s, n, m)
    ensures SortedIn(Drained(s, n), 0, m)
    ensures multiset(Drained(s, n)) == multiset(s) && Drained(s, n)[m..] == s[m..]
    decreases n
  {
    hide Heapified;
    if n >= 2 {
      DrainOne(s, n, m);
      DrainSorts(Heapified(Swapped(s, 0, n - 1), 0, n - 1), n - 1, m);
    }
  }

  // ---------- the program ----------

  method MaxHeapify(a: array<int>, i: nat, n: nat)
    requires n <= a.Length
    modifies a
    ensures a[..] == Heapified(old(a[..]), i, n)
    decreases n - i
  {
    hide Heapified;
    ghost var s := a[..];
    HeapifiedStep(s, i, n);
    var l, r, largest := 2 * i + 1, 2 * i + 2, i;
    if l < n && a[l] > a[i] {
      largest := l;
    }
    if r < n && a[r] > a[largest] {
      largest := r;
    }
    if largest != i {
      a[largest], a[i] := a[i], a[largest];
      assert a[..] == Swapped(s, largest, i);
      MaxHeapify(a, largest, n);
    }
  }

  lemma HeapifiedStep(s: seq<int>, i: nat, n: nat)
    requires n <= |s|
    ensures Heapified(s, i, n) ==
      if i < n && Largest(s, i, n) != i
      then Heapified(Swapped(s, Largest(s, i, n), i), Largest(s, i, n), n)
      else s
  {
  }

  method BuildMaxHeap(a: array<int>, n: nat)
    requires n <= a.Length
    modifies a
    ensures a[..] == HeapBuilt(old(a[..]), n / 2, n)
    ensures HeapFrom(a[..], 0, n)
    ensures multiset(a[..]) == multiset(old(a[..])) && a[n..] == old(a[n..])
  {
    BuildMakesHeap(a[..], n / 2, n);
    var i: int := n / 2;
    while i >= 0
      invariant -1 <= i <= n / 2
      invariant HeapBuilt(old(a[..]), n / 2, n) == if i < 0 then a[..] else HeapBuilt(a[..], i, n)
    {
      MaxHeapify(a, i, n);
      i := i - 1;
    }
    assert a[n..] == a[..][n..];
  }

  /** Sorts the first `n` elements and leaves the rest of the array. */
  method Heapsort(a: array<int>, n: nat)
    requires n <= a.Length
    modifies a
    ensures Sorted(a[..n])
    ensures multiset(a[..]) == multiset(old(a[..])) && a[n..] == old(a[n..])
  {
    hide Heapified, Drained, HeapBuilt, HeapFrom;
    BuildMaxHeap(a, n);
    ghost var heap := a[..];
    DrainSorts(heap, n, n);
    var i, size: nat := n as int - 1, n;
    while i >= 1
      invariant size <= n && size == (if n == 0 then 0 else i + 1)
      invariant Drained(a[..], size) == Drained(heap, n)
    {
      ghost var s := a[..];
      DrainedStep(s, size);
      a[i], a[0] := a[0], a[i];
      assert a[..] == Swapped(s, 0, i);
      size := size - 1;
      MaxHeapify(a, 0, size);
      i := i - 1;
    }
    DrainedEnd(a[..], size);
    assert a[n..] == a[..][n..] && a[..n] == a[..][..n];
  }

  lemma DrainedStep(s: seq<int>, n: nat)
    requires 2 <= n <= |s|
    ensures Drained(s, n) == Drained(Heapified(Swapped(s, 0, n - 1), 0, n - 1), n - 1)
  {
  }

  lemma DrainedEnd(s: seq<int>, n: nat)
    requires n < 2 && n <= |s|
    ensures Drained(s, n) == s
  {
  }
}
