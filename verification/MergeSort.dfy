/** Merge sort in place, with a scratch array that is also the one printed at the end. */
module MergeSort {
  import opened MergeLoops
  import opened Order

  /** Same elements outside a range. */
  ghost predicate SameOutside(a: seq<int>, b: seq<int>, lo: int, hi: int)
    requires |a| == |b|
  {
    forall k :: 0 <= k < |a| && !(lo <= k <= hi) ==> a[k] == b[k]
  }

  /** Two changes inside a range stay inside it. */
  lemma SameOutsideTwice(a: seq<int>, b: seq<int>, c: seq<int>, lo: int, mid: int, hi: int)
    requires |a| == |b| == |c| && lo <= mid <= hi
    requires SameOutside(a, b, lo, mid) && SameOutside(b, c, mid + 1, hi)
    ensures SameOutside(a, c, lo, hi)
  {
  }

  lemma SameOutsideAgain(a: seq<int>, b: seq<int>, c: seq<int>, lo: int, hi: int)
    requires |a| == |b| == |c| && SameOutside(a, b, lo, hi) && SameOutside(b, c, lo, hi)
    ensures SameOutside(a, c, lo, hi)
  {
  }

  /** Merges two runs; on equal heads the right one goes first. */
  ghost function Merged(xs: seq<int>, ys: seq<int>): (r: seq<int>)
    ensures |r| == |xs| + |ys|
  {
    if xs == [] then ys
    else if ys == [] then xs
    else if xs[0] < ys[0] then [xs[0]] + Merged(xs[1..], ys)
    else [ys[0]] + Merged(xs, ys[1..])
  }

  /** Splits after the larger half, sorts both halves and merges them. */
  ghost function MSorted(s: seq<int>): (r: seq<int>)
    ensures |r| == |s|
  {
    if |s| < 2 then s
    else
      var h := (|s| + 1) / 2;
      Merged(MSorted(s[..h]), MSorted(s[h..]))
  }

  lemma ElementsCons(s: seq<int>)
    requires s != []
    ensures multiset(s) == multiset{s[0]} + multiset(s[1..])
  {
    assert s == [s[0]] + s[1..];
  }

  lemma {:induction false} MergedKeepsElements(xs: seq<int>, ys: seq<int>)
    ensures multiset(Merged(xs, ys)) == multiset(xs) + multiset(ys)
  {
    if xs != [] && ys != [] {
      if xs[0] < ys[0] {
        MergedKeepsElements(xs[1..], ys);
        ElementsCons(xs);
      } else {
        MergedKeepsElements(xs, ys[1..]);
        ElementsCons(ys);
      }
    }
  }

  lemma SortedCons(x: int, s: seq<int>)
    requires Sorted(s) && forall y :: y in s ==> x <= y
    ensures Sorted([x] + s)
  {
    forall i, j | 0 <= i < j < |s| + 1 ensures ([x] + s)[i] <= ([x] + s)[j] {
      assert s[j - 1] in s;
    }
  }

  /** `whole` merges the runs, and after `a` and `b` of their values the rest of it is what is
      left to merge. */
  ghost predicate Ahead(xs: seq<int>, ys: seq<int>, a: nat, b: nat, whole: seq<int>) {
    && a <= |xs| && b <= |ys| && |whole| == |xs| + |ys|
    && Merged(xs[a..], ys[b..]) == whole[a + b..]
  }

  lemma AheadStart(xs: seq<int>, ys: seq<int>)
    ensures Ahead(xs, ys, 0, 0, Merged(xs, ys))
  {
    assert xs[0..] == xs && ys[0..] == ys;
  }

  /** What is left to merge starts with the smaller head. */
  lemma AheadHead(xs: seq<int>, ys: seq<int>, a: nat, b: nat, whole: seq<int>)
    requires a < |xs| && b < |ys| && Ahead(xs, ys, a, b, whole)
    ensures a + b < |whole|
    ensures whole[a + b] == if xs[a] < ys[b] then xs[a] else ys[b]
    ensures if xs[a] < ys[b] then Ahead(xs, ys, a + 1, b, whole) else Ahead(xs, ys, a, b + 1, whole)
  {
    assert xs[a..][1..] == xs[a + 1..] && ys[b..][1..] == ys[b + 1..];
    assert whole[a + b + 1..] == whole[a + b..][1..];
  }

  /** Once one run is used up, what is left is the rest of the other. */
  lemma AheadTail(xs: seq<int>, ys: seq<int>, a: nat, b: nat, whole: seq<int>)
    requires Ahead(xs, ys, a, b, whole) && (a == |xs| || b == |ys|)
    ensures |whole| == |xs| + |ys|
    ensures forall k :: a <= k < |xs| ==> xs[k] == whole[b + k]
    ensures forall k :: b <= k < |ys| ==> ys[k] == whole[a + k]
  {
    assert whole[a + b..] == xs[a..] + ys[b..];
    forall k | a <= k < |xs| ensures whole[b + k] == xs[k] {
      assert whole[b + k] == whole[a + b..][k - a];
    }
    forall k | b <= k < |ys| ensures whole[a + k] == ys[k] {
      assert whole[a + k] == whole[a + b..][k - b];
    }
  }

  lemma {:induction false} MergedIsSorted(xs: seq<int>, ys: seq<int>)
    requires Sorted(xs) && Sorted(ys)
    ensures Sorted(Merged(xs, ys))
  {
    if xs != [] && ys != [] {
      var x, y := xs[0], ys[0];
      var (a, b) := if x < y then (xs[1..], ys) else (xs, ys[1..]);
      MergedIsSorted(a, b);
      MergedKeepsElements(a, b);
      var rest := Merged(a, b);
      forall z | z in rest ensures (if x < y then x else y) <= z {
        assert z in multiset(rest);
        assert z in a || z in b;
      }
      SortedCons(if x < y then x else y, rest);
    }
  }

  lemma ShortIsSorted(s: seq<int>)
    requires |s| < 2
    ensures Sorted(s)
  {
  }

  /** The result is in order and has the same elements, each as often. */
  lemma {:induction false} MSortedSorts(s: seq<int>)
    ensures Sorted(MSorted(s)) && multiset(MSorted(s)) == multiset(s)
  {
    hide Merged, Sorted;
    if |s| < 2 {
      ShortIsSorted(s);
    } else {
      var h := (|s| + 1) / 2;
      MSortedSorts(s[..h]);
      MSortedSorts(s[h..]);
      MergedIsSorted(MSorted(s[..h]), MSorted(s[h..]));
      MergedKeepsElements(MSorted(s[..h]), MSorted(s[h..]));
      assert s == s[..h] + s[h..];
    }
  }

  /** The first loop: takes the smaller head until one run is used up, the right one on a tie.
      `l` and `m` are where it stops, and `temp` holds the merge that far. */
  method MergeHeads(numbers: array<int>, temp: array<int>, left: nat, mid: nat, right: nat)
    returns (l: nat, m: nat)
    requires numbers != temp && numbers.Length == temp.Length
    requires left < mid <= right < numbers.Length
    modifies temp
    ensures left <= l <= mid <= m <= right + 1 && (l == mid || m == right + 1)
    ensures
      var xs, ys, done := numbers[left..mid], numbers[mid..right + 1], (l - left) + (m - mid);
      && Ahead(xs, ys, l - left, m - mid, Merged(xs, ys))
      && forall k :: left <= k < left + done ==> temp[k] == Merged(xs, ys)[k - left]
    ensures forall k :: 0 <= k < temp.Length && !(left <= k < l + m - mid) ==> temp[k] == old(temp[k])
  {
    hide Merged, Ahead;
    ghost var xs, ys := numbers[left..mid], numbers[mid..right + 1];
    ghost var whole := Merged(xs, ys);
    AheadStart(xs, ys);
    var pos := left;
    l, m := left, mid;
    while l < mid && m <= right
      invariant left <= l <= mid <= m <= right + 1 && pos == l + m - mid
      invariant Ahead(xs, ys, l - left, m - mid, whole)
      invariant forall k :: left <= k < pos ==> temp[k] == whole[k - left]
      invariant forall k :: 0 <= k < temp.Length && !(left <= k < pos) ==> temp[k] == old(temp[k])
    {
      AheadHead(xs, ys, l - left, m - mid, whole);
      if numbers[l] < numbers[m] {
        temp[pos] := numbers[l];
        l := l + 1;
      } else {
        temp[pos] := numbers[m];
        m := m + 1;
      }
      pos := pos + 1;
    }
  }

  /** The three merging loops: fills `temp[left..=right]` from the two runs. */
  method FillTemp(numbers: array<int>, temp: array<int>, left: nat, mid: nat, right: nat)
    requires numbers != temp && numbers.Length == temp.Length
    requires left < mid <= right < numbers.Length
    modifies temp
    ensures temp[left..right + 1] == Merged(numbers[left..mid], numbers[mid..right + 1])
    ensures forall k :: 0 <= k < temp.Length && !(left <= k <= right) ==> temp[k] == old(temp[k])
  {
    hide Merged, Ahead;
    ghost var xs, ys := numbers[left..mid], numbers[mid..right + 1];
    ghost var whole := Merged(xs, ys);
    var l, m := MergeHeads(numbers, temp, left, mid, right);
    var pos := l + m - mid;
    AheadTail(xs, ys, l - left, m - mid, whole);
    forall k | l <= k < mid ensures numbers[k] == whole[pos - left + (k - l)] {
      assert numbers[k] == xs[k - left];
    }
    forall k | m <= k < right + 1 ensures numbers[k] == whole[pos + (mid - l) - left + (k - m)] {
      assert numbers[k] == ys[k - mid];
    }
    CopyRest(numbers, temp, l, mid, pos, left, whole);
    CopyRest(numbers, temp, m, right + 1, pos + (mid - l), left, whole);
  }

  /** Merges `numbers[left..mid]` and `numbers[mid..=right]` through `temp`. The copy back goes
      one element too far, to `left - 1`; that element is unchanged because `temp` already
      agrees with `numbers` there. When `left` is 0 there is no such element and the model
      makes no copy. */
  method Merge(numbers: array<int>, temp: array<int>, left: nat, mid: nat, right: nat)
    requires numbers != temp && numbers.Length == temp.Length
    requires left < mid <= right < numbers.Length
    requires left > 0 ==> temp[left - 1] == numbers[left - 1]
    modifies numbers, temp
    ensures numbers[left..right + 1]
         == Merged(old(numbers[left..mid]), old(numbers[mid..right + 1]))
    ensures temp[left..right + 1] == numbers[left..right + 1]
    ensures SameOutside(old(numbers[..]), numbers[..], left, right)
    ensures SameOutside(old(temp[..]), temp[..], left, right)
  {
    hide Merged;
    FillTemp(numbers, temp, left, mid, right);
    ghost var filled := temp[..];
    var i, r := 0, right as int;
    while i <= right - left + 1
      invariant 0 <= i <= right - left + 2 && r == right - i
      invariant forall k :: 0 <= k < numbers.Length ==>
        numbers[k] == if r < k <= right then filled[k] else old(numbers[k])
      modifies numbers
    {
      if r >= 0 {
        numbers[r] := temp[r];
      }
      r, i := r - 1, i + 1;
    }
    assert numbers[left..right + 1] == filled[left..right + 1] == temp[left..right + 1];
  }

  lemma MSortedShort(s: seq<int>)
    requires |s| < 2
    ensures MSorted(s) == s
  {
  }

  lemma SameOutsideSelf(a: seq<int>, lo: int, hi: int)
    ensures SameOutside(a, a, lo, hi)
  {
  }

  lemma SameOutsideAt(a: seq<int>, b: seq<int>, lo: int, hi: int, k: nat)
    requires |a| == |b| && SameOutside(a, b, lo, hi) && k < |a| && !(lo <= k <= hi)
    ensures a[k] == b[k]
  {
  }

  lemma MSortedSplit(s: seq<int>, h: nat)
    requires |s| >= 2 && h == (|s| + 1) / 2
    ensures MSorted(s) == Merged(MSorted(s[..h]), MSorted(s[h..]))
  {
  }

  /** Sorting one half and then the other, each leaving the rest alone, leaves two runs whose
      merge is the whole range sorted. */
  lemma Halves(n0: seq<int>, n1: seq<int>, n2: seq<int>, left: nat, mid: nat, right: nat)
    requires left <= mid < right < |n0| == |n1| == |n2| && mid == (right + left) / 2
    requires n1[left..mid + 1] == MSorted(n0[left..mid + 1]) && SameOutside(n0, n1, left, mid)
    requires n2[mid + 1..right + 1] == MSorted(n1[mid + 1..right + 1]) && SameOutside(n1, n2, mid + 1, right)
    ensures Merged(n2[left..mid + 1], n2[mid + 1..right + 1]) == MSorted(n0[left..right + 1])
  {
    hide Merged, MSorted;
    var before, h := n0[left..right + 1], mid + 1 - left;
    MSortedSplit(before, h);
    assert n0[left..mid + 1] == before[..h];
    assert n1[mid + 1..right + 1] == before[h..];
    assert n2[left..mid + 1] == n1[left..mid + 1];
  }

  /** Sorts `numbers[left..=right]`. A range of two or more leaves `temp` equal to it, and a
      range that does not start at 0 needs `temp` to agree just before it. */
  method MSort(numbers: array<int>, temp: array<int>, left: nat, right: int)
    requires numbers != temp && numbers.Length == temp.Length
    requires left <= right + 1 && right < numbers.Length
    requires 0 < left < right ==> temp[left - 1] == numbers[left - 1]
    modifies numbers, temp
    ensures numbers[left..right + 1] == MSorted(old(numbers[left..right + 1]))
    ensures left < right ==> temp[left..right + 1] == numbers[left..right + 1]
    ensures SameOutside(old(numbers[..]), numbers[..], left, right)
    ensures SameOutside(old(temp[..]), temp[..], left, right)
    decreases right - left
  {
    hide Merged, MSorted, SameOutside;
    if right <= left {
      MSortedShort(numbers[left..right + 1]);
      SameOutsideSelf(numbers[..], left, right);
      SameOutsideSelf(temp[..], left, right);
      return;
    }
    var mid := (right + left) / 2;
    ghost var n0, t0 := numbers[..], temp[..];
    MSort(numbers, temp, left, mid);
    ghost var n1, t1 := numbers[..], temp[..];
    assert left < mid ==> temp[mid] == temp[left..mid + 1][mid - left];
    MSort(numbers, temp, mid + 1, right);
    ghost var n2, t2 := numbers[..], temp[..];
    Halves(n0, n1, n2, left, mid, right);
    SameOutsideTwice(n0, n1, n2, left, mid, right);
    SameOutsideTwice(t0, t1, t2, left, mid, right);
    if left > 0 {
      SameOutsideAt(n0, n2, left, right, left - 1);
      SameOutsideAt(t0, t2, left, right, left - 1);
    }
    Merge(numbers, temp, left, mid + 1, right);
    SameOutsideAgain(n0, n2, numbers[..], left, right);
    SameOutsideAgain(t0, t2, temp[..], left, right);
  }

  /** The whole array ends sorted with its own elements, and from two elements on the scratch
      array, which is the one written out, equals it. */
  method Sort(numbers: array<int>, temp: array<int>)
    requires numbers != temp && numbers.Length == temp.Length
    modifies numbers, temp
    ensures Sorted(numbers[..]) && multiset(numbers[..]) == multiset(old(numbers[..]))
    ensures numbers.Length >= 2 ==> temp[..] == numbers[..]
  {
    hide Merged, MSorted, SameOutside;
    MSortedSorts(numbers[..]);
    assert numbers[0..numbers.Length] == numbers[..];
    MSort(numbers, temp, 0, numbers.Length - 1);
    assert numbers[0..numbers.Length] == numbers[..];
    assert temp[0..temp.Length] == temp[..];
  }
}
