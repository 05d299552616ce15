/** Merging two sorted arrays by giving every element its place: the rank computation of one
    thread, and why the places fill the output. */
module ThreadMergeRank {
  import opened Order

  function Below(s: seq<int>, x: int): (c: nat)
    ensures c <= |s|
  {
    if s == [] then 0 else (if s[0] < x then 1 else 0) + Below(s[1..], x)
  }

  lemma {:induction false} BelowAtLeast(s: seq<int>, x: int, m: nat)
    requires Sorted(s) && 0 < m <= |s| && s[m - 1] < x
    ensures Below(s, x) >= m
  {
    if m > 1 {
      BelowAtLeast(s[1..], x, m - 1);
    }
  }

  lemma {:induction false} BelowAtMost(s: seq<int>, x: int, m: nat)
    requires Sorted(s) && m < |s| && x <= s[m]
    ensures Below(s, x) <= m
  {
    if m > 0 {
      BelowAtMost(s[1..], x, m - 1);
    } else if |s| > 1 {
      BelowAtMost(s[1..], x, 0);
    }
  }

  lemma BelowIs(s: seq<int>, x: int, m: nat)
    requires Sorted(s) && m <= |s|
    requires m > 0 ==> s[m - 1] < x
    requires m < |s| ==> x <= s[m]
    ensures Below(s, x) == m
  {
    if m > 0 {
      BelowAtLeast(s, x, m);
    }
    if m < |s| {
      BelowAtMost(s, x, m);
    }
  }

  /** A value strictly between two neighbours does not occur. */
  lemma BetweenIs(s: seq<int>, x: int, m: nat)
    requires Sorted(s) && m <= |s|
    requires m > 0 ==> s[m - 1] < x
    requires m < |s| ==> x < s[m]
    ensures x !in s && Below(s, x) == m
  {
    BelowIs(s, x, m);
    forall i | 0 <= i < |s| ensures s[i] != x {
      if i < m {
        SortedAt(s, i, m - 1);
      } else {
        SortedAt(s, m, i);
      }
    }
  }

  lemma SortedAt(s: seq<int>, i: nat, j: nat)
    requires Sorted(s) && i <= j < |s|
    ensures s[i] <= s[j]
  {
  }

  /** How the search of a thread ends: with a position, in a loop that no longer moves, or
      behind the loop with a stale or unset middle. It falls out of the loop exactly for a
      common value that is only the last of the other array. */
  datatype Search = Position(pos: nat) | Spins | FallsOut

  /** The position a thread computes for `arr1[cnt]` against the other array. */
  method FindPosition(arr1: array<int>, cnt: nat, arr2: array<int>) returns (r: Search)
    requires cnt < arr1.Length && arr2.Length >= 1
    requires Sorted(arr1[..]) && Sorted(arr2[..])
    ensures r.Position? <==> arr1[cnt] !in arr2[..]
    ensures r.Position? ==> r.pos == cnt + Below(arr2[..], arr1[cnt])
    ensures r.Position? ==>
      && cnt <= r.pos <= cnt + arr2.Length
      && (r.pos > cnt ==> arr2[r.pos - cnt - 1] < arr1[cnt])
      && (r.pos < cnt + arr2.Length ==> arr1[cnt] < arr2[r.pos - cnt])
    ensures r.FallsOut? <==>
      && arr1[cnt] == arr2[arr2.Length - 1]
      && (arr2.Length == 1 || arr2[arr2.Length - 2] < arr1[cnt])
  {
    hide Sorted, Below;
    var x := arr1[cnt];
    ghost var b := arr2[..];
    if x < arr2[0] {
      BetweenIs(b, x, 0);
      return Position(cnt);
    } else if x > arr2[arr2.Length - 1] {
      BetweenIs(b, x, |b|);
      return Position(arr2.Length + cnt);
    }
    var lower, upper := 0, arr2.Length - 1;
    while upper > lower
      invariant 0 <= lower <= upper < arr2.Length
      invariant arr2[lower] <= x <= arr2[upper]
      invariant lower > 0 ==> arr2[lower - 1] < x
      invariant upper < arr2.Length - 1 ==> x < arr2[upper]
    {
      var middle := (upper + lower) / 2;
      if x > arr2[middle] && x < arr2[middle + 1] {
        BetweenIs(b, x, middle + 1);
        return Position(cnt + middle + 1);
      } else if x < arr2[middle] {
        upper := middle;
      } else if x > arr2[middle] {
        lower := middle + 1;
      } else {
        assert b[middle] == x;
        SortedAt(b, middle, |b| - 2);
        return Spins;
      }
    }
    assert b[lower] == x;
    r := FallsOut;
  }

  // ---------- the places of all elements ----------

  /** Two non-empty sorted arrays without a common value; either may repeat its own. */
  predicate Inputs(a: seq<int>, b: seq<int>) {
    && a != [] && b != [] && Sorted(a) && Sorted(b)
    && forall i, j :: 0 <= i < |a| && 0 <= j < |b| ==> a[i] != b[j]
  }

  /** The element the `k`-th thread is responsible for. */
  function Element(a: seq<int>, b: seq<int>, k: nat): int
    requires k < |a| + |b|
  {
    if k < |a| then a[k] else b[k - |a|]
  }

  /** The place that thread computes: its index plus what lies below it in the other array. */
  function Place(a: seq<int>, b: seq<int>, k: nat): nat
    requires k < |a| + |b|
  {
    if k < |a| then k + Below(b, a[k]) else k - |a| + Below(a, b[k - |a|])
  }

  lemma {:induction false} BelowMonotone(s: seq<int>, x: int, y: int)
    requires x <= y
    ensures Below(s, x) <= Below(s, y)
  {
    if s != [] {
      BelowMonotone(s[1..], x, y);
    }
  }

  lemma {:induction false} BelowNext(s: seq<int>, x: int)
    requires x !in s
    ensures Below(s, x + 1) == Below(s, x)
  {
    if s != [] {
      assert s == [s[0]] + s[1..];
      BelowNext(s[1..], x);
    }
  }

  /** The place is a rank in both arrays together: all smaller elements come before it, and
      only those and its equals do. */
  lemma PlaceIsRank(a: seq<int>, b: seq<int>, k: nat)
    requires Inputs(a, b) && k < |a| + |b|
    ensures
      var x := Element(a, b, k);
      Below(a, x) + Below(b, x) <= Place(a, b, k) < Below(a, x + 1) + Below(b, x + 1) <= |a| + |b|
  {
    hide Below;
    var x := Element(a, b, k);
    if k < |a| {
      BelowNext(b, x);
      BelowAtMost(a, x, k);
      BelowAtLeast(a, x + 1, k + 1);
    } else {
      BelowNext(a, x);
      BelowAtMost(b, x, k - |a|);
      BelowAtLeast(b, x + 1, k - |a| + 1);
    }
  }

  /** Whether the `k`-th thread's element is to stand before the `l`-th's: the smaller value
      first, and equal ones in the order of the array they share. */
  predicate Before(a: seq<int>, b: seq<int>, k: nat, l: nat)
    requires k < |a| + |b| && l < |a| + |b|
  {
    Element(a, b, k) < Element(a, b, l) || (Element(a, b, k) == Element(a, b, l) && k < l)
  }

  lemma PlacedBefore(a: seq<int>, b: seq<int>, k: nat, l: nat)
    requires Inputs(a, b) && k < |a| + |b| && l < |a| + |b| && Before(a, b, k, l)
    ensures Place(a, b, k) < Place(a, b, l)
  {
    var x, y := Element(a, b, k), Element(a, b, l);
    BelowMonotone(a, x, y);
    BelowMonotone(b, x, y);
    if x < y && k < |a| <= l {
      BelowAtLeast(a, y, k + 1);
      BelowAtMost(b, x, l - |a|);
    } else if x < y && l < |a| <= k {
      BelowAtLeast(b, y, k - |a| + 1);
      BelowAtMost(a, x, l);
    }
  }

  /** Places are ordered as the elements are to stand, and no two threads share one. */
  lemma PlacesOrdered(a: seq<int>, b: seq<int>, k: nat, l: nat)
    requires Inputs(a, b) && k < |a| + |b| && l < |a| + |b|
    ensures Before(a, b, k, l) <==> Place(a, b, k) < Place(a, b, l)
    ensures Place(a, b, k) == Place(a, b, l) <==> k == l
  {
    hide Place, Element, Inputs;
    if Before(a, b, k, l) {
      PlacedBefore(a, b, k, l);
    } else if k != l {
      PlacedBefore(a, b, l, k);
    }
  }

  // ---------- distinct places fill the output ----------

  ghost function Range(n: nat): (r: set<int>)
    ensures |r| == n && forall x :: x in r <==> 0 <= x < n
  {
    if n == 0 then {} else Range(n - 1) + {n - 1}
  }

  ghost function Image(f: seq<int>): (r: set<int>)
    ensures forall x :: x in r <==> x in f
  {
    set x | x in f
  }

  lemma {:induction false} DistinctImage(f: seq<int>)
    requires forall i, j :: 0 <= i < j < |f| ==> f[i] != f[j]
    ensures |Image(f)| == |f|
  {
    if f != [] {
      assert forall i, j :: 0 <= i < j < |f[1..]| ==> f[1..][i] != f[1..][j];
      DistinctImage(f[1..]);
      assert f == [f[0]] + f[1..];
      assert Image(f) == Image(f[1..]) + {f[0]};
      assert f[0] !in Image(f[1..]);
    }
  }

  lemma SubsetOfSameSize(a: set<int>, b: set<int>)
    requires a <= b && |a| == |b|
    ensures a == b
  {
    assert |b - a| == |b| - |a|;
  }

  /** As many distinct places as there are in the output leave none of it empty. */
  lemma DistinctFill(f: seq<int>, p: nat)
    requires forall i, j :: 0 <= i < j < |f| ==> f[i] != f[j]
    requires forall i :: 0 <= i < |f| ==> 0 <= f[i] < |f|
    requires p < |f|
    ensures p in f
  {
    DistinctImage(f);
    SubsetOfSameSize(Image(f), Range(|f|));
  }

  /** Every place of the output belongs to one thread. */
  lemma SomeThreadFor(a: seq<int>, b: seq<int>, p: nat) returns (k: nat)
    requires Inputs(a, b) && p < |a| + |b|
    ensures k < |a| + |b| && Place(a, b, k) == p
  {
    var n := |a| + |b|;
    var f: seq<int> := seq(n, k requires 0 <= k < n => Place(a, b, k));
    forall i | 0 <= i < n ensures f[i] < n {
      PlaceIsRank(a, b, i);
    }
    forall i, j | 0 <= i < j < n ensures f[i] != f[j] {
      PlacesOrdered(a, b, i, j);
    }
    DistinctFill(f, p);
    k :| 0 <= k < n && f[k] == p;
  }

  /** The output in which every element stands at its own place. */
  predicate AllPlaced(a: seq<int>, b: seq<int>, out: seq<int>) {
    && |out| == |a| + |b|
    && forall k :: 0 <= k < |a| + |b| ==>
      Place(a, b, k) < |out| && out[Place(a, b, k)] == Element(a, b, k)
  }

  /** Moving the elements of `from` to distinct places keeps each as often as it occurs. */
  lemma {:induction false} MovedKeepsElements(from: seq<int>, to: seq<int>, place: seq<nat>)
    requires |from| == |to| == |place|
    requires forall k :: 0 <= k < |place| ==> place[k] < |to| && to[place[k]] == from[k]
    requires forall k, l :: 0 <= k < l < |place| ==> place[k] != place[l]
    ensures multiset(to) == multiset(from)
  {
    if from != [] {
      var n := |from| - 1;
      var p := place[n];
      var place': seq<nat> := seq(n, k requires 0 <= k < n => if place[k] > p then place[k] - 1 else place[k]);
      MovedKeepsElements(from[..n], to[..p] + to[p + 1..], place');
      assert from == from[..n] + [from[n]];
      assert to == to[..p] + [to[p]] + to[p + 1..];
    }
  }

  /** Such an output is the sorted merge: in order, with every element of both arrays as often
      as it occurs there. */
  lemma AllPlacedIsMerge(a: seq<int>, b: seq<int>, out: seq<int>)
    requires Inputs(a, b) && AllPlaced(a, b, out)
    ensures Sorted(out)
    ensures multiset(out) == multiset(a) + multiset(b)
  {
    hide Inputs, Place;
    forall p, q | 0 <= p < q < |out| ensures out[p] <= out[q] {
      var k := SomeThreadFor(a, b, p);
      var l := SomeThreadFor(a, b, q);
      PlacesOrdered(a, b, k, l);
    }
    var n := |a| + |b|;
    var place: seq<nat> := seq(n, k requires 0 <= k < n => Place(a, b, k));
    forall k, l | 0 <= k < l < n ensures place[k] != place[l] {
      PlacesOrdered(a, b, k, l);
    }
    MovedKeepsElements(a + b, out, place);
  }
}
