/** Two ways of dropping repeated values: a merge that collapses equal heads, and a scan that
    keeps first occurrences. */
module DuplicateRemoval {
  import opened MergeLoops
  import opened Order

  // ---------- the collapsing merge ----------

  function Elements(s: seq<int>): set<int> {
    set x | x in s
  }

  /** Merges two runs, writing equal heads once. */
  ghost function Collapsed(xs: seq<int>, ys: seq<int>): (r: seq<int>)
    ensures |r| == |xs| + |ys| - Collisions(xs, ys)
  {
    if xs == [] then ys
    else if ys == [] then xs
    else if xs[0] == ys[0] then [xs[0]] + Collapsed(xs[1..], ys[1..])
    else if xs[0] < ys[0] then [xs[0]] + Collapsed(xs[1..], ys)
    else [ys[0]] + Collapsed(xs, ys[1..])
  }

  ghost function Collisions(xs: seq<int>, ys: seq<int>): (d: nat)
    ensures d <= |xs| && d <= |ys|
  {
    if xs == [] || ys == [] then 0
    else if xs[0] == ys[0] then 1 + Collisions(xs[1..], ys[1..])
    else if xs[0] < ys[0] then Collisions(xs[1..], ys)
    else Collisions(xs, ys[1..])
  }

  lemma ElementsCons(s: seq<int>)
    requires s != []
    ensures Elements(s) == {s[0]} + Elements(s[1..])
    ensures Increasing(s) ==> Increasing(s[1..]) && forall x :: x in Elements(s[1..]) ==> s[0] < x
  {
    assert s == [s[0]] + s[1..];
  }

  lemma IncreasingCons(x: int, s: seq<int>)
    requires Increasing(s) && forall y :: y in Elements(s) ==> x < y
    ensures Increasing([x] + s)
  {
    forall i, j | 0 <= i < j < |s| + 1 ensures ([x] + s)[i] < ([x] + s)[j] {
      assert s[j - 1] in Elements(s);
    }
  }

  lemma CollapsedStep(xs: seq<int>, ys: seq<int>)
    requires xs != [] && ys != []
    ensures
      var x, y := xs[0], ys[0];
      var xs', ys' := if x <= y then xs[1..] else xs, if y <= x then ys[1..] else ys;
      && Collapsed(xs, ys) == [if x <= y then x else y] + Collapsed(xs', ys')
      && Collisions(xs, ys) == (if x == y then 1 else 0) + Collisions(xs', ys')
  {
  }

  /** The values kept are those of both runs, whatever their order. */
  lemma {:induction false} CollapsedElements(xs: seq<int>, ys: seq<int>)
    ensures Elements(Collapsed(xs, ys)) == Elements(xs) + Elements(ys)
  {
    hide Collapsed, Collisions, Elements;
    if xs == [] || ys == [] {
      CollapsedEnd(xs, ys);
    } else {
      var x, y := xs[0], ys[0];
      CollapsedStep(xs, ys);
      ElementsCons(xs);
      ElementsCons(ys);
      var xs', ys' := if x <= y then xs[1..] else xs, if y <= x then ys[1..] else ys;
      CollapsedElements(xs', ys');
      var rest := Collapsed(xs', ys');
      assert Collapsed(xs, ys)[1..] == rest;
      ElementsCons(Collapsed(xs, ys));
    }
  }

  lemma {:induction false} CollapsedIncreasing(xs: seq<int>, ys: seq<int>)
    requires Increasing(xs) && Increasing(ys)
    ensures Increasing(Collapsed(xs, ys))
  {
    hide Collapsed, Collisions, Increasing, Elements;
    if xs == [] || ys == [] {
      CollapsedEnd(xs, ys);
    } else {
      var x, y := xs[0], ys[0];
      CollapsedStep(xs, ys);
      ElementsCons(xs);
      ElementsCons(ys);
      var xs', ys' := if x <= y then xs[1..] else xs, if y <= x then ys[1..] else ys;
      CollapsedIncreasing(xs', ys');
      CollapsedElements(xs', ys');
      IncreasingCons(if x <= y then x else y, Collapsed(xs', ys'));
    }
  }

  lemma {:induction false} CollisionsAreShared(xs: seq<int>, ys: seq<int>)
    requires Increasing(xs) && Increasing(ys)
    ensures Collisions(xs, ys) == |Elements(xs) * Elements(ys)|
  {
    hide Collapsed, Collisions, Increasing, Elements;
    if xs == [] || ys == [] {
      CollapsedEnd(xs, ys);
    } else {
      var x, y := xs[0], ys[0];
      CollapsedStep(xs, ys);
      ElementsCons(xs);
      ElementsCons(ys);
      var xs', ys' := if x <= y then xs[1..] else xs, if y <= x then ys[1..] else ys;
      CollisionsAreShared(xs', ys');
      if x == y {
        SharedHead(x, Elements(xs'), Elements(ys'));
      } else if x < y {
        UnsharedHead(x, Elements(xs'), Elements(ys'));
      } else {
        UnsharedHead(y, Elements(ys'), Elements(xs'));
      }
    }
  }

  lemma CollapsedEnd(xs: seq<int>, ys: seq<int>)
    requires xs == [] || ys == []
    ensures Collapsed(xs, ys) == xs + ys && Collisions(xs, ys) == |Elements(xs) * Elements(ys)|
    ensures Elements(xs + ys) == Elements(xs) + Elements(ys)
    ensures xs + ys == xs || xs + ys == ys
  {
    assert Elements(xs) * Elements(ys) == {};
  }

  lemma SharedHead(x: int, a: set<int>, b: set<int>)
    requires x !in a && x !in b
    ensures |({x} + a) * ({x} + b)| == 1 + |a * b|
  {
    assert ({x} + a) * ({x} + b) == {x} + a * b;
  }

  lemma UnsharedHead(x: int, a: set<int>, b: set<int>)
    requires x !in b
    ensures ({x} + a) * b == a * b && b * ({x} + a) == b * a
  {
  }

  /** Collapsing two strictly increasing runs gives their union, strictly increasing; as many
      places are saved as there are shared values. */
  lemma CollapsedIsUnion(xs: seq<int>, ys: seq<int>)
    requires Increasing(xs) && Increasing(ys)
    ensures Increasing(Collapsed(xs, ys))
    ensures Elements(Collapsed(xs, ys)) == Elements(xs) + Elements(ys)
    ensures |Collapsed(xs, ys)| == |xs| + |ys| - |Elements(xs) * Elements(ys)|
  {
    CollapsedElements(xs, ys);
    CollapsedIncreasing(xs, ys);
    CollisionsAreShared(xs, ys);
  }

  /** The values of `xs` occur in `s` in the same order, each at a place of its own. */
  predicate Inside(xs: seq<int>, s: seq<int>) {
    xs == []
    || (s != [] && ((xs[0] == s[0] && Inside(xs[1..], s[1..])) || Inside(xs, s[1..])))
  }

  lemma {:induction false} InsideItself(xs: seq<int>)
    ensures Inside(xs, xs)
  {
    if xs != [] {
      InsideItself(xs[1..]);
    }
  }

  /** Both runs survive whole and in order, whatever they are: only a value met in both at once
      is written once for the two. */
  lemma {:induction false} CollapsedKeepsRuns(xs: seq<int>, ys: seq<int>)
    ensures Inside(xs, Collapsed(xs, ys)) && Inside(ys, Collapsed(xs, ys))
  {
    hide Collapsed, Collisions;
    if xs == [] || ys == [] {
      CollapsedEnd(xs, ys);
      InsideItself(xs + ys);
    } else {
      var x, y := xs[0], ys[0];
      CollapsedStep(xs, ys);
      var xs', ys' := if x <= y then xs[1..] else xs, if y <= x then ys[1..] else ys;
      CollapsedKeepsRuns(xs', ys');
      var rest := Collapsed(xs', ys');
      assert Collapsed(xs, ys)[0] == (if x <= y then x else y) && Collapsed(xs, ys)[1..] == rest;
    }
  }

  /** `whole` merges the runs, and after `a` and `b` of their values and `dup` collisions the
      rest of it is what is left to merge. */
  ghost predicate Ahead(xs: seq<int>, ys: seq<int>, a: nat, b: nat, dup: nat, whole: seq<int>) {
    && a <= |xs| && b <= |ys| && dup <= a && dup <= b && a + b - dup <= |whole|
    && Collapsed(xs[a..], ys[b..]) == whole[a + b - dup..]
    && Collisions(xs, ys) == dup + Collisions(xs[a..], ys[b..])
  }

  lemma AheadStart(xs: seq<int>, ys: seq<int>)
    ensures Ahead(xs, ys, 0, 0, 0, Collapsed(xs, ys))
  {
    assert xs[0..] == xs && ys[0..] == ys;
  }

  lemma AheadHead(xs: seq<int>, ys: seq<int>, a: nat, b: nat, dup: nat, whole: seq<int>)
    requires a < |xs| && b < |ys| && Ahead(xs, ys, a, b, dup, whole)
    ensures a + b - dup < |whole|
    ensures whole[a + b - dup] == if xs[a] <= ys[b] then xs[a] else ys[b]
    ensures
      var x, y := xs[a], ys[b];
      if x == y then Ahead(xs, ys, a + 1, b + 1, dup + 1, whole)
      else if x < y then Ahead(xs, ys, a + 1, b, dup, whole)
      else Ahead(xs, ys, a, b + 1, dup, whole)
  {
    var p := a + b - dup;
    assert xs[a..][1..] == xs[a + 1..] && ys[b..][1..] == ys[b + 1..];
    assert whole[p + 1..] == whole[p..][1..];
  }

  lemma AheadTail(xs: seq<int>, ys: seq<int>, a: nat, b: nat, dup: nat, whole: seq<int>)
    requires Ahead(xs, ys, a, b, dup, whole) && (a == |xs| || b == |ys|)
    ensures Collisions(xs, ys) == dup && dup <= a && dup <= b
    ensures |whole| == |xs| + |ys| - dup
    ensures forall k :: a <= k < |xs| ==> xs[k] == whole[b - dup + k]
    ensures forall k :: b <= k < |ys| ==> ys[k] == whole[a - dup + k]
  {
    var p := a + b - dup;
    assert whole[p..] == xs[a..] + ys[b..];
    assert |whole[p..]| == |whole| - p;
    forall k | a <= k < |xs| ensures xs[k] == whole[b - dup + k] {
      assert whole[p + (k - a)] == whole[p..][k - a] == xs[a..][k - a];
    }
    forall k | b <= k < |ys| ensures ys[k] == whole[a - dup + k] {
      assert whole[p + (k - b)] == whole[p..][k - b] == ys[b..][k - b];
    }
  }

  /** The first loop. It stops at `l` and `m`, with one run used up and `dup` collisions seen. */
  method CollapseHeads(arr: array<int>, temp: array<int>, left: nat, mid: nat, right: nat)
    returns (l: nat, m: nat, dup: nat)
    requires arr != temp && arr.Length == temp.Length && left < mid <= right < arr.Length
    modifies temp
    ensures left <= l <= mid <= m <= right + 1 && (l == mid || m == right + 1)
    ensures
      var xs, ys := arr[left..mid], arr[mid..right + 1];
      && Ahead(xs, ys, l - left, m - mid, dup, Collapsed(xs, ys))
      && l + m - mid - dup <= left + |Collapsed(xs, ys)|
      && forall k :: left <= k < l + m - mid - dup ==> temp[k] == Collapsed(xs, ys)[k - left]
    ensures forall k :: 0 <= k < temp.Length && !(left <= k < l + m - mid - dup) ==> temp[k] == old(temp[k])
  {
    hide Collapsed, Collisions, Ahead;
    ghost var xs, ys := arr[left..mid], arr[mid..right + 1];
    ghost var whole := Collapsed(xs, ys);
    var pos := left;
    l, m, dup := left, mid, 0;
    AheadStart(xs, ys);
    while l < mid && m <= right
      invariant left <= l <= mid <= m <= right + 1
      invariant pos == l + m - mid - dup && left <= pos <= left + |whole|
      invariant Ahead(xs, ys, l - left, m - mid, dup, whole)
      invariant forall k :: left <= k < pos ==> temp[k] == whole[k - left]
      invariant forall k :: 0 <= k < temp.Length && !(left <= k < pos) ==> temp[k] == old(temp[k])
    {
      AheadHead(xs, ys, l - left, m - mid, dup, whole);
      AheadFits(xs, ys, l - left, m - mid, dup, whole);
      if arr[l] == arr[m] {
        temp[pos] := arr[l];
        l, m, dup := l + 1, m + 1, dup + 1;
      } else if arr[l] < arr[m] {
        temp[pos] := arr[l];
        l := l + 1;
      } else {
        temp[pos] := arr[m];
        m := m + 1;
      }
      pos := pos + 1;
    }
  }

  lemma AheadFits(xs: seq<int>, ys: seq<int>, a: nat, b: nat, dup: nat, whole: seq<int>)
    requires Ahead(xs, ys, a, b, dup, whole)
    ensures dup <= a && dup <= b && a + b - dup <= |whole|
  {
  }

  method FillTemp(arr: array<int>, temp: array<int>, left: nat, mid: nat, right: nat)
    returns (dup: nat)
    requires arr != temp && arr.Length == temp.Length && left < mid <= right < arr.Length
    modifies temp
    ensures dup == Collisions(arr[left..mid], arr[mid..right + 1])
    ensures temp[left..right + 1 - dup] == Collapsed(arr[left..mid], arr[mid..right + 1])
    ensures forall k :: 0 <= k < temp.Length && !(left <= k < right + 1 - dup) ==> temp[k] == old(temp[k])
  {
    hide Collapsed, Collisions, Ahead;
    ghost var xs, ys := arr[left..mid], arr[mid..right + 1];
    ghost var whole := Collapsed(xs, ys);
    var l, m;
    l, m, dup := CollapseHeads(arr, temp, left, mid, right);
    var pos := l + m - mid - dup;
    AheadTail(xs, ys, l - left, m - mid, dup, whole);
    forall k | l <= k < mid ensures arr[k] == whole[pos - left + (k - l)] {
      assert arr[k] == xs[k - left];
    }
    forall k | m <= k < right + 1 ensures arr[k] == whole[pos + (mid - l) - left + (k - m)] {
      assert arr[k] == ys[k - mid];
    }
    CopyRest(arr, temp, l, mid, pos, left, whole);
    CopyRest(arr, temp, m, right + 1, pos + (mid - l), left, whole);
  }

  /** Merges the runs `arr[left..mid]` and `arr[mid..=right]` in place. The collapsed merge
      comes first; the last `dup` places of the range get whatever `temp` had there. */
  method Merge(arr: array<int>, temp: array<int>, left: nat, mid: nat, right: nat)
    returns (dup: nat)
    requires arr != temp && arr.Length == temp.Length && left < mid <= right < arr.Length
    modifies arr, temp
    ensures dup == Collisions(old(arr[left..mid]), old(arr[mid..right + 1]))
    ensures arr[left..right + 1 - dup] == Collapsed(old(arr[left..mid]), old(arr[mid..right + 1]))
    ensures arr[right + 1 - dup..right + 1] == old(temp[right + 1 - dup..right + 1])
    ensures temp[left..right + 1] == arr[left..right + 1]
    ensures forall k :: 0 <= k < arr.Length && !(left <= k <= right) ==>
      arr[k] == old(arr[k]) && temp[k] == old(temp[k])
  {
    hide Collapsed, Collisions;
    dup := FillTemp(arr, temp, left, mid, right);
    ghost var filled := temp[..];
    var i, r := 0, right as int;
    while i < right - left + 1
      invariant 0 <= i <= right - left + 1 && r == right - i
      invariant forall k :: 0 <= k < arr.Length ==>
        arr[k] == if r < k <= right then filled[k] else old(arr[k])
      modifies arr
    {
      arr[r] := temp[r];
      r, i := r - 1, i + 1;
    }
    assert arr[left..right + 1 - dup] == filled[left..right + 1 - dup] == temp[left..right + 1 - dup];
    assert filled[right + 1 - dup..right + 1] == old(temp[right + 1 - dup..right + 1]);
  }

  // ---------- keeping first occurrences ----------

  /** The distinct values of `s`, in the order in which they first occur. */
  function FirstOccurrences(s: seq<int>): (r: seq<int>)
    ensures |r| <= |s|
  {
    if s == [] then []
    else
      var init, last := s[..|s| - 1], s[|s| - 1];
      FirstOccurrences(init) + if last in init then [] else [last]
  }

  /** What the scan keeps: the first value, and then the values that are neither zero nor kept. */
  function Scanned(s: seq<int>): (r: seq<int>)
    ensures |r| <= |s|
  {
    if |s| <= 1 then s
    else
      var init, last := Scanned(s[..|s| - 1]), s[|s| - 1];
      init + if last == 0 || last in init then [] else [last]
  }

  function Zeros(n: nat): (z: seq<int>)
    ensures |z| == n && forall i :: 0 <= i < n ==> z[i] == 0
  {
    seq(n, _ => 0)
  }

  function Padded(s: seq<int>, n: nat): (r: seq<int>)
    requires |s| <= n
    ensures |r| == n && s <= r && forall k :: |s| <= k < n ==> r[k] == 0
  {
    s + Zeros(n - |s|)
  }

  predicate IsFirst(s: seq<int>, k: nat)
    requires k < |s|
  {
    s[k] !in s[..k]
  }

  /** Independent meaning of `FirstOccurrences`: it lists the values at exactly those places
      where a value occurs for the first time, in order of place. */
  lemma {:induction false} FirstOccurrencesPlaces(s: seq<int>) returns (places: seq<nat>)
    ensures |places| == |FirstOccurrences(s)| && Increasing(places)
    ensures forall i :: 0 <= i < |places| ==>
      places[i] < |s| && IsFirst(s, places[i]) && s[places[i]] == FirstOccurrences(s)[i]
    ensures forall k :: 0 <= k < |s| && IsFirst(s, k) ==> k in places
  {
    hide FirstOccurrences, IsFirst;
    if s == [] {
      NoOccurrences();
      places := [];
    } else {
      var init, n := s[..|s| - 1], |s| - 1;
      assert s == init + [s[n]];
      FirstOccurrencesStep(init, s[n]);
      var before := FirstOccurrencesPlaces(init);
      places := before + if s[n] in init then [] else [n];
      forall k | 0 <= k < |s| ensures IsFirst(s, k) <==> if k == n then s[n] !in init else IsFirst(init, k) {
        IsFirstInPrefix(s, k);
      }
    }
  }

  lemma NoOccurrences()
    ensures FirstOccurrences([]) == []
  {
  }

  lemma IsFirstInPrefix(s: seq<int>, k: nat)
    requires k < |s|
    ensures
      var init, n := s[..|s| - 1], |s| - 1;
      IsFirst(s, k) <==> if k == n then s[n] !in init else IsFirst(init, k)
  {
    assert k < |s| - 1 ==> s[..k] == s[..|s| - 1][..k];
  }

  lemma ScannedStep(init: seq<int>, last: int)
    ensures Scanned(init + [last]) ==
      if init == [] then [last]
      else Scanned(init) + if last == 0 || last in Scanned(init) then [] else [last]
  {
    assert (init + [last])[..|init|] == init;
  }

  lemma FirstOccurrencesStep(init: seq<int>, last: int)
    ensures FirstOccurrences(init + [last])
         == FirstOccurrences(init) + if last in init then [] else [last]
  {
    assert (init + [last])[..|init|] == init;
  }

  lemma {:induction false} ScannedElements(s: seq<int>)
    ensures forall x :: x in FirstOccurrences(s) <==> x in s
    ensures forall x :: x in Scanned(s) ==> x in s
  {
    if s != [] {
      ScannedElements(s[..|s| - 1]);
      assert s == s[..|s| - 1] + [s[|s| - 1]];
    }
  }

  /** No new value comes after a zero. */
  predicate NothingNewAfterZero(s: seq<int>) {
    forall i, k :: 0 <= i < k < |s| && s[i] == 0 && s[k] != 0 ==> s[k] in s[..i]
  }

  lemma PrefixNothingNew(s: seq<int>)
    requires s != []
    ensures
      var init, last := s[..|s| - 1], s[|s| - 1];
      NothingNewAfterZero(s)
      <==> NothingNewAfterZero(init) && (last == 0 || last in init || 0 !in init)
  {
    var init, last := s[..|s| - 1], s[|s| - 1];
    if NothingNewAfterZero(s) {
      forall i, k | 0 <= i < k < |init| && init[i] == 0 && init[k] != 0 ensures init[k] in init[..i] {
        assert s[k] in s[..i] && s[..i] == init[..i];
      }
      if last != 0 && 0 in init {
        var i :| 0 <= i < |init| && init[i] == 0;
        assert s[|init|] in s[..i] && s[..i] == init[..i];
      }
    }
    if NothingNewAfterZero(init) && (last == 0 || last in init || 0 !in init) {
      forall i, k | 0 <= i < k < |s| && s[i] == 0 && s[k] != 0 ensures s[k] in s[..i] {
        assert init[i] == 0 && s[..i] == init[..i];
        if k == |init| {
          var m :| 0 <= m < |init| && init[m] == last;
          assert m < i ==> s[..i][m] == last;
        }
      }
    }
  }

  /** Starting from a non-zero value, the scan loses the zero of the first occurrences; that
      shows only if a new value comes after it. */
  lemma {:induction false} ScanAgainstFirst(s: seq<int>)
    requires s != [] && s[0] != 0
    ensures NothingNewAfterZero(s) ==>
      FirstOccurrences(s) == Scanned(s) + if 0 in s then [0] else []
    ensures !NothingNewAfterZero(s) ==>
      exists p :: 0 <= p < |Scanned(s)| && p < |FirstOccurrences(s)|
                  && FirstOccurrences(s)[p] == 0 && Scanned(s)[p] != 0
  {
    hide Scanned, FirstOccurrences, NothingNewAfterZero;
    var init, last := s[..|s| - 1], s[|s| - 1];
    assert s == init + [last];
    ScannedStep(init, last);
    FirstOccurrencesStep(init, last);
    PrefixNothingNew(s);
    ScannedElements(init);
    if |s| == 1 {
      NothingNewAfterNothing(s);
    } else {
      ScanAgainstFirst(init);
      if NothingNewAfterZero(init) && !NothingNewAfterZero(s) {
        assert FirstOccurrences(s)[|Scanned(init)|] == 0 && Scanned(s)[|Scanned(init)|] == last;
      } else if !NothingNewAfterZero(init) {
        var p :| 0 <= p < |Scanned(init)| && p < |FirstOccurrences(init)|
                 && FirstOccurrences(init)[p] == 0 && Scanned(init)[p] != 0;
        assert FirstOccurrences(s)[p] == 0 && Scanned(s)[p] != 0;
      }
    }
  }

  lemma NothingNewAfterNothing(s: seq<int>)
    requires |s| == 1
    ensures NothingNewAfterZero(s) && FirstOccurrences(s) == s
  {
    assert FirstOccurrences(s[..0]) == [];
  }

  lemma {:induction false} ScanFromZero(s: seq<int>)
    requires s != [] && s[0] == 0
    ensures Scanned(s) == FirstOccurrences(s)
  {
    var init, last := s[..|s| - 1], s[|s| - 1];
    if |s| > 1 {
      ScanFromZero(init);
      ScannedElements(init);
    } else {
      assert FirstOccurrences(init) == [];
    }
  }

  function NonZeros(s: seq<int>): (r: seq<int>)
    ensures 0 !in r && forall x :: x in r <==> x in s && x != 0
  {
    if s == [] then []
    else
      var init, last := s[..|s| - 1], s[|s| - 1];
      assert s == init + [last];
      NonZeros(init) + if last == 0 then [] else [last]
  }

  lemma NonZerosStep(init: seq<int>, last: int)
    ensures NonZeros(init + [last]) == NonZeros(init) + if last == 0 then [] else [last]
  {
    assert (init + [last])[..|init|] == init;
  }

  lemma {:induction false} ScanSkipsZeros(s: seq<int>)
    requires s != [] && s[0] != 0
    ensures Scanned(s) == FirstOccurrences(NonZeros(s))
  {
    hide Scanned, FirstOccurrences, NonZeros;
    var init, last := s[..|s| - 1], s[|s| - 1];
    assert s == init + [last];
    ScannedStep(init, last);
    NonZerosStep(init, last);
    if init == [] {
      NoNonZeros();
      NoOccurrences();
      FirstOccurrencesStep([], last);
    } else {
      ScanSkipsZeros(init);
      FirstOccurrencesStep(NonZeros(init), last);
      ScannedElements(NonZeros(init));
      assert last == 0 ==> NonZeros(s) == NonZeros(init) && Scanned(s) == Scanned(init);
    }
  }

  /** What the scan keeps, for every input: the first occurrences, of all values if the first is
      zero and of the others if it is not. */
  lemma ScanKeepsFirstNonZeros(s: seq<int>)
    requires s != []
    ensures Scanned(s) == FirstOccurrences(if s[0] == 0 then s else NonZeros(s))
  {
    hide Scanned, FirstOccurrences, NonZeros;
    if s[0] == 0 {
      ScanFromZero(s);
    } else {
      ScanSkipsZeros(s);
    }
  }

  lemma NoNonZeros()
    ensures NonZeros([]) == []
  {
  }

  lemma PaddedWithZero(a: seq<int>, b: seq<int>, n: nat)
    requires |a| <= n && |b| <= n && (b == a || b == a + [0])
    ensures Padded(a, n) == Padded(b, n)
  {
  }

  lemma PaddedAt(a: seq<int>, n: nat, p: nat)
    requires p < |a| <= n
    ensures Padded(a, n)[p] == a[p]
  {
  }

  /** The zero-padded scan is the zero-padded list of first occurrences exactly when the input
      starts with zero or has no new value after a zero; so always for inputs without zeros. */
  lemma ScanKeepsFirstOccurrencesIff(s: seq<int>)
    requires s != []
    ensures Padded(Scanned(s), |s|) == Padded(FirstOccurrences(s), |s|)
       <==> s[0] == 0 || NothingNewAfterZero(s)
  {
    hide Scanned, FirstOccurrences, Padded, NothingNewAfterZero;
    if s[0] == 0 {
      ScanFromZero(s);
    } else {
      ScanAgainstFirst(s);
      if NothingNewAfterZero(s) {
        PaddedWithZero(Scanned(s), FirstOccurrences(s), |s|);
      } else {
        var p :| 0 <= p < |Scanned(s)| && p < |FirstOccurrences(s)|
                 && FirstOccurrences(s)[p] == 0 && Scanned(s)[p] != 0;
        PaddedAt(Scanned(s), |s|, p);
        PaddedAt(FirstOccurrences(s), |s|, p);
      }
    }
  }

  /** On fifteen values, a value lost to a zero: 2 is new after the zero, so the places differ. */
  lemma ZeroLosesItsPlace()
    ensures
      var s := [1, 0, 2] + Zeros(12);
      Padded(Scanned(s), 15) != Padded(FirstOccurrences(s), 15)
  {
    hide Scanned, FirstOccurrences, Padded;
    var s := [1, 0, 2] + Zeros(12);
    ScanKeepsFirstOccurrencesIff(s);
    assert s[1] == 0 && s[2] != 0 && s[2] !in s[..1];
  }

  method CheckDuplicate(a: array<int>, num: int, count: nat) returns (flag: nat)
    requires count < a.Length
    ensures flag > 0 <==> num in a[..count + 1]
  {
    flag := 0;
    var i := 0;
    while i <= count
      invariant i <= count + 1
      invariant flag > 0 <==> num in a[..i]
    {
      if a[i] == num {
        flag := flag + 1;
      }
      i := i + 1;
    }
  }

  /** For any length, where the program has 15. */
  method RmDuplicate(arr: array<int>) returns (temp: array<int>)
    requires arr.Length >= 1
    ensures fresh(temp)
    ensures temp[..] == Padded(Scanned(arr[..]), arr.Length)
  {
    hide Scanned, Padded;
    temp := new int[arr.Length](_ => 0);
    temp[0] := arr[0];
    var i, j := 1, 1;
    assert arr[..1] == [arr[0]];
    ScannedStep([], arr[0]);
    assert [] + [arr[0]] == [arr[0]];
    while i < arr.Length
      invariant 1 <= j <= i <= arr.Length
      invariant temp[..j] == Scanned(arr[..i])
      invariant forall k :: j <= k < temp.Length ==> temp[k] == 0
    {
      assert arr[..i + 1] == arr[..i] + [arr[i]];
      ScannedStep(arr[..i], arr[i]);
      assert temp[..j + 1] == temp[..j] + [0];
      var dup := CheckDuplicate(temp, arr[i], j);
      if dup > 0 {
        i := i + 1;
      } else {
        temp[j] := arr[i];
        assert temp[..j + 1] == temp[..j] + [arr[i]];
        i, j := i + 1, j + 1;
      }
    }
    assert arr[..arr.Length] == arr[..];
    PaddedIs(Scanned(arr[..]), temp[..]);
  }

  lemma PaddedIs(s: seq<int>, r: seq<int>)
    requires s <= r && forall k :: |s| <= k < |r| ==> r[k] == 0
    ensures r == Padded(s, |r|)
  {
  }
}
