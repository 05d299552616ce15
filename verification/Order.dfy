/** Orders on sequences, and positions on a ring, shared by several models. */
module Order {

  predicate Sorted(s: seq<int>) {
    forall i, j :: 0 <= i < j < |s| ==> s[i] <= s[j]
  }

  predicate Increasing(s: seq<int>) {
    forall i, j :: 0 <= i < j < |s| ==> s[i] < s[j]
  }
}

/** `n` chopsticks and `n` philosophers round a table. */
module Ring {

  /** The right chopstick of philosopher `i`, and its right neighbour. */
  function Right(n: nat, i: nat): (r: nat)
    requires i < n
    ensures r < n && r == if i + 1 == n then 0 else i + 1
  {
    (i + 1) % n
  }

  /** The philosopher for whom chopstick `j` is the right one. */
  function LeftOf(n: nat, j: nat): (i: nat)
    requires j < n
    ensures i < n && Right(n, i) == j
    ensures n >= 2 ==> i != j
  {
    if j == 0 then n - 1 else j - 1
  }

  lemma LeftOfRight(n: nat, i: nat)
    requires i < n
    ensures LeftOf(n, Right(n, i)) == i
  {
  }
}

/** Adding up how far each of several threads has come. */
module Sums {

  function Sum(xs: seq<nat>): nat {
    if xs == [] then 0 else xs[0] + Sum(xs[1..])
  }

  lemma {:induction false} SumUpdate(xs: seq<nat>, i: nat, x: nat)
    requires i < |xs|
    ensures Sum(xs[i := x]) + xs[i] == Sum(xs) + x
  {
    if i > 0 {
      assert xs[i := x][1..] == xs[1..][i - 1 := x];
      SumUpdate(xs[1..], i - 1, x);
    } else {
      assert xs[i := x][1..] == xs[1..];
    }
  }

  lemma OneMore(cap: nat, n: nat)
    ensures cap * (n + 1) == cap * n + cap
  {
  }

  lemma {:induction false} SumBound(xs: seq<nat>, cap: nat)
    requires forall i :: 0 <= i < |xs| ==> xs[i] <= cap
    ensures Sum(xs) <= cap * |xs|
    ensures (forall i :: 0 <= i < |xs| ==> xs[i] == cap) ==> Sum(xs) == cap * |xs|
  {
    if xs != [] {
      SumBound(xs[1..], cap);
      OneMore(cap, |xs| - 1);
    }
  }
}

/** A loop that two merging programs have in common. */
module MergeLoops {

  /** Either of the two closing loops of a merge: copies what is left of one run, which the
      merge of the two, `whole`, has from there on. */
  method CopyRest(arr: array<int>, temp: array<int>, from: nat, end: nat, pos: nat,
                  ghost left: nat, ghost whole: seq<int>)
    requires arr != temp && from <= end <= arr.Length
    requires left <= pos && pos + (end - from) <= temp.Length && pos + (end - from) <= left + |whole|
    requires forall k :: from <= k < end ==> arr[k] == whole[pos - left + (k - from)]
    requires forall k :: left <= k < pos ==> temp[k] == whole[k - left]
    modifies temp
    ensures forall k :: left <= k < pos + (end - from) ==> temp[k] == whole[k - left]
    ensures forall k :: 0 <= k < temp.Length && !(left <= k < pos + (end - from)) ==>
      temp[k] == old(temp[k])
  {
    var l, p := from, pos;
    while l < end
      invariant from <= l <= end && p - pos == l - from
      invariant forall k :: left <= k < p ==> temp[k] == whole[k - left]
      invariant forall k :: 0 <= k < temp.Length && !(left <= k < p) ==> temp[k] == old(temp[k])
    {
      temp[p] := arr[l];
      p, l := p + 1, l + 1;
    }
  }
}
