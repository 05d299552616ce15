/** A chained hash table of C strings that represents a set. */
module HashTable {

  /** A `char` of a C string: signed, and not the terminator. */
  type CChar = c: int | -128 <= c < 128 && c != 0 witness 1
  type CString = seq<CChar>

  /** One chain per bucket, the newest string first. */
  type Chains = seq<seq<CString>>

  datatype Code = SUCCESS | STR_EXISTS

  const WORD: int := 0x1_0000_0000

  // ---------- the hash ----------

  /** The polynomial in 31 that the hash is meant to be, over the integers. */
  ghost function Polynomial(str: CString): int {
    if str == [] then 0 else 31 * Polynomial(str[..|str| - 1]) + str[|str| - 1]
  }

  ghost function Power(b: int, n: nat): int {
    if n == 0 then 1 else b * Power(b, n - 1)
  }

  /** Each character times 31 to the power of the number of characters behind it. */
  ghost function Powers(str: CString): int {
    if str == [] then 0 else str[0] * Power(31, |str| - 1) + Powers(str[1..])
  }

  lemma {:induction false} PowersMore(str: CString, c: CChar)
    ensures Powers(str + [c]) == 31 * Powers(str) + c
  {
    if str == [] {
      assert str + [c] == [c] && Power(31, 0) == 1;
    } else {
      assert (str + [c])[1..] == str[1..] + [c];
      PowersMore(str[1..], c);
      assert Power(31, |str|) == 31 * Power(31, |str| - 1);
      TimesThirtyOne(str[0], Power(31, |str| - 1));
    }
  }

  lemma TimesThirtyOne(c: int, p: int)
    ensures c * (31 * p) == 31 * (c * p)
  {
  }

  /** The polynomial weighs every character by its place. */
  lemma {:induction false} PolynomialIsPowers(str: CString)
    ensures Polynomial(str) == Powers(str)
  {
    if str != [] {
      var init, last := str[..|str| - 1], str[|str| - 1];
      PolynomialIsPowers(init);
      PowersMore(init, last);
      assert str == init + [last];
    }
  }

  ghost function Bucket(str: CString, size: nat): (b: nat)
    requires size >= 1
    ensures b < size
  {
    (Polynomial(str) % WORD) % size
  }

  lemma ModUnique(a: int, b: int, q: int)
    requires a == b + q * WORD
    ensures a % WORD == b % WORD
  {
    var m := b / WORD;
    assert b == m * WORD + b % WORD;
    assert a == (m + q) * WORD + b % WORD;
  }

  /** Shifting left by five and subtracting, in 32-bit words, multiplies by 31. */
  lemma ShiftAndSubtract(p: int, h: int, c: int)
    requires h == p % WORD
    ensures (c + ((h * 32) % WORD - h) % WORD) % WORD == (31 * p + c) % WORD
  {
    var shifted := (h * 32) % WORD;
    var less := (shifted - h) % WORD;
    var q1, q2, q3 := (h * 32) / WORD, (shifted - h) / WORD, p / WORD;
    assert h * 32 == q1 * WORD + shifted;
    assert shifted - h == q2 * WORD + less;
    assert p == q3 * WORD + h;
    assert 31 * p + c == (c + less) + (31 * q3 + q1 + q2) * WORD;
    ModUnique(31 * p + c, c + less, 31 * q3 + q1 + q2);
  }

  method Hash(size: nat, str: CString) returns (b: nat)
    requires size >= 1
    ensures b == (Powers(str) % 0x1_0000_0000) % size == Bucket(str, size)
  {
    var hashval := 0;
    var i := 0;
    while i < |str|
      invariant i <= |str| && hashval == Polynomial(str[..i]) % WORD
    {
      assert str[..i + 1][..i] == str[..i];
      ShiftAndSubtract(Polynomial(str[..i]), hashval, str[i]);
      hashval := (str[i] + ((hashval * 32) % WORD - hashval) % WORD) % WORD;
      i := i + 1;
    }
    assert str[..|str|] == str;
    PolynomialIsPowers(str);
    b := hashval % size;
  }

  // ---------- chains as a set ----------

  ghost predicate Member(chains: Chains, str: CString) {
    exists b :: 0 <= b < |chains| && str in chains[b]
  }

  /** Every string sits in its own bucket, once. */
  ghost predicate Valid(chains: Chains) {
    && |chains| >= 1
    && (forall b, k :: 0 <= b < |chains| && 0 <= k < |chains[b]| ==>
          Bucket(chains[b][k], |chains|) == b)
    && (forall b, j, k :: 0 <= b < |chains| && 0 <= j < k < |chains[b]| ==>
          chains[b][j] != chains[b][k])
  }

  ghost function Added(chains: Chains, str: CString): (r: (Chains, Code))
    requires |chains| >= 1
    ensures |r.0| == |chains|
  {
    var b := Bucket(str, |chains|);
    if str in chains[b] then (chains, STR_EXISTS)
    else (chains[b := [str] + chains[b]], SUCCESS)
  }

  lemma MemberInBucket(chains: Chains, str: CString)
    requires Valid(chains)
    ensures Member(chains, str) <==> str in chains[Bucket(str, |chains|)]
  {
    if Member(chains, str) {
      var b :| 0 <= b < |chains| && str in chains[b];
      var k :| 0 <= k < |chains[b]| && chains[b][k] == str;
    }
  }

  function Stored(chains: Chains): nat {
    if chains == [] then 0 else |chains[0]| + Stored(chains[1..])
  }

  lemma {:induction false} StoredUpdate(chains: Chains, b: nat, chain: seq<CString>)
    requires b < |chains|
    ensures Stored(chains[b := chain]) + |chains[b]| == Stored(chains) + |chain|
  {
    if b > 0 {
      assert chains[b := chain][1..] == chains[1..][b - 1 := chain];
      StoredUpdate(chains[1..], b - 1, chain);
    } else {
      assert chains[b := chain][1..] == chains[1..];
    }
  }

  /** Putting a new string at the head of its own chain. */
  lemma PrependedAdds(chains: Chains, b: nat, str: CString)
    requires Valid(chains) && b == Bucket(str, |chains|) && str !in chains[b]
    ensures
      var after := chains[b := [str] + chains[b]];
      && Valid(after)
      && forall x :: Member(after, x) <==> x == str || Member(chains, x)
  {
    hide Bucket;
    var after := chains[b := [str] + chains[b]];
    forall x ensures Member(after, x) <==> x == str || Member(chains, x) {
      if i :| 0 <= i < |chains| && x in chains[i] {
        assert x in after[i];
      }
      if x == str {
        assert x in after[b];
      }
      if i :| 0 <= i < |after| && x in after[i] {
        assert x == str || x in chains[i];
      }
    }
  }

  /** Adding makes exactly that string a member, and stores it only if it was not one. */
  lemma AddedAdds(chains: Chains, str: CString)
    requires Valid(chains)
    ensures
      var (after, code) := Added(chains, str);
      && Valid(after) && |after| == |chains|
      && (code == STR_EXISTS <==> Member(chains, str))
      && (forall x :: Member(after, x) <==> x == str || Member(chains, x))
      && Stored(after) == Stored(chains) + (if code == SUCCESS then 1 else 0)
      && (code == STR_EXISTS ==> after == chains)
      && (code == SUCCESS ==>
            exists b :: 0 <= b < |chains| && after == chains[b := [str] + chains[b]])
  {
    hide Bucket, Stored, Member;
    var b := Bucket(str, |chains|);
    MemberInBucket(chains, str);
    if str !in chains[b] {
      PrependedAdds(chains, b, str);
      StoredUpdate(chains, b, [str] + chains[b]);
    }
  }

  ghost function AddedAll(chains: Chains, strs: seq<CString>): (r: (Chains, seq<Code>))
    requires |chains| >= 1
    ensures |r.0| == |chains| && |r.1| == |strs|
  {
    if strs == [] then (chains, [])
    else
      var n := |strs| - 1;
      var (before, codes) := AddedAll(chains, strs[..n]);
      var (after, code) := Added(before, strs[n]);
      (after, codes + [code])
  }

  ghost function Empty(size: nat): (r: Chains)
    ensures |r| == size
  {
    seq(size, _ => [])
  }

  lemma {:induction false} StoredEmpty(size: nat)
    ensures Stored(Empty(size)) == 0
  {
    if size > 0 {
      assert Empty(size)[1..] == Empty(size - 1);
      StoredEmpty(size - 1);
    }
  }

  function Values(strs: seq<CString>): set<CString> {
    set x | x in strs
  }

  lemma DistinctStep(init: seq<CString>, last: CString)
    ensures |Values(init + [last])| == |Values(init)| + if last in init then 0 else 1
  {
    assert Values(init + [last]) == Values(init) + {last};
  }

  lemma EmptyTable(size: nat)
    requires size >= 1
    ensures |Empty(size)| == size && |Values([])| == 0
    ensures Valid(Empty(size)) && Stored(Empty(size)) == 0 && forall x :: !Member(Empty(size), x)
  {
    StoredEmpty(size);
  }

  /** Over any sequence of additions to an empty table: the members are exactly the strings
      added, an addition reports an existing string exactly when that string came before, and
      as many strings are stored as there are distinct ones. */
  lemma {:induction false} TableIsSetOfAdded(size: nat, strs: seq<CString>)
    requires size >= 1
    ensures
      var (chains, codes) := AddedAll(Empty(size), strs);
      && Valid(chains) && |chains| == size
      && (forall x :: Member(chains, x) <==> x in strs)
      && (forall k :: 0 <= k < |strs| ==> (codes[k] == STR_EXISTS <==> strs[k] in strs[..k]))
      && Stored(chains) == |Values(strs)|
  {
    hide Added, AddedAll, Valid, Stored, Member, Bucket, Values, Empty;
    if strs == [] {
      EmptyTable(size);
      AddedNone(Empty(size));
    } else {
      var n := |strs| - 1;
      var init, last := strs[..n], strs[n];
      assert strs == init + [last];
      TableIsSetOfAdded(size, init);
      var (before, codes) := AddedAll(Empty(size), init);
      AddedOne(Empty(size), init, last);
      AddedAdds(before, last);
      forall k | 0 <= k < n ensures strs[..k] == init[..k] && strs[k] == init[k] {
      }
      DistinctStep(init, last);
    }
  }

  lemma AddedNone(chains: Chains)
    requires |chains| >= 1
    ensures AddedAll(chains, []) == (chains, [])
  {
  }

  lemma AddedOne(chains: Chains, init: seq<CString>, last: CString)
    requires |chains| >= 1
    ensures
      var (before, codes) := AddedAll(chains, init);
      var (after, code) := Added(before, last);
      AddedAll(chains, init + [last]) == (after, codes + [code])
  {
    assert (init + [last])[..|init|] == init;
  }

  // ---------- the table ----------

  /** An element of a chain, or none. */
  datatype Element = None | At(bucket: nat, place: nat)

  ghost predicate Holds(chains: Chains, b: int, k: int, str: CString) {
    0 <= b < |chains| && 0 <= k < |chains[b]| && chains[b][k] == str
  }

  lemma HeldOnce(chains: Chains, str: CString)
    requires Valid(chains)
    ensures forall b, c, k, l :: Holds(chains, b, k, str) && Holds(chains, c, l, str) ==> b == c && k == l
  {
    hide Bucket;
    forall b, c, k, l | Holds(chains, b, k, str) && Holds(chains, c, l, str) ensures b == c && k == l {
      assert Bucket(chains[b][k], |chains|) == b;
      assert Bucket(chains[c][l], |chains|) == c;
    }
  }

  /** A table of the given size with all its buckets empty, or none for a size below one. */
  method HashTableCreate(tableSize: int) returns (t: Table?)
    ensures t == null <==> tableSize < 1
    ensures t != null ==> fresh(t) && fresh(t.table) && t.Ok() && t.size == tableSize
                          && t.table[..] == Empty(tableSize)
  {
    if tableSize < 1 {
      return null;
    }
    t := new Table(tableSize);
  }

  class Table {
    const size: nat
    const table: array<seq<CString>>

    ghost predicate Ok()
      reads table
    {
      table.Length == size && Valid(table[..])
    }

    constructor (size: nat)
      requires size >= 1
      ensures Ok() && this.size == size && table[..] == Empty(size)
      ensures fresh(table)
    {
      this.size := size;
      this.table := new seq<CString>[size](_ => []);
    }

    /** The element of the chain that holds the string, if there is one. */
    method LookupString(str: CString) returns (r: Element)
      requires Ok()
      ensures r.At? <==> Member(table[..], str)
      ensures r.At? ==> Holds(table[..], r.bucket, r.place, str)
      ensures r.At? ==> forall b, k :: Holds(table[..], b, k, str) ==> b == r.bucket && k == r.place
    {
      MemberInBucket(table[..], str);
      HeldOnce(table[..], str);
      var b := Hash(size, str);
      var list, i := table[b], 0;
      while i < |list|
        invariant i <= |list| && str !in list[..i]
      {
        if list[i] == str {
          assert Holds(table[..], b, i, str);
          return At(b, i);
        }
        i := i + 1;
      }
      r := None;
    }

    method AddString(str: CString) returns (code: Code)
      requires Ok()
      modifies table
      ensures Ok() && (table[..], code) == Added(old(table[..]), str)
    {
      AddedAdds(table[..], str);
      MemberInBucket(table[..], str);
      ghost var chains := table[..];
      var b := Hash(size, str);
      var found := LookupString(str);
      if found.At? {
        return STR_EXISTS;
      }
      table[b] := [str] + table[b];
      assert table[..] == chains[b := [str] + chains[b]];
      code := SUCCESS;
    }
  }
}
