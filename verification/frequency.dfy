/** Frequency tables as the report builds them with `mutableMapOf`: a
    LinkedHashMap, modelled as an association list that keeps its keys in
    first-insertion order. */
module Frequency {
  import KotlinInt

  /** One entry of a frequency table: a key and how often it was counted. */
  datatype Entry<K> = Entry(key: K, count: nat)

  /** A frequency table; its iteration order is the order of the list. */
  type Table<K> = seq<Entry<K>>

  predicate Distinct<T(==)>(s: seq<T>)
  {
    forall i, j :: 0 <= i < j < |s| ==> s[i] != s[j]
  }

  /** The keys of a table, in iteration order. */
  function Keys<K>(t: Table<K>): (ks: seq<K>)
    ensures |ks| == |t|
    ensures forall i :: 0 <= i < |t| ==> ks[i] == t[i].key
  {
    if t == [] then [] else [t[0].key] + Keys(t[1..])
  }

  /** A map holds each key at most once. */
  predicate DistinctKeys<K(==)>(t: Table<K>)
  {
    Distinct(Keys(t))
  }

  /** `map.get(key, 0)`: the count stored for `k`, or 0 when `k` is absent. */
  function Get<K(==)>(t: Table<K>, k: K): (n: nat)
    ensures k !in Keys(t) ==> n == 0
  {
    if t == [] then 0 else if t[0].key == k then t[0].count else Get(t[1..], k)
  }

  /** The sum of all counts in a table. */
  function Total<K>(t: Table<K>): nat
  {
    if t == [] then 0 else t[0].count + Total(t[1..])
  }

  /** `map[k] = map.get(k, 0) + 1`. A LinkedHashMap keeps an existing key in
      place and appends a new one at the end. */
  function Increment<K(==)>(t: Table<K>, k: K): (r: Table<K>)
    ensures Keys(r) == if k in Keys(t) then Keys(t) else Keys(t) + [k]
  {
    if t == [] then [Entry(k, 1)]
    else if t[0].key == k then [Entry(k, t[0].count + 1)] + t[1..]
    else
      var rest := Increment(t[1..], k);
      var r := [t[0]] + rest;
      assert r[1..] == rest;
      assert Keys(t) == [t[0].key] + Keys(t[1..]);
      r
  }

  /** Incrementing `k` adds one to its count and to the total, and no other
      count changes. */
  lemma {:induction false} IncrementCounts<K>(t: Table<K>, k: K)
    ensures Get(Increment(t, k), k) == Get(t, k) + 1
    ensures forall x :: x != k ==> Get(Increment(t, k), x) == Get(t, x)
    ensures Total(Increment(t, k)) == Total(t) + 1
  {
    if t != [] && t[0].key != k {
      var rest := Increment(t[1..], k);
      assert Increment(t, k) == [t[0]] + rest;
      assert ([t[0]] + rest)[1..] == rest;
      IncrementCounts(t[1..], k);
    }
  }

  lemma DistinctSnoc<T>(s: seq<T>, x: T)
    requires Distinct(s) && x !in s
    ensures Distinct(s + [x])
  {
  }

  /** The distinct elements of `s`, each at its first occurrence. */
  function Dedup<T(==, !new)>(s: seq<T>): (d: seq<T>)
    ensures Distinct(d)
    ensures forall x :: x in d <==> x in s
  {
    if s == [] then []
    else
      var d := Dedup(s[..|s| - 1]);
      var x := s[|s| - 1];
      assert s == s[..|s| - 1] + [x];
      if x in d then d else d + [x]
  }

  /** The table a left-to-right scan of `ks` builds by counting every element. */
  function Tally<K(==, !new)>(ks: seq<K>): (t: Table<K>)
    ensures Keys(t) == Dedup(ks)
    ensures DistinctKeys(t)
  {
    if ks == [] then []
    else
      var init, last := ks[..|ks| - 1], ks[|ks| - 1];
      assert ks == init + [last];
      var before := Tally(init);
      assert DistinctKeys(Increment(before, last)) by {
        if last !in Keys(before) {
          DistinctSnoc(Keys(before), last);
        }
      }
      Increment(before, last)
  }

  /** Every count in a scan's table is the number of occurrences of its key,
      and the counts add up to the length of the scanned sequence. */
  lemma {:induction false} TallyCounts<K(!new)>(ks: seq<K>)
    ensures Total(Tally(ks)) == |ks|
    ensures forall k :: Get(Tally(ks), k) == multiset(ks)[k]
  {
    if ks != [] {
      var init, last := ks[..|ks| - 1], ks[|ks| - 1];
      assert ks == init + [last];
      TallyCounts(init);
      IncrementCounts(Tally(init), last);
    }
  }

  /** Counting one more element is one more `Increment`. */
  lemma TallySnoc<K(!new)>(ks: seq<K>, k: K)
    ensures Tally(ks + [k]) == Increment(Tally(ks), k)
  {
    assert (ks + [k])[..|ks|] == ks;
  }

  /** Counting a prefix one element longer is one more `Increment`. */
  lemma TallyOneMore<K(!new)>(before: seq<K>, names: seq<K>, m: nat)
    requires m < |names|
    ensures Tally(before + names[..m + 1]) == Increment(Tally(before + names[..m]), names[m])
  {
    assert before + names[..m + 1] == (before + names[..m]) + [names[m]];
    TallySnoc(before + names[..m], names[m]);
  }

  /** The position of the first occurrence of `x` in `s`. */
  function FirstIndex<T(==)>(s: seq<T>, x: T): (i: nat)
    requires x in s
    ensures i < |s| && s[i] == x
    ensures forall j :: 0 <= j < i ==> s[j] != x
  {
    if s[0] == x then 0
    else
      1 + FirstIndex(s[1..], x)
  }

  lemma FirstIndexIs<T>(s: seq<T>, x: T, i: nat)
    requires i < |s| && s[i] == x && x !in s[..i]
    ensures FirstIndex(s, x) == i
  {
  }

  /** Appending elements does not move a first occurrence. */
  lemma FirstIndexOfPrefix<T(!new)>(a: seq<T>, b: seq<T>, x: T)
    requires x in a
    ensures FirstIndex(a + b, x) == FirstIndex(a, x)
  {
    var i := FirstIndex(a, x);
    assert (a + b)[..i] == a[..i];
    FirstIndexIs(a + b, x, i);
  }

  /** `Dedup` lists the distinct elements in the order of their first occurrences. */
  lemma {:induction false} DedupFollowsFirstOccurrence<T(!new)>(s: seq<T>)
    ensures forall i, j :: 0 <= i < j < |Dedup(s)| ==>
      FirstIndex(s, Dedup(s)[i]) < FirstIndex(s, Dedup(s)[j])
  {
    if s != [] {
      var init, x := s[..|s| - 1], s[|s| - 1];
      assert s == init + [x];
      var d0, d := Dedup(init), Dedup(s);
      DedupFollowsFirstOccurrence(init);
      forall i, j | 0 <= i < j < |d|
        ensures FirstIndex(s, d[i]) < FirstIndex(s, d[j])
      {
        assert d[i] == d0[i] && d[i] in d0;
        FirstIndexOfPrefix(init, [x], d[i]);
        if j < |d0| {
          assert d[j] == d0[j] && d[j] in d0;
          FirstIndexOfPrefix(init, [x], d[j]);
        } else {
          assert x !in init && d[j] == x;
          assert s[..|init|] == init;
          FirstIndexIs(s, x, |init|);
        }
      }
    }
  }

  lemma {:induction false} GetAt<K>(t: Table<K>, i: nat)
    requires DistinctKeys(t) && i < |t|
    ensures Get(t, t[i].key) == t[i].count
  {
    if i > 0 {
      assert Keys(t)[0] != Keys(t)[i];
      assert Keys(t[1..]) == Keys(t)[1..];
      GetAt(t[1..], i - 1);
    }
  }

  /** Entry `i` holds the largest count, and every entry before it a strictly smaller one. */
  predicate IsFirstMax<K>(t: Table<K>, i: int)
  {
    && 0 <= i < |t|
    && (forall j :: 0 <= j < |t| ==> t[j].count <= t[i].count)
    && (forall j :: 0 <= j < i ==> t[j].count < t[i].count)
  }

  /** `keyOfMaxValue`: scan the entries in iteration order, replacing the
      candidate only on a strictly larger count; -1 for an empty table. */
  method KeyOfMaxValue(t: Table<int>) returns (maxKey: int)
    ensures t == [] ==> maxKey == -1
    ensures t != [] ==> exists i :: IsFirstMax(t, i) && t[i].key == maxKey
  {
    maxKey := -1;
    var maxValue := KotlinInt.MinValue;
    ghost var at := -1;
    for n := 0 to |t|
      invariant n == 0 ==> maxKey == -1 && maxValue == KotlinInt.MinValue
      invariant n > 0 ==> IsFirstMax(t[..n], at) && maxKey == t[at].key && maxValue == t[at].count
    {
      if t[n].count > maxValue {
        maxKey := t[n].key;
        maxValue := t[n].count;
        at := n;
      }
    }
    if t != [] {
      assert t[..|t|] == t;
    }
  }

  /** The key `KeyOfMaxValue` picks from a tally of `ks` is a most frequent
      element of `ks`, its count is its number of occurrences, and among the
      elements just as frequent it is the one that occurs first. */
  lemma MaxKeyIsFirstMode<K(!new)>(ks: seq<K>, i: int)
    requires IsFirstMax(Tally(ks), i)
    ensures Tally(ks)[i].key in ks
    ensures Get(Tally(ks), Tally(ks)[i].key) == multiset(ks)[Tally(ks)[i].key]
    ensures forall x :: multiset(ks)[x] <= multiset(ks)[Tally(ks)[i].key]
    ensures forall x :: (x in ks && x != Tally(ks)[i].key && multiset(ks)[x] == multiset(ks)[Tally(ks)[i].key])
                         ==> FirstIndex(ks, Tally(ks)[i].key) < FirstIndex(ks, x)
  {
    var t, d := Tally(ks), Dedup(ks);
    var k := t[i].key;
    TallyCounts(ks);
    assert Keys(t)[i] == k;
    GetAt(t, i);
    DedupFollowsFirstOccurrence(ks);
    forall x
      ensures multiset(ks)[x] <= multiset(ks)[k]
      ensures x in ks && x != k && multiset(ks)[x] == multiset(ks)[k] ==> FirstIndex(ks, k) < FirstIndex(ks, x)
    {
      if x in ks {
        assert x in d;
        var j :| 0 <= j < |d| && d[j] == x;
        assert Keys(t)[j] == x;
        GetAt(t, j);
      }
    }
  }
}
