/** The engine ranking: `toList().sortedByDescending { it.second }`, a stable
    sort of a frequency table by count, largest first. */
module Ranking {
  import opened Frequency

  /** Counts never increase along the sequence. */
  predicate SortedByCountDesc<K>(s: seq<Entry<K>>)
  {
    forall i, j :: 0 <= i < j < |s| ==> s[i].count >= s[j].count
  }

  /** The entries of `s` whose count is `c`, in their order in `s`. A sort
      keeps every such run in input order exactly when it is stable. */
  function WithCount<K>(s: seq<Entry<K>>, c: nat): seq<Entry<K>>
  {
    if s == [] then []
    else (if s[0].count == c then [s[0]] else []) + WithCount(s[1..], c)
  }

  lemma {:induction false} WithCountAppend<K>(a: seq<Entry<K>>, b: seq<Entry<K>>, c: nat)
    ensures WithCount(a + b, c) == WithCount(a, c) + WithCount(b, c)
  {
    if a == [] {
      assert a + b == b;
    } else {
      WithCountAppend(a[1..], b, c);
      assert a + b == [a[0]] + (a[1..] + b);
      assert a == [a[0]] + a[1..];
      WithCountCons(a[0], a[1..] + b, c);
      WithCountCons(a[0], a[1..], c);
    }
  }

  lemma {:induction false} WithCountNone<K>(s: seq<Entry<K>>, c: nat)
    requires forall i :: 0 <= i < |s| ==> s[i].count != c
    ensures WithCount(s, c) == []
  {
    if s != [] {
      WithCountNone(s[1..], c);
    }
  }

  /** Place `e` into a sorted sequence after every entry whose count is at
      least its own. */
  function Insert<K>(s: seq<Entry<K>>, e: Entry<K>): (r: seq<Entry<K>>)
    requires SortedByCountDesc(s)
    ensures |r| == |s| + 1
    ensures r[0] == e || (s != [] && r[0] == s[0])
    ensures SortedByCountDesc(r)
    ensures multiset(r) == multiset(s) + multiset{e}
  {
    if s == [] then [e]
    else if s[0].count < e.count then [e] + s
    else
      var r := [s[0]] + Insert(s[1..], e);
      assert s == [s[0]] + s[1..];
      r
  }

  /** Inserting `e` adds it at the end of the run of entries with its count
      and leaves every other run as it was. */
  lemma WithCountCons<K>(x: Entry<K>, s: seq<Entry<K>>, c: nat)
    ensures WithCount([x] + s, c) == (if x.count == c then [x] else []) + WithCount(s, c)
  {
    assert ([x] + s)[1..] == s;
  }

  lemma {:induction false} InsertKeepsRuns<K>(s: seq<Entry<K>>, e: Entry<K>, c: nat)
    requires SortedByCountDesc(s)
    ensures WithCount(Insert(s, e), c) == WithCount(s, c) + WithCount([e], c)
  {
    var mine := if e.count == c then [e] else [];
    assert WithCount([e], c) == mine by {
      WithCountCons(e, [], c);
    }
    if s == [] {
      assert Insert(s, e) == [e];
    } else if s[0].count < e.count {
      assert Insert(s, e) == [e] + s;
      WithCountCons(e, s, c);
      if c == e.count {
        WithCountNone(s, c);
      }
    } else {
      var rest := Insert(s[1..], e);
      assert Insert(s, e) == [s[0]] + rest;
      var theirs := if s[0].count == c then [s[0]] else [];
      assert WithCount(rest, c) == WithCount(s[1..], c) + mine by {
        InsertKeepsRuns(s[1..], e, c);
      }
      assert WithCount([s[0]] + rest, c) == theirs + WithCount(rest, c) by {
        WithCountCons(s[0], rest, c);
      }
      assert WithCount(s, c) == theirs + WithCount(s[1..], c);
    }
  }

  /** The stable descending sort of a table by count. */
  function SortByCountDesc<K>(t: seq<Entry<K>>): (r: seq<Entry<K>>)
    ensures SortedByCountDesc(r)
    ensures multiset(r) == multiset(t)
    ensures forall c :: WithCount(r, c) == WithCount(t, c)
  {
    if t == [] then []
    else
      var init, e := t[..|t| - 1], t[|t| - 1];
      assert t == init + [e];
      var sorted := SortByCountDesc(init);
      assert forall c :: WithCount(Insert(sorted, e), c) == WithCount(t, c) by {
        forall c
          ensures WithCount(Insert(sorted, e), c) == WithCount(t, c)
        {
          WithCountAppend(init, [e], c);
          InsertKeepsRuns(sorted, e, c);
        }
      }
      Insert(sorted, e)
  }

  /** The run of the first entry's count starts with that entry. */
  lemma WithCountHead<K>(s: seq<Entry<K>>)
    requires s != []
    ensures WithCount(s, s[0].count) != [] && WithCount(s, s[0].count)[0] == s[0]
  {
    WithCountCons(s[0], s[1..], s[0].count);
    assert s == [s[0]] + s[1..];
  }

  /** Sortedness and per-count runs pin a sequence down: two sorted sequences
      with the same runs are equal. So `SortByCountDesc` is the only stable
      descending sort there is. */
  lemma {:induction false} RunsDetermineSorted<K>(a: seq<Entry<K>>, b: seq<Entry<K>>)
    requires SortedByCountDesc(a) && SortedByCountDesc(b)
    requires forall c :: WithCount(a, c) == WithCount(b, c)
    ensures a == b
    decreases |a|
  {
    if a == [] {
      if b != [] {
        WithCountHead(b);
        assert false;
      }
    } else if b == [] {
      RunsDetermineSorted(b, a);
    } else {
      assert a == [a[0]] + a[1..] && b == [b[0]] + b[1..];
      var ca, cb := a[0].count, b[0].count;
      WithCountCons(a[0], a[1..], ca);
      WithCountCons(b[0], b[1..], cb);
      if ca > cb {
        WithCountNone(b, ca);
        assert false;
      } else if cb > ca {
        WithCountNone(a, cb);
        assert false;
      }
      assert a[0] == WithCount(a, ca)[0] == WithCount(b, cb)[0] == b[0];
      forall c
        ensures WithCount(a[1..], c) == WithCount(b[1..], c)
      {
        var head := if a[0].count == c then [a[0]] else [];
        WithCountCons(a[0], a[1..], c);
        WithCountCons(b[0], b[1..], c);
        assert WithCount(a[1..], c) == WithCount(a, c)[|head|..];
        assert WithCount(b[1..], c) == WithCount(b, c)[|head|..];
      }
      RunsDetermineSorted(a[1..], b[1..]);
    }
  }
}
