/**
 * The ordering and LIMIT of the leaderboard queries (server.js:274-280 and
 * server.js:295-300): rows by calculated_score descending, then at most
 * `limit` of them.
 */
module Queries {
  import opened Tables

  predicate SortedDesc(es: seq<Entry>)
  {
    forall i, j :: 0 <= i < j < |es| ==> es[i].calculatedScore >= es[j].calculatedScore
  }

  /** A row no lower than the head of a descending sequence may go in front of it. */
  lemma ConsSorted(x: Entry, s: seq<Entry>)
    requires SortedDesc(s)
    requires s == [] || x.calculatedScore >= s[0].calculatedScore
    ensures SortedDesc([x] + s)
  {
    var r := [x] + s;
    forall i, j | 0 <= i < j < |r| ensures r[i].calculatedScore >= r[j].calculatedScore {
      if i == 0 {
        assert r[j] == s[j - 1];
      } else {
        assert r[i] == s[i - 1] && r[j] == s[j - 1];
      }
    }
  }

  function InsertDesc(e: Entry, s: seq<Entry>): (r: seq<Entry>)
    requires SortedDesc(s)
    ensures SortedDesc(r)
    ensures multiset(r) == multiset(s) + multiset{e}
    ensures r[0] == e || (s != [] && r[0] == s[0])
  {
    if s == [] || e.calculatedScore >= s[0].calculatedScore then
      ConsSorted(e, s);
      [e] + s
    else
      var rest := InsertDesc(e, s[1..]);
      assert s == [s[0]] + s[1..];
      ConsSorted(s[0], rest);
      [s[0]] + rest
  }

  /** ORDER BY calculated_score DESC: a descending permutation of the rows. */
  function SortDesc(es: seq<Entry>): (r: seq<Entry>)
    ensures SortedDesc(r)
    ensures multiset(r) == multiset(es)
  {
    if es == [] then []
    else
      assert es == [es[0]] + es[1..];
      InsertDesc(es[0], SortDesc(es[1..]))
  }

  /**
   * Cutting a descending permutation `s` of `es` after `n` rows keeps it
   * descending and leaves out no row scoring above a kept one.
   */
  lemma PrefixCutOff(es: seq<Entry>, s: seq<Entry>, n: nat)
    requires SortedDesc(s) && multiset(s) == multiset(es) && n <= |s|
    ensures SortedDesc(s[..n])
    ensures multiset(s[..n]) <= multiset(es)
    ensures forall x, y :: x in multiset(es) - multiset(s[..n]) && y in s[..n] ==> y.calculatedScore >= x.calculatedScore
  {
    var p, q := s[..n], s[n..];
    assert s == p + q;
    assert multiset(es) - multiset(p) == multiset(q);
    SplitBound(s, n);
  }

  lemma SplitBound(s: seq<Entry>, n: nat)
    requires SortedDesc(s) && n <= |s|
    ensures forall x, y :: x in s[n..] && y in s[..n] ==> y.calculatedScore >= x.calculatedScore
  {
    forall x, y | x in s[n..] && y in s[..n]
      ensures y.calculatedScore >= x.calculatedScore
    {
      var k :| n <= k < |s| && s[k] == x;
      var m :| 0 <= m < n && s[m] == y;
    }
  }

  /**
   * ORDER BY calculated_score DESC LIMIT limit. A negative limit, as in
   * SQLite, puts no bound on the number of rows.
   */
  function TopEntries(es: seq<Entry>, limit: int): (r: seq<Entry>)
    ensures |r| == if 0 <= limit < |es| then limit else |es|
    ensures SortedDesc(r)
    ensures multiset(r) <= multiset(es)
    ensures forall x, y :: x in multiset(es) - multiset(r) && y in r ==> y.calculatedScore >= x.calculatedScore
  {
    var s := SortDesc(es);
    assert |s| == |es| by {
      assert |multiset(s)| == |multiset(es)|;
    }
    var n := if 0 <= limit < |s| then limit else |s|;
    PrefixCutOff(es, s, n);
    s[..n]
  }

  /** Every row the query returns is a row of the table. */
  lemma TopEntriesMembers(es: seq<Entry>, limit: int)
    ensures forall i :: 0 <= i < |TopEntries(es, limit)| ==> TopEntries(es, limit)[i] in es
  {
    var top := TopEntries(es, limit);
    forall i | 0 <= i < |top| ensures top[i] in es {
      assert top[i] in multiset(top);
    }
  }

  /** A row the LIMIT cut off scores no more than any returned row. */
  lemma TopEntriesCutOff(es: seq<Entry>, limit: int)
    ensures forall e, i :: e in es && e !in TopEntries(es, limit) && 0 <= i < |TopEntries(es, limit)|
              ==> TopEntries(es, limit)[i].calculatedScore >= e.calculatedScore
  {
    var top := TopEntries(es, limit);
    forall e, i | e in es && e !in top && 0 <= i < |top|
      ensures top[i].calculatedScore >= e.calculatedScore
    {
      assert e in multiset(es) - multiset(top);
    }
  }

  /** LIMIT 1 returns the highest-scoring row of a non-empty table and nothing for an empty one. */
  lemma TopEntryIsMax(es: seq<Entry>)
    ensures |TopEntries(es, 1)| == if es == [] then 0 else 1
    ensures es != [] ==> TopEntries(es, 1)[0] in es
    ensures es != [] ==> forall e :: e in es ==> e.calculatedScore <= TopEntries(es, 1)[0].calculatedScore
  {
    if es != [] {
      TopEntriesMembers(es, 1);
      TopEntriesCutOff(es, 1);
    }
  }
}
