/** Python's `list.sort(key=score, reverse=True)`: a stable sort into
    non-increasing score order. Equal scores keep their input order; there is
    no secondary key. */
module Ranking {
  import opened Seqs

  datatype Scored<T> = Scored(item: T, score: real)

  ghost predicate SortedDesc<T>(s: seq<Scored<T>>)
  {
    forall i, j :: 0 <= i < j < |s| ==> s[i].score >= s[j].score
  }

  /** The entries of `s` whose score is exactly `v`, in order. */
  function WithScore<T>(s: seq<Scored<T>>, v: real): seq<Scored<T>>
  {
    if |s| == 0 then [] else (if s[0].score == v then [s[0]] else []) + WithScore(s[1..], v)
  }

  /** Places `x` in front of the first entry that scores strictly less. */
  function Insert<T>(x: Scored<T>, s: seq<Scored<T>>): (r: seq<Scored<T>>)
    requires SortedDesc(s)
    ensures SortedDesc(r)
    ensures multiset(r) == multiset(s) + multiset{x}
    ensures |r| == |s| + 1
    ensures r[0].score == if |s| == 0 || x.score >= s[0].score then x.score else s[0].score
  {
    if |s| == 0 || x.score >= s[0].score then [x] + s
    else
      var rest := Insert(x, s[1..]);
      assert s == [s[0]] + s[1..];
      assert rest[0].score <= s[0].score by {
        if |s| > 1 { assert s[1..][0] == s[1]; }
      }
      [s[0]] + rest
  }

  /** Stable sort, highest score first. */
  function SortDesc<T>(s: seq<Scored<T>>): (r: seq<Scored<T>>)
    ensures SortedDesc(r)
    ensures multiset(r) == multiset(s)
    ensures |r| == |s|
  {
    if |s| == 0 then []
    else
      assert s == [s[0]] + s[1..];
      Insert(s[0], SortDesc(s[1..]))
  }

  lemma {:induction false} WithScoreAppend<T>(a: seq<Scored<T>>, b: seq<Scored<T>>, v: real)
    ensures WithScore(a + b, v) == WithScore(a, v) + WithScore(b, v)
    decreases |a|
  {
    if |a| > 0 {
      assert (a + b)[1..] == a[1..] + b;
      WithScoreAppend(a[1..], b, v);
    } else {
      assert a + b == b;
    }
  }

  lemma {:induction false} InsertStable<T>(x: Scored<T>, s: seq<Scored<T>>, v: real)
    requires SortedDesc(s)
    ensures WithScore(Insert(x, s), v) == WithScore([x] + s, v)
    decreases |s|
  {
    if |s| == 0 || x.score >= s[0].score {
    } else {
      var t := s[1..];
      assert s == [s[0]] + t;
      InsertStable(x, t, v);
      WithScoreAppend([s[0]], Insert(x, t), v);
      WithScoreAppend([x], t, v);
      WithScoreAppend([s[0]], t, v);
      WithScoreAppend([x], s, v);
      assert WithScore([s[0]], v) == [] || WithScore([x], v) == [];
    }
  }

  /** Stability: among entries of equal score, the sorted order is the input order. */
  lemma {:induction false} SortDescStable<T>(s: seq<Scored<T>>, v: real)
    ensures WithScore(SortDesc(s), v) == WithScore(s, v)
    decreases |s|
  {
    if |s| > 0 {
      var t := s[1..];
      SortDescStable(t, v);
      InsertStable(s[0], SortDesc(t), v);
      WithScoreAppend([s[0]], SortDesc(t), v);
      WithScoreAppend([s[0]], t, v);
      assert s == [s[0]] + t;
    }
  }

  /** Sorting neither adds nor drops entries. */
  lemma SortDescMembers<T>(s: seq<Scored<T>>)
    ensures forall x :: x in SortDesc(s) <==> x in s
  {
    var r := SortDesc(s);
    forall x ensures x in r <==> x in s {
      assert x in r <==> x in multiset(r);
      assert x in s <==> x in multiset(s);
    }
  }

  /** Keeping a prefix of the sorted list keeps the best: an entry left out
      scores no higher than any entry kept. */
  lemma SortDescPrefixIsTop<T>(s: seq<Scored<T>>, m: nat, x: Scored<T>)
    requires x in s && m <= |s|
    ensures x in SortDesc(s)[..m] || forall k :: 0 <= k < m ==> x.score <= SortDesc(s)[k].score
  {
    var sorted := SortDesc(s);
    assert x in multiset(sorted);
    var p :| 0 <= p < |sorted| && sorted[p] == x;
    if p < m {
      assert sorted[..m][p] == x;
    }
  }

  /** `top` is a Python slice `[:n]` of a ranking of `cs`: the right number
      of entries, taken from `cs`, highest first, and no entry left out
      scores above an entry kept. */
  ghost predicate IsTopCut<T>(cs: seq<Scored<T>>, top: seq<Scored<T>>, n: int)
  {
    && |top| == SliceBound(|cs|, n)
    && multiset(top) <= multiset(cs)
    && SortedDesc(top)
    && forall x, k :: x in multiset(cs) - multiset(top) && 0 <= k < |top| ==> x.score <= top[k].score
  }

  /** Sorting and then slicing is a top cut. */
  lemma SortDescCut<T>(cs: seq<Scored<T>>, n: int)
    ensures IsTopCut(cs, Take(SortDesc(cs), n), n)
  {
    CutOfSorted(cs, SortDesc(cs), n);
  }

  /** Any highest-first arrangement of `cs`, cut to `[:n]`, is a top cut. */
  lemma CutOfSorted<T>(cs: seq<Scored<T>>, s: seq<Scored<T>>, n: int)
    requires SortedDesc(s) && multiset(s) == multiset(cs)
    ensures IsTopCut(cs, s[..SliceBound(|s|, n)], n)
  {
    assert |s| == |multiset(s)| == |multiset(cs)| == |cs|;
    var m := SliceBound(|s|, n);
    var top, rest := s[..m], s[m..];
    assert multiset(cs) == multiset(top) + multiset(rest) by {
      assert s == top + rest;
    }
    assert multiset(top) <= multiset(cs);
    assert SortedDesc(top);
    SortedTailBelow(s, m);
    forall x, k | x in multiset(cs) - multiset(top) && 0 <= k < |top|
      ensures x.score <= top[k].score
    {
      assert x in multiset(rest);
    }
  }

  /** In a highest-first list, nothing past position `m` scores above
      anything before it. */
  lemma SortedTailBelow<T>(s: seq<Scored<T>>, m: nat)
    requires SortedDesc(s) && m <= |s|
    ensures forall x, k :: x in multiset(s[m..]) && 0 <= k < m ==> x.score <= s[..m][k].score
  {
    forall x: Scored<T>, k | x in multiset(s[m..]) && 0 <= k < m
      ensures x.score <= s[..m][k].score
    {
      assert x in s[m..];
      var p :| 0 <= p < |s[m..]| && s[m..][p] == x;
      assert s[m..][p] == s[m + p];
    }
  }

  /** An entry of `cs` is in a top cut, or scores no higher than anything in it. */
  lemma InCutOrBelow<T>(cs: seq<Scored<T>>, top: seq<Scored<T>>, n: int, x: Scored<T>)
    requires IsTopCut(cs, top, n) && x in cs
    ensures x in top || forall k :: 0 <= k < |top| ==> x.score <= top[k].score
  {
    assert x in multiset(cs);
    if x !in top {
      assert x !in multiset(top);
      assert x in multiset(cs) - multiset(top);
    }
  }
}
