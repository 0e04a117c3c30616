/** Sequence helpers with Python's slicing semantics. */
module Seqs {

  function Min(a: int, b: int): int { if a <= b then a else b }
  function Max(a: int, b: int): int { if a >= b then a else b }

  /** Python's normalisation of a slice bound `n` against a length: a negative
      bound counts from the end, and every bound is clamped to `[0, len]`. */
  function SliceBound(len: nat, n: int): (r: nat)
    ensures r <= len
    ensures 0 <= n ==> r == Min(n, len)
    ensures n < 0 ==> r == Max(0, len + n)
  {
    if n >= 0 then Min(n, len) else Max(0, len + n)
  }

  /** Python `s[:n]`. */
  function Take<T>(s: seq<T>, n: int): (r: seq<T>)
    ensures r == s[..SliceBound(|s|, n)]
  {
    s[..SliceBound(|s|, n)]
  }

  /** Python `s[n:]`. */
  function Drop<T>(s: seq<T>, n: int): (r: seq<T>)
    ensures r == s[SliceBound(|s|, n)..]
  {
    s[SliceBound(|s|, n)..]
  }

  /** The elements of `s` that satisfy `p`, in order (a list comprehension with an `if`). */
  function Filter<T>(s: seq<T>, p: T -> bool): (r: seq<T>)
    ensures |r| <= |s|
    ensures forall i :: 0 <= i < |r| ==> r[i] in s && p(r[i])
    ensures forall i :: 0 <= i < |s| && p(s[i]) ==> s[i] in r
  {
    if |s| == 0 then [] else (if p(s[0]) then [s[0]] else []) + Filter(s[1..], p)
  }

  lemma {:induction false} FilterAppend<T>(a: seq<T>, b: seq<T>, p: T -> bool)
    ensures Filter(a + b, p) == Filter(a, p) + Filter(b, p)
    decreases |a|
  {
    if |a| > 0 {
      assert (a + b)[1..] == a[1..] + b;
      FilterAppend(a[1..], b, p);
    } else {
      assert a + b == b;
    }
  }

  /** Concatenation of a sequence of sequences. */
  function Flatten<T>(ss: seq<seq<T>>): (r: seq<T>)
  {
    if |ss| == 0 then [] else ss[0] + Flatten(ss[1..])
  }

  lemma {:induction false} FlattenAppend<T>(a: seq<seq<T>>, b: seq<seq<T>>)
    ensures Flatten(a + b) == Flatten(a) + Flatten(b)
    decreases |a|
  {
    if |a| > 0 {
      assert (a + b)[1..] == a[1..] + b;
      FlattenAppend(a[1..], b);
    } else {
      assert a + b == b;
    }
  }

  /** The indices `i < n` satisfying `p`, in increasing order (the indices a
      `for i in range(n): if p(i): ...` loop acts on). */
  function Where(n: nat, p: nat -> bool): (idx: seq<nat>)
    ensures forall k :: 0 <= k < |idx| ==> idx[k] < n && p(idx[k])
    ensures forall i :: 0 <= i < n && p(i) ==> i in idx
    ensures forall k1, k2 :: 0 <= k1 < k2 < |idx| ==> idx[k1] < idx[k2]
    ensures |idx| <= n
  {
    if n == 0 then [] else Where(n - 1, p) + (if p(n - 1) then [n - 1] else [])
  }

  /** No element occurs twice. */
  predicate Distinct<T(==)>(s: seq<T>)
  {
    forall i, j :: 0 <= i < j < |s| ==> s[i] != s[j]
  }

  lemma {:induction false} DistinctCount<T>(s: seq<T>, x: T)
    requires Distinct(s)
    ensures multiset(s)[x] <= 1
    decreases |s|
  {
    if |s| > 0 {
      assert s == [s[0]] + s[1..];
      assert Distinct(s[1..]) by {
        forall i, j | 0 <= i < j < |s[1..]| ensures s[1..][i] != s[1..][j] {
          assert s[1..][i] == s[i + 1] && s[1..][j] == s[j + 1];
        }
      }
      DistinctCount(s[1..], x);
      if x == s[0] {
        assert x !in s[1..] by {
          forall k | 0 <= k < |s[1..]| ensures s[1..][k] != x {
            assert s[1..][k] == s[k + 1];
          }
        }
      }
    }
  }

  /** A rearrangement of a sequence without repeats has none either. */
  lemma PermutationDistinct<T>(a: seq<T>, b: seq<T>)
    requires multiset(a) == multiset(b) && Distinct(a)
    ensures Distinct(b)
  {
    forall i, j | 0 <= i < j < |b| ensures b[i] != b[j] {
      if b[i] == b[j] {
        assert b == b[..j] + b[j..];
        assert b[i] in b[..j] && b[j] in b[j..];
        assert multiset(b)[b[i]] == multiset(b[..j])[b[i]] + multiset(b[j..])[b[i]];
        DistinctCount(a, b[i]);
        assert false;
      }
    }
  }
}
