/** The slice of Python's `str` behaviour the pipeline relies on: `sep.join`,
    `str.split(sep)`, `in` (substring), `lower`, `strip`, `replace` and the
    decimal rendering of a natural number used inside generated titles and ids. */
module Strings {
  import opened Wrappers

  /** `sep.join(parts)`. */
  function Join(sep: string, parts: seq<string>): string
  {
    if |parts| == 0 then ""
    else if |parts| == 1 then parts[0]
    else parts[0] + sep + Join(sep, parts[1..])
  }

  predicate IsPrefix(p: string, s: string)
  {
    |p| <= |s| && s[..|p|] == p
  }

  /** Python `sub in s`. The empty string occurs in every string. */
  predicate Contains(s: string, sub: string)
    decreases |s|
  {
    IsPrefix(sub, s) || (|s| > 0 && Contains(s[1..], sub))
  }

  /** Index of the leftmost occurrence of `sep` in `s` at or after `from`. */
  function FindFrom(s: string, sep: string, from: nat): (r: Option<nat>)
    requires from <= |s|
    ensures r.Some? ==> from <= r.value && r.value + |sep| <= |s| && s[r.value..r.value + |sep|] == sep
    ensures r.Some? ==> forall j :: from <= j < r.value ==> !IsPrefix(sep, s[j..])
    ensures r.None? ==> forall j :: from <= j <= |s| ==> !IsPrefix(sep, s[j..])
    decreases |s| - from
  {
    if IsPrefix(sep, s[from..]) then Some(from)
    else if from == |s| then None
    else FindFrom(s, sep, from + 1)
  }

  /** Python `s.split(sep)`: cut at every leftmost, non-overlapping occurrence. */
  function Split(s: string, sep: string): (r: seq<string>)
    requires |sep| > 0
    ensures |r| >= 1
    decreases |s|
  {
    match FindFrom(s, sep, 0)
    case None => [s]
    case Some(i) => [s[..i]] + Split(s[i + |sep|..], sep)
  }

  /** No piece produced by `Split` contains the separator. */
  lemma {:induction false} SplitPiecesAvoidSeparator(s: string, sep: string)
    requires |sep| > 0
    ensures forall k :: 0 <= k < |Split(s, sep)| ==> !Contains(Split(s, sep)[k], sep)
    decreases |s|
  {
    match FindFrom(s, sep, 0)
    case None =>
      NotContainsFromFind(s, sep);
    case Some(i) =>
      SplitPiecesAvoidSeparator(s[i + |sep|..], sep);
      var head := s[..i];
      forall j | 0 <= j <= |head| ensures !IsPrefix(sep, head[j..]) {
        if j + |sep| <= |head| {
          assert head[j..][..|sep|] == s[j..][..|sep|];
          assert !IsPrefix(sep, s[j..]);
        }
      }
      NotContainsFromNoPrefix(head, sep);
  }

  lemma {:induction false} NotContainsFromNoPrefix(s: string, sub: string)
    requires forall j :: 0 <= j <= |s| ==> !IsPrefix(sub, s[j..])
    ensures !Contains(s, sub)
    decreases |s|
  {
    assert s[0..] == s;
    if |s| > 0 {
      forall j | 0 <= j <= |s[1..]| ensures !IsPrefix(sub, s[1..][j..]) {
        assert s[1..][j..] == s[j + 1..];
      }
      NotContainsFromNoPrefix(s[1..], sub);
    }
  }

  lemma NotContainsFromFind(s: string, sep: string)
    requires FindFrom(s, sep, 0).None?
    ensures !Contains(s, sep)
  {
    NotContainsFromNoPrefix(s, sep);
  }

  lemma JoinCons(sep: string, a: string, t: seq<string>)
    requires |t| > 0
    ensures Join(sep, [a] + t) == a + sep + Join(sep, t)
  {
    assert ([a] + t)[1..] == t;
  }

  /** `sep.join(s.split(sep)) == s`. */
  lemma {:induction false} JoinSplit(s: string, sep: string)
    requires |sep| > 0
    ensures Join(sep, Split(s, sep)) == s
    decreases |s|
  {
    var f := FindFrom(s, sep, 0);
    if f.None? {
      assert Split(s, sep) == [s];
    } else {
      var i := f.value;
      var rest := s[i + |sep|..];
      var tail := Split(rest, sep);
      assert Split(s, sep) == [s[..i]] + tail;
      JoinSplit(rest, sep);
      JoinCons(sep, s[..i], tail);
      assert s[i..i + |sep|] == sep;
      assert s == s[..i] + s[i..i + |sep|] + rest;
    }
  }

  /** Joining two non-empty groups is joining each and gluing with `sep`. */
  lemma {:induction false} JoinAppend(sep: string, a: seq<string>, b: seq<string>)
    requires |a| > 0 && |b| > 0
    ensures Join(sep, a + b) == Join(sep, a) + sep + Join(sep, b)
    decreases |a|
  {
    if |a| == 1 {
      assert (a + b)[1..] == b;
    } else {
      assert (a + b)[1..] == a[1..] + b;
      JoinAppend(sep, a[1..], b);
    }
  }

  function LowerChar(c: char): char
  {
    if 'A' <= c <= 'Z' then (c as int + 32) as char else c
  }

  /** `s.lower()` on the ASCII letters. */
  function Lower(s: string): (r: string)
    ensures |r| == |s|
    ensures forall i :: 0 <= i < |s| ==> r[i] == LowerChar(s[i])
  {
    seq(|s|, i requires 0 <= i < |s| => LowerChar(s[i]))
  }

  /** The characters Python's `str.strip()` removes: those `str.isspace()`
      accepts. */
  predicate IsSpace(c: char)
  {
    c == ' ' || c == '\t' || c == '\n' || c == '\r' || c == '\U{B}' || c == '\U{C}'
    || ('\U{1C}' <= c <= '\U{1F}') || c == '\U{85}' || c == '\U{A0}' || c == '\U{1680}'
    || ('\U{2000}' <= c <= '\U{200A}') || c == '\U{2028}' || c == '\U{2029}' || c == '\U{202F}'
    || c == '\U{205F}' || c == '\U{3000}'
  }

  predicate IsBlank(s: string)
  {
    forall i :: 0 <= i < |s| ==> IsSpace(s[i])
  }

  function TrimLeft(s: string): (r: string)
    ensures |r| <= |s| && r == s[|s| - |r|..]
    ensures forall i :: 0 <= i < |s| - |r| ==> IsSpace(s[i])
    ensures |r| > 0 ==> !IsSpace(r[0])
    decreases |s|
  {
    if |s| > 0 && IsSpace(s[0]) then TrimLeft(s[1..]) else s
  }

  function TrimRight(s: string): (r: string)
    ensures |r| <= |s| && r == s[..|r|]
    ensures forall i :: |r| <= i < |s| ==> IsSpace(s[i])
    ensures |r| > 0 ==> !IsSpace(r[|r| - 1])
    decreases |s|
  {
    if |s| > 0 && IsSpace(s[|s| - 1]) then TrimRight(s[..|s| - 1]) else s
  }

  /** Trimming both ends leaves a middle slice with blank text on either side. */
  lemma TrimBoth(s: string, t: string, r: string)
    requires |t| <= |s| && t == s[|s| - |t|..] && forall i :: 0 <= i < |s| - |t| ==> IsSpace(s[i])
    requires |r| <= |t| && r == t[..|r|] && forall i :: |r| <= i < |t| ==> IsSpace(t[i])
    ensures exists i :: 0 <= i <= |s| - |r| && r == s[i..i + |r|] && IsBlank(s[..i]) && IsBlank(s[i + |r|..])
  {
    var i := |s| - |t|;
    var tail := s[i + |r|..];
    forall k | 0 <= k < |tail| ensures IsSpace(tail[k]) {
      assert tail[k] == t[|r| + k];
    }
    assert r == s[i..i + |r|] && IsBlank(s[..i]) && IsBlank(tail);
  }

  /** `s.strip()`: the text between the first and the last non-space character. */
  function Strip(s: string): (r: string)
    ensures |r| <= |s|
    ensures |r| > 0 ==> !IsSpace(r[0]) && !IsSpace(r[|r| - 1])
    ensures r == "" <==> IsBlank(s)
  {
    var t := TrimLeft(s);
    var r := TrimRight(t);
    BlankIffTrimmedEmpty(s, t, r);
    TrimmedEnds(t, r);
    r
  }

  /** The stripped text is a slice of the text with only whitespace before
      and after it; with the ends of `Strip` this determines it. */
  lemma StripIsSlice(s: string)
    ensures var r := Strip(s);
      exists i :: 0 <= i <= |s| - |r| && r == s[i..i + |r|] && IsBlank(s[..i]) && IsBlank(s[i + |r|..])
  {
    var t := TrimLeft(s);
    TrimBoth(s, t, TrimRight(t));
  }

  lemma TrimmedEnds(t: string, r: string)
    requires |t| > 0 ==> !IsSpace(t[0])
    requires |r| <= |t| && r == t[..|r|]
    requires |r| > 0 ==> !IsSpace(r[|r| - 1])
    ensures |r| > 0 ==> !IsSpace(r[0]) && !IsSpace(r[|r| - 1])
  {
    if |r| > 0 {
      assert r[0] == t[0];
    }
  }

  lemma BlankIffTrimmedEmpty(s: string, t: string, r: string)
    requires |t| <= |s| && t == s[|s| - |t|..] && forall i :: 0 <= i < |s| - |t| ==> IsSpace(s[i])
    requires |t| > 0 ==> !IsSpace(t[0])
    requires |r| <= |t| && r == t[..|r|] && forall i :: |r| <= i < |t| ==> IsSpace(t[i])
    ensures r == "" <==> IsBlank(s)
  {
    if |t| > 0 {
      assert !IsSpace(t[0]);
      assert |r| > 0;
      assert !IsSpace(s[|s| - |t|]);
    }
  }

  /** `s.replace(a, b)` for single characters `a`, `b`. */
  function ReplaceChar(s: string, a: char, b: char): (r: string)
    ensures |r| == |s|
    ensures forall i :: 0 <= i < |s| ==> r[i] == (if s[i] == a then b else s[i])
  {
    seq(|s|, i requires 0 <= i < |s| => if s[i] == a then b else s[i])
  }

  lemma ReplaceCharAppend(s: string, t: string, a: char, b: char)
    ensures ReplaceChar(s + t, a, b) == ReplaceChar(s, a, b) + ReplaceChar(t, a, b)
  {
  }

  predicate IsDigit(c: char)
  {
    '0' <= c <= '9'
  }

  /** Python `str(n)` for a natural number. */
  function NatToString(n: nat): (r: string)
    ensures |r| > 0
    ensures forall i :: 0 <= i < |r| ==> IsDigit(r[i])
  {
    if n < 10 then [('0' as int + n) as char]
    else NatToString(n / 10) + [('0' as int + n % 10) as char]
  }

  /** The value of a string of decimal digits (`int(s)` on digit strings). */
  function DigitsValue(s: string): nat
    requires forall i :: 0 <= i < |s| ==> IsDigit(s[i])
  {
    if |s| == 0 then 0
    else
      assert IsDigit(s[|s| - 1]);
      10 * DigitsValue(s[..|s| - 1]) + (s[|s| - 1] as int - '0' as int)
  }

  /** Reading back `str(n)` gives `n`: the rendering is injective. */
  lemma {:induction false} NatToStringRoundTrip(n: nat)
    ensures DigitsValue(NatToString(n)) == n
  {
    if n >= 10 {
      NatToStringRoundTrip(n / 10);
      var s := NatToString(n);
      assert s[..|s| - 1] == NatToString(n / 10);
    }
  }

  lemma NatToStringInjective(m: nat, n: nat)
    requires NatToString(m) == NatToString(n)
    ensures m == n
  {
    NatToStringRoundTrip(m);
    NatToStringRoundTrip(n);
  }

  /** A join whose first part is non-empty is non-empty. */
  lemma JoinNonEmpty(sep: string, parts: seq<string>)
    requires |parts| > 0 && parts[0] != ""
    ensures Join(sep, parts) != ""
  {
    if |parts| > 1 {
      assert Join(sep, parts)[0] == parts[0][0];
    }
  }

  /** Joining non-empty parts gives "" only for an empty list. */
  lemma JoinEmptyIff(sep: string, parts: seq<string>)
    requires forall k :: 0 <= k < |parts| ==> parts[k] != ""
    ensures Join(sep, parts) == "" <==> |parts| == 0
  {
    if |parts| > 0 {
      JoinNonEmpty(sep, parts);
    }
  }

  /** Python `str(n)` for any integer. */
  function IntToString(n: int): (r: string)
    ensures |r| > 0
  {
    if n < 0 then "-" + NatToString(-n) else NatToString(n)
  }

  predicate AllDigits(s: string)
  {
    forall i :: 0 <= i < |s| ==> IsDigit(s[i])
  }

  /** Python `int(s)` on a string: surrounding whitespace, an optional sign,
      then at least one decimal digit; anything else raises (`None`). */
  function ParseInt(s: string): (r: Option<int>)
    ensures r.Some? ==> Strip(s) != ""
  {
    var t := Strip(s);
    if |t| > 0 && (t[0] == '-' || t[0] == '+') then
      var d := t[1..];
      if |d| > 0 && AllDigits(d) then Some(if t[0] == '-' then 0 - DigitsValue(d) as int else DigitsValue(d) as int)
      else None
    else if |t| > 0 && AllDigits(t) then Some(DigitsValue(t))
    else None
  }

  /** A string that neither starts nor ends with whitespace is its own strip. */
  lemma StripUnpadded(s: string)
    requires |s| > 0 && !IsSpace(s[0]) && !IsSpace(s[|s| - 1])
    ensures Strip(s) == s
  {
  }

  /** `int(str(n)) == n`. */
  lemma ParseIntRoundTrip(n: int)
    ensures ParseInt(IntToString(n)) == Some(n)
  {
    var s := IntToString(n);
    if n < 0 {
      var d := NatToString(-n);
      assert s == "-" + d;
      assert s[1..] == d;
      assert Strip(s) == s by {
        assert IsDigit(s[|s| - 1]) by { assert s[|s| - 1] == d[|d| - 1]; }
        StripUnpadded(s);
      }
      ParseNegative(s);
      NatToStringRoundTrip(-n);
    } else {
      assert Strip(s) == s by {
        assert IsDigit(s[0]) && IsDigit(s[|s| - 1]);
        StripUnpadded(s);
      }
      ParseDigits(s);
      NatToStringRoundTrip(n);
    }
  }

  lemma ParseDigits(t: string)
    requires Strip(t) == t && |t| > 0 && AllDigits(t)
    ensures ParseInt(t) == Some(DigitsValue(t))
  {
    assert IsDigit(t[0]);
  }

  lemma ParseNegative(t: string)
    requires Strip(t) == t && |t| > 1 && t[0] == '-' && AllDigits(t[1..])
    ensures ParseInt(t) == Some(0 - DigitsValue(t[1..]))
  {
  }
}
