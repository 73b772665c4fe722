/**
 * String helpers with the meaning JavaScript gives them: the `\s` class of
 * regular expressions, `String.prototype.trim`, `includes`, `length` in
 * UTF-16 code units, number-to-string conversion of integers and `parseInt`.
 */
module Strings {
  import opened Common

  /** JavaScript's `\s`: white space and line terminators. */
  predicate IsWhitespace(c: char) {
    || c == ' ' || c == '\t' || c == '\n' || c == '\r'
    || c == '\U{000B}' || c == '\U{000C}' || c == '\U{00A0}' || c == '\U{1680}'
    || ('\U{2000}' <= c <= '\U{200A}')
    || c == '\U{2028}' || c == '\U{2029}' || c == '\U{202F}' || c == '\U{205F}'
    || c == '\U{3000}' || c == '\U{FEFF}'
  }

  /** `/\s/.test(s)`. */
  predicate HasWhitespace(s: string) {
    exists i | 0 <= i < |s| :: IsWhitespace(s[i])
  }

  predicate StartsWith(s: string, prefix: string) {
    |prefix| <= |s| && s[..|prefix|] == prefix
  }

  predicate EndsWith(s: string, suffix: string) {
    |suffix| <= |s| && s[|s| - |suffix|..] == suffix
  }

  /** `sub` occurs in `s` starting at index `i`. */
  ghost predicate OccursAt(s: string, sub: string, i: int) {
    0 <= i && i + |sub| <= |s| && s[i..i + |sub|] == sub
  }

  /** `s.includes(sub)`: a plain substring test. */
  function Contains(s: string, sub: string): (r: bool)
    decreases |s|
  {
    if StartsWith(s, sub) then true
    else if |s| <= |sub| then false
    else Contains(s[1..], sub)
  }

  /** `Contains` finds an occurrence exactly when there is one. */
  lemma {:induction false} ContainsIff(s: string, sub: string)
    ensures Contains(s, sub) <==> exists i :: OccursAt(s, sub, i)
    decreases |s|
  {
    if StartsWith(s, sub) {
      assert OccursAt(s, sub, 0);
    } else if |s| <= |sub| {
      forall i
        ensures !OccursAt(s, sub, i)
      {
        if i == 0 && |sub| <= |s| {
          assert s[i..i + |sub|] == s[..|sub|];
        }
      }
    } else {
      ContainsIff(s[1..], sub);
      if Contains(s[1..], sub) {
        var i :| OccursAt(s[1..], sub, i);
        assert s[1..][i..i + |sub|] == s[i + 1..i + 1 + |sub|];
        assert OccursAt(s, sub, i + 1);
      } else {
        forall i
          ensures !OccursAt(s, sub, i)
        {
          if i == 0 {
            assert s[i..i + |sub|] == s[..|sub|];
          } else if 0 < i && i + |sub| <= |s| {
            assert s[1..][i - 1..i - 1 + |sub|] == s[i..i + |sub|];
            assert !OccursAt(s[1..], sub, i - 1);
          }
        }
      }
    }
  }

  /** A string that starts with `sub` contains it. */
  lemma PrefixContained(s: string, sub: string)
    requires StartsWith(s, sub)
    ensures Contains(s, sub)
  {
  }

  /** A string made only of characters that never occur in `sub` does not contain a non-empty `sub`. */
  lemma {:induction false} DisjointNotContained(s: string, sub: string)
    requires |sub| > 0
    requires forall i :: 0 <= i < |s| ==> s[i] != sub[0]
    ensures !Contains(s, sub)
    decreases |s|
  {
    if |s| > |sub| {
      assert !StartsWith(s, sub) by { assert s[0] != sub[0]; }
      DisjointNotContained(s[1..], sub);
    } else if |s| == |sub| {
      assert !StartsWith(s, sub) by { assert s[0] != sub[0]; }
    }
  }

  /** `s.length`: the number of UTF-16 code units, two for a character outside the basic plane. */
  function Utf16Length(s: string): (r: nat)
    ensures |s| <= r <= 2 * |s|
    ensures (forall i :: 0 <= i < |s| ==> s[i] <= '\U{FFFF}') ==> r == |s|
  {
    if |s| == 0 then 0
    else (if s[0] <= '\U{FFFF}' then 1 else 2) + Utf16Length(s[1..])
  }

  /** Leading white space removed (the first half of `trim`). */
  function TrimStart(s: string): (r: string)
    ensures |r| <= |s| && r == s[|s| - |r|..]
    ensures forall i :: 0 <= i < |s| - |r| ==> IsWhitespace(s[i])
    ensures r == [] || !IsWhitespace(r[0])
  {
    if |s| > 0 && IsWhitespace(s[0]) then TrimStart(s[1..]) else s
  }

  /** Trailing white space removed (the second half of `trim`). */
  function TrimEnd(s: string): (r: string)
    ensures |r| <= |s| && r == s[..|r|]
    ensures forall i :: |r| <= i < |s| ==> IsWhitespace(s[i])
    ensures r == [] || !IsWhitespace(r[|r| - 1])
  {
    if |s| > 0 && IsWhitespace(s[|s| - 1]) then TrimEnd(s[..|s| - 1]) else s
  }

  /** `s.trim()`: white space removed from both ends; nothing is left exactly when `s` is all white space. */
  function Trim(s: string): (r: string)
    ensures |r| <= |s|
    ensures Framed(s, r)
    ensures r == [] || (!IsWhitespace(r[0]) && !IsWhitespace(r[|r| - 1]))
    ensures r == [] <==> AllWhitespace(s)
  {
    TrimShape(s);
    TrimFramed(s);
    TrimEnd(TrimStart(s))
  }

  /** Both halves of `trim` leave no white space at either end, and nothing only for all-white-space text. */
  lemma TrimShape(s: string)
    ensures |TrimEnd(TrimStart(s))| <= |s|
    ensures var r := TrimEnd(TrimStart(s));
      r == [] || (!IsWhitespace(r[0]) && !IsWhitespace(r[|r| - 1]))
    ensures TrimEnd(TrimStart(s)) == [] <==> AllWhitespace(s)
  {
    var t := TrimStart(s);
    var r := TrimEnd(t);
    assert r == [] || r[0] == t[0];
    assert r == [] ==> t == [];
  }

  /** Both halves of `trim` leave a slice of `s` with only white space around it. */
  lemma TrimFramed(s: string)
    ensures Framed(s, TrimEnd(TrimStart(s)))
  {
    BlankFramed(s, TrimStart(s), TrimEnd(TrimStart(s)));
  }

  /** `r` is a slice of `s` with only white space before and after it. */
  ghost predicate Framed(s: string, r: string) {
    exists a, b :: 0 <= a <= b <= |s| && r == s[a..b] && AllWhitespace(s[..a]) && AllWhitespace(s[b..])
  }

  /** A prefix `r` of a suffix `t` of `s`, with only white space cut off either side, is a white-space-framed slice of `s`. */
  lemma BlankFramed(s: string, t: string, r: string)
    requires |t| <= |s| && t == s[|s| - |t|..]
    requires forall i :: 0 <= i < |s| - |t| ==> IsWhitespace(s[i])
    requires |r| <= |t| && r == t[..|r|]
    requires forall i :: |r| <= i < |t| ==> IsWhitespace(t[i])
    ensures Framed(s, r)
  {
    var a := |s| - |t|;
    PrefixOfSuffix(s, a, |r|);
    assert r == s[a..a + |r|];
    forall i | a + |r| <= i < |s|
      ensures IsWhitespace(s[i])
    {
      assert s[i] == t[i - a];
    }
    BlankSlice(s, 0, a);
    BlankSlice(s, a + |r|, |s|);
    assert s[0..a] == s[..a] && s[a + |r|..|s|] == s[a + |r|..];
  }

  /** A slice of white space characters is all white space. */
  lemma BlankSlice(s: string, lo: nat, hi: nat)
    requires lo <= hi <= |s|
    requires forall i :: lo <= i < hi ==> IsWhitespace(s[i])
    ensures AllWhitespace(s[lo..hi])
  {
    forall j | 0 <= j < hi - lo
      ensures IsWhitespace(s[lo..hi][j])
    {
      assert s[lo..hi][j] == s[lo + j];
    }
  }

  /** A prefix of a suffix is a slice. */
  lemma PrefixOfSuffix<T>(s: seq<T>, a: nat, n: nat)
    requires a + n <= |s|
    ensures s[a..][..n] == s[a..a + n]
  {
  }

  /** The trimmed string is empty exactly when every character is white space. */
  lemma TrimEmptyIff(s: string)
    ensures Trim(s) == [] <==> forall i :: 0 <= i < |s| ==> IsWhitespace(s[i])
  {
    var t := TrimStart(s);
    assert Trim(s) == [] ==> t == [];
  }

  /** A trimmed string neither starts nor ends with white space. */
  lemma TrimEnds(s: string)
    ensures Trim(s) == [] || (!IsWhitespace(Trim(s)[0]) && !IsWhitespace(Trim(s)[|Trim(s)| - 1]))
  {
    var t := TrimStart(s);
    var u := TrimEnd(t);
    if u != [] {
      assert u[0] == t[0];
    }
  }

  /** Appending a character never shortens the UTF-16 length. */
  lemma {:induction false} Utf16LengthAppend(s: string, c: char)
    ensures Utf16Length(s + [c]) >= Utf16Length(s) + 1
    decreases |s|
  {
    if |s| > 0 {
      assert (s + [c])[1..] == s[1..] + [c];
      Utf16LengthAppend(s[1..], c);
    } else {
      assert s + [c] == [c];
    }
  }

  predicate AllWhitespace(s: string) {
    forall i :: 0 <= i < |s| ==> IsWhitespace(s[i])
  }

  /** Leading white space of `s + u`: that of `s` followed by `u`, unless `s` is all white space. */
  lemma {:induction false} TrimStartConcat(s: string, u: string)
    ensures AllWhitespace(s) ==> TrimStart(s + u) == TrimStart(u)
    ensures !AllWhitespace(s) ==> TrimStart(s + u) == TrimStart(s) + u
    decreases |s|
  {
    if |s| == 0 {
      assert s + u == u;
    } else if IsWhitespace(s[0]) {
      assert (s + u)[1..] == s[1..] + u;
      assert AllWhitespace(s) <==> AllWhitespace(s[1..]) by {
        assert forall i :: 0 < i < |s| ==> s[i] == s[1..][i - 1];
      }
      TrimStartConcat(s[1..], u);
    } else {
      assert !AllWhitespace(s) by { assert !IsWhitespace(s[0]); }
    }
  }

  /** Trailing white space appended to `s` is removed again. */
  lemma {:induction false} TrimEndPadded(s: string, w: string)
    requires AllWhitespace(w)
    ensures TrimEnd(s + w) == TrimEnd(s)
    decreases |w|
  {
    if |w| == 0 {
      assert s + w == s;
    } else {
      var sw := s + w;
      var w' := w[..|w| - 1];
      assert sw[|sw| - 1] == w[|w| - 1];
      assert sw[..|sw| - 1] == s + w';
      assert AllWhitespace(w') by {
        assert forall i :: 0 <= i < |w'| ==> w'[i] == w[i];
      }
      TrimEndPadded(s, w');
    }
  }

  /** An all-white-space string trims away at the start. */
  lemma BlankTrimStart(w: string)
    requires AllWhitespace(w)
    ensures TrimStart(w) == []
  {
  }

  /** White space padding on either side does not change the trimmed text. */
  lemma TrimPadded(w1: string, s: string, w2: string)
    requires AllWhitespace(w1) && AllWhitespace(w2)
    ensures Trim(w1 + s + w2) == Trim(s)
  {
    assert w1 + s + w2 == w1 + (s + w2);
    TrimStartConcat(w1, s + w2);
    TrimStartConcat(s, w2);
    if AllWhitespace(s) {
      BlankTrimStart(w2);
      BlankTrimStart(s);
    } else {
      TrimEndPadded(TrimStart(s), w2);
    }
  }

  predicate IsDigit(c: char) {
    '0' <= c <= '9'
  }

  function DigitChar(d: nat): (c: char)
    requires d < 10
    ensures IsDigit(c)
  {
    "0123456789"[d]
  }

  /** The decimal representation of a natural number, without leading zeros. */
  function NatToString(n: nat): (r: string)
    ensures |r| > 0
    ensures forall i :: 0 <= i < |r| ==> IsDigit(r[i])
    ensures r[0] == '0' ==> n == 0
  {
    if n < 10 then [DigitChar(n)] else NatToString(n / 10) + [DigitChar(n % 10)]
  }

  /** `n.toString()` for an integer `n`. */
  function IntToString(n: int): (r: string)
    ensures |r| > 0
    ensures r[0] == '-' <==> n < 0
    ensures forall i :: (if n < 0 then 1 else 0) <= i < |r| ==> IsDigit(r[i])
  {
    if n < 0 then "-" + NatToString(-n) else NatToString(n)
  }

  /** The value of character `c` as a digit in `radix` (10 or 16), if it is one. */
  function DigitValue(c: char, radix: nat): (r: Option<nat>)
    ensures r.Some? ==> r.value < radix
  {
    if '0' <= c <= '9' && (c as int - '0' as int) < radix then Some(c as int - '0' as int)
    else if radix == 16 && 'a' <= c <= 'f' then Some(c as int - 'a' as int + 10)
    else if radix == 16 && 'A' <= c <= 'F' then Some(c as int - 'A' as int + 10)
    else None
  }

  /** The length of the longest prefix of `s` made of digits in `radix`. */
  function DigitPrefixLength(s: string, radix: nat): (r: nat)
    ensures r <= |s|
    ensures forall i :: 0 <= i < r ==> DigitValue(s[i], radix).Some?
    ensures r < |s| ==> DigitValue(s[r], radix).None?
  {
    if |s| > 0 && DigitValue(s[0], radix).Some? then 1 + DigitPrefixLength(s[1..], radix) else 0
  }

  /** The number written by a string of digits in `radix`, most significant first; it is only applied to runs of digits. */
  function DigitsValue(ds: string, radix: nat): nat {
    if |ds| == 0 then 0
    else DigitsValue(ds[..|ds| - 1], radix) * radix + DigitValue(ds[|ds| - 1], radix).GetOr(0)
  }

  /** The digits after the sign and base prefix: the longest run in `radix`, or `None` (`NaN`) when there is none. */
  function ParseDigits(body: string, radix: nat, negative: bool): (r: Option<int>)
    ensures r.None? <==> DigitPrefixLength(body, radix) == 0
  {
    var n := DigitPrefixLength(body, radix);
    if n == 0 then None
    else
      var v: int := DigitsValue(body[..n], radix);
      Some(if negative then -v else v)
  }

  /** The text after an optional leading sign. */
  function Unsigned(t: string): string {
    if |t| > 0 && (t[0] == '-' || t[0] == '+') then t[1..] else t
  }

  /** A `0x`/`0X` prefix, which selects base 16. */
  predicate HexPrefixed(u: string) {
    |u| >= 2 && u[0] == '0' && (u[1] == 'x' || u[1] == 'X')
  }

  /** `parseInt` after leading white space: an optional sign, then an optional hex prefix, then digits. */
  function ParseSigned(t: string): Option<int> {
    var negative := |t| > 0 && t[0] == '-';
    var u := Unsigned(t);
    if HexPrefixed(u) then ParseDigits(u[2..], 16, negative) else ParseDigits(u, 10, negative)
  }

  /**
   * `parseInt(s)` without a radix: leading white space skipped, an optional
   * sign, a `0x`/`0X` prefix selecting base 16, then the longest run of
   * digits. `None` stands for `NaN` (no digit at all).
   */
  function ParseInt(s: string): (r: Option<int>)
    ensures (forall i :: 0 <= i < |s| ==> !IsDigit(s[i])) ==> r.None?
  {
    NoDigitIsNaN(s);
    ParseSigned(TrimStart(s))
  }

  /** Text without a decimal digit has no digit to start a number, nor the `0` of a `0x` prefix. */
  lemma NoDigitIsNaN(s: string)
    ensures (forall i :: 0 <= i < |s| ==> !IsDigit(s[i])) ==> ParseSigned(TrimStart(s)).None?
  {
    if forall i :: 0 <= i < |s| ==> !IsDigit(s[i]) {
      var t := TrimStart(s);
      var u := Unsigned(t);
      if |u| > 0 {
        var j := if |t| > 0 && (t[0] == '-' || t[0] == '+') then |s| - |t| + 1 else |s| - |t|;
        assert u[0] == s[j];
        NoLeadingDigit(u);
      }
    }
  }

  /** A string whose first character is not a decimal digit parses to nothing in base 10 and has no `0x` prefix. */
  lemma NoLeadingDigit(u: string)
    requires |u| > 0 && !IsDigit(u[0])
    ensures DigitPrefixLength(u, 10) == 0 && !HexPrefixed(u)
  {
  }

  lemma {:induction false} NatToStringValue(n: nat)
    ensures DigitPrefixLength(NatToString(n), 10) == |NatToString(n)|
    ensures DigitsValue(NatToString(n), 10) == n
  {
    var s := NatToString(n);
    if n >= 10 {
      NatToStringValue(n / 10);
      var p := NatToString(n / 10);
      assert s[..|s| - 1] == p;
    }
  }

  /** A string that starts with a digit or `-` has no leading white space to skip. */
  lemma TrimStartNoop(s: string)
    requires |s| > 0 && (s[0] == '-' || IsDigit(s[0]))
    ensures TrimStart(s) == s
  {
    assert !IsWhitespace(s[0]);
  }

  /** The decimal digits of a natural number parse back to it. */
  lemma ParseUnsigned(d: string, n: nat)
    requires d == NatToString(n)
    ensures |d| >= 2 ==> d[1] != 'x' && d[1] != 'X'
    ensures DigitPrefixLength(d, 10) == |d|
    ensures DigitsValue(d[..|d|], 10) == n
  {
    NatToStringValue(n);
    assert d[..|d|] == d;
    if |d| >= 2 {
      assert IsDigit(d[1]);
    }
  }

  /** The decimal digits of a natural number, unsigned, parse back to it. */
  lemma ParseNatToString(m: nat)
    ensures ParseInt(NatToString(m)) == Some(m)
  {
    var d := NatToString(m);
    ParseUnsigned(d, m);
    TrimStartNoop(d);
    assert Unsigned(d) == d && !HexPrefixed(d);
  }

  /** A minus sign before the digits of a natural number parses back to its negation. */
  lemma ParseNegatedNatToString(m: nat)
    ensures ParseInt("-" + NatToString(m)) == Some(-(m as int))
  {
    var d := NatToString(m);
    var s := "-" + d;
    ParseUnsigned(d, m);
    TrimStartNoop(s);
    assert Unsigned(s) == d && !HexPrefixed(d);
  }

  /** `parseInt` reads back the string `toString` writes for any integer. */
  lemma ParseIntToString(n: int)
    ensures ParseInt(IntToString(n)) == Some(n)
  {
    if n < 0 {
      ParseNegatedNatToString(-n);
    } else {
      ParseNatToString(n);
    }
  }
}
