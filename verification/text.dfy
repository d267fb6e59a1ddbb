/** The few pieces of Python's `str` behaviour the pipeline relies on:
    `str.isspace`/`str.strip`, `str.startswith`, the first-occurrence search
    behind `str.split(sep, 1)`, `str(int)` and `int(str)`. */
module Text {
  import opened Wrappers

  /** Python's `str.isspace` for one character: the ASCII controls TAB..CR,
      the information separators 0x1C..0x1F, SPACE, NEL, NO-BREAK SPACE and the
      Unicode space separators, line and paragraph separators. */
  predicate IsSpace(c: char) {
    var n := c as int;
    || (0x09 <= n <= 0x0D) || (0x1C <= n <= 0x20) || n == 0x85 || n == 0xA0
    || n == 0x1680 || (0x2000 <= n <= 0x200A) || n == 0x2028 || n == 0x2029
    || n == 0x202F || n == 0x205F || n == 0x3000
  }

  /** Every character is whitespace (so `s.strip()` is falsy). */
  predicate IsBlank(s: string) {
    forall i :: 0 <= i < |s| ==> IsSpace(s[i])
  }

  /** `s.lstrip()`: the longest suffix of `s` that does not start with whitespace. */
  function TrimStart(s: string): (r: string)
    ensures |r| <= |s| && r == s[|s| - |r|..]
    ensures IsBlank(s[..|s| - |r|])
    ensures r == [] || !IsSpace(r[0])
  {
    if |s| > 0 && IsSpace(s[0]) then
      var r := TrimStart(s[1..]);
      TrimStartStep(s, r);
      r
    else s
  }

  lemma TrimStartStep(s: string, r: string)
    requires |s| > 0 && IsSpace(s[0])
    requires |r| <= |s| - 1 && r == s[1..][|s| - 1 - |r|..] && IsBlank(s[1..][..|s| - 1 - |r|])
    ensures r == s[|s| - |r|..] && IsBlank(s[..|s| - |r|])
  {
    var k := |s| - |r|;
    assert s[1..][k - 1..] == s[k..];
    assert s[..k] == [s[0]] + s[1..][..k - 1];
  }

  /** `s.rstrip()`: the longest prefix of `s` that does not end with whitespace. */
  function TrimEnd(s: string): (r: string)
    ensures |r| <= |s| && r == s[..|r|]
    ensures IsBlank(s[|r|..])
    ensures r == [] || !IsSpace(r[|r| - 1])
  {
    if |s| > 0 && IsSpace(s[|s| - 1]) then
      var r := TrimEnd(s[..|s| - 1]);
      TrimEndStep(s, r);
      r
    else s
  }

  lemma TrimEndStep(s: string, r: string)
    requires |s| > 0 && IsSpace(s[|s| - 1])
    requires |r| <= |s| - 1 && r == s[..|s| - 1][..|r|] && IsBlank(s[..|s| - 1][|r|..])
    ensures r == s[..|r|] && IsBlank(s[|r|..])
  {
    assert s[..|s| - 1][..|r|] == s[..|r|];
    assert s[|r|..] == s[..|s| - 1][|r|..] + [s[|s| - 1]];
  }

  /** `r` sits at offset `k` of `s` with only whitespace around it. */
  ghost predicate StrippedAt(s: string, r: string, k: int) {
    0 <= k && k + |r| <= |s| && s[k..k + |r|] == r
    && IsBlank(s[..k]) && IsBlank(s[k + |r|..])
  }

  /** `s.strip()`: `s` without its leading and trailing whitespace. The
      result's ends are not whitespace, and it is empty exactly when `s` is
      blank. */
  function Strip(s: string): (r: string)
    ensures r == [] || (!IsSpace(r[0]) && !IsSpace(r[|r| - 1]))
    ensures r == [] <==> IsBlank(s)
  {
    var t := TrimStart(s);
    var r := TrimEnd(t);
    StripFacts(s, t, r);
    r
  }

  /** The stripped text is the infix of `s` at offset `k` whose margins are
      whitespace only. */
  lemma StripIsInfix(s: string) returns (k: nat)
    ensures StrippedAt(s, Strip(s), k)
  {
    var t := TrimStart(s);
    var r := TrimEnd(t);
    assert Strip(s) == r;
    StripFacts(s, t, r);
    k := |s| - |t|;
  }

  lemma StripFacts(s: string, t: string, r: string)
    requires |t| <= |s| && t == s[|s| - |t|..] && IsBlank(s[..|s| - |t|])
    requires t == [] || !IsSpace(t[0])
    requires |r| <= |t| && r == t[..|r|] && IsBlank(t[|r|..])
    ensures StrippedAt(s, r, |s| - |t|)
    ensures r == [] <==> IsBlank(s)
  {
    var k := |s| - |t|;
    assert s[k..k + |r|] == r;
    assert s[k + |r|..] == t[|r|..];
    if r == [] {
      assert s == s[..k] + t;
      BlankConcat(s[..k], t);
    } else {
      assert s[k] == r[0];
    }
  }

  lemma BlankConcat(a: string, b: string)
    requires IsBlank(a) && IsBlank(b)
    ensures IsBlank(a + b)
  {
  }

  /** `s.startswith(p)`. */
  predicate StartsWith(s: string, p: string) {
    |p| <= |s| && s[..|p|] == p
  }

  /** The position of the first `c` in `s`, if any (what `s.split(c, 1)` cuts at). */
  function FirstIndexOf(s: string, c: char): (r: Option<nat>)
    ensures r.None? <==> c !in s
    ensures r.Some? ==> r.value < |s| && s[r.value] == c && c !in s[..r.value]
  {
    if |s| == 0 then None
    else if s[0] == c then Some(0)
    else
      match FirstIndexOf(s[1..], c)
      case None => None
      case Some(i) =>
        assert s[..i + 1] == [s[0]] + s[1..][..i];
        Some(i + 1)
  }

  predicate IsDigit(c: char) {
    '0' <= c <= '9'
  }

  predicate AllDigits(s: string) {
    forall i :: 0 <= i < |s| ==> IsDigit(s[i])
  }

  function DigitChar(d: nat): (c: char)
    requires d < 10
    ensures IsDigit(c)
  {
    (48 + d) as char
  }

  function DigitValue(c: char): (d: nat)
    requires IsDigit(c)
    ensures d < 10 && DigitChar(d) == c
  {
    (c as int) - 48
  }

  /** `str(n)` for a non-negative integer: its decimal digits, most significant
      first, without leading zeros. */
  function NatToString(n: nat): (r: string)
    ensures |r| > 0 && AllDigits(r)
    ensures r[0] == '0' ==> n == 0
    ensures n == 0 ==> r == "0"
  {
    if n < 10 then [DigitChar(n)]
    else
      var r := NatToString(n / 10) + [DigitChar(n % 10)];
      assert r[0] == NatToString(n / 10)[0];
      r
  }

  /** The value of a string of decimal digits. */
  function DigitsValue(s: string): nat
    requires AllDigits(s)
  {
    if |s| == 0 then 0 else DigitsValue(s[..|s| - 1]) * 10 + DigitValue(s[|s| - 1])
  }

  lemma {:induction false} DigitsOfNat(n: nat)
    ensures DigitsValue(NatToString(n)) == n
  {
    var r := NatToString(n);
    if n >= 10 {
      assert r[..|r| - 1] == NatToString(n / 10);
      DigitsOfNat(n / 10);
    }
  }

  /** `str(i)` for any Python int: a minus sign before the digits of `|i|`. */
  function IntToString(i: int): (r: string)
    ensures '_' !in r
    ensures i >= 0 ==> AllDigits(r) && |r| > 0 && (r[0] == '0' ==> r == "0")
    ensures i < 0 ==> |r| > 1 && r[0] == '-' && AllDigits(r[1..]) && r[1] != '0'
  {
    if i < 0 then "-" + NatToString(-i) else NatToString(i)
  }

  /** Python's `int(s)` on a string: surrounding whitespace, an optional sign
      and at least one ASCII digit; anything else raises `ValueError` (None). */
  function ParseInt(s: string): (r: Option<int>)
    ensures r.Some? ==> Strip(s) != []
  {
    var t := Strip(s);
    if |t| > 0 && (t[0] == '-' || t[0] == '+') then
      var d := t[1..];
      if |d| > 0 && AllDigits(d) then
        var v: int := DigitsValue(d);
        Some(if t[0] == '-' then -v else v)
      else None
    else if |t| > 0 && AllDigits(t) then Some(DigitsValue(t))
    else None
  }

  /** Rendering and parsing invert each other: `int(str(i)) == i`. */
  lemma IntRoundTrip(i: int)
    ensures ParseInt(IntToString(i)) == Some(i)
  {
    var r := IntToString(i);
    var n: nat := if i < 0 then -i else i;
    var digits := NatToString(n);
    DigitsOfNat(n);
    assert !IsSpace(r[|r| - 1]) by {
      assert r[|r| - 1] == digits[|digits| - 1];
    }
    StripOfUnpadded(r);
    if i < 0 {
      assert r[1..] == digits;
    } else {
      assert r == digits;
    }
  }

  lemma StripOfUnpadded(s: string)
    requires s != [] && !IsSpace(s[0]) && !IsSpace(s[|s| - 1])
    ensures Strip(s) == s
  {
  }

  /** Distinct integers render to distinct strings. */
  lemma IntToStringInjective(i: int, j: int)
    requires IntToString(i) == IntToString(j)
    ensures i == j
  {
    IntRoundTrip(i);
    IntRoundTrip(j);
  }

  lemma CutPositions(a: string, c: char, b: string)
    ensures (a + [c] + b)[|a|] == c
    ensures forall i :: 0 <= i < |a| ==> (a + [c] + b)[i] == a[i]
  {
  }

  /** Cutting at the first `c`: if `a + [c] + b == a' + [c] + b'` and `c` occurs
      in neither `a` nor `a'`, the two decompositions agree. */
  lemma CutAtFirst(a: string, b: string, a': string, b': string, c: char)
    requires c !in a && c !in a'
    requires a + [c] + b == a' + [c] + b'
    ensures a == a' && b == b'
  {
    var s := a + [c] + b;
    if |a| != |a'| {
      CutPositions(a, c, b);
      CutPositions(a', c, b');
      assert false;
    }
    assert a == s[..|a|];
    assert a' == (a' + [c] + b')[..|a'|];
    assert b == s[|a| + 1..];
    assert b' == (a' + [c] + b')[|a'| + 1..];
  }
}
