/** The .NET string operations the gateway relies on: null-or-empty tests,
    ordinal substring search and the decimal rendering of an `int`. */
module Text {
  import opened Wrappers

  /** `string.IsNullOrEmpty` over a nullable string. */
  predicate IsNullOrEmpty(s: Option<string>) {
    s.None? || s.value == ""
  }

  /** Ordinal `String.Contains`: `t` occurs in `s` as a contiguous run. */
  predicate Contains(s: string, t: string)
    decreases |s|
  {
    |t| <= |s| && (s[..|t|] == t || (s != [] && Contains(s[1..], t)))
  }

  /** A non-empty needle cannot start inside a prefix that lacks its first
      character, so such a prefix does not change the answer. */
  lemma {:induction false} ContainsSkipsPrefix(p: string, s: string, t: string)
    requires t != []
    requires forall i :: 0 <= i < |p| ==> p[i] != t[0]
    ensures Contains(p + s, t) <==> Contains(s, t)
  {
    if p == [] {
      assert p + s == s;
    } else {
      assert (p + s)[1..] == p[1..] + s;
      if |t| <= |p + s| {
        assert (p + s)[..|t|][0] == p[0];
      }
      ContainsSkipsPrefix(p[1..], s, t);
    }
  }

  /** Between strings of equal length, containment is equality. */
  lemma ContainsSameLength(s: string, t: string)
    requires |s| == |t|
    ensures Contains(s, t) <==> s == t
  {
    assert s[..|t|] == s;
    if s != [] {
      assert |s[1..]| < |t|;
    }
  }

  predicate IsDigit(c: char) {
    '0' <= c <= '9'
  }

  function DigitChar(d: int): (c: char)
    requires 0 <= d < 10
    ensures IsDigit(c)
  {
    (48 + d) as char
  }

  function DigitValue(c: char): (d: nat)
    requires IsDigit(c)
    ensures d < 10
  {
    c as int - 48
  }

  /** All characters are decimal digits, and there is at least one. */
  predicate IsDecimal(s: string) {
    s != [] && forall i :: 0 <= i < |s| ==> IsDigit(s[i])
  }

  /** Decimal digits of `n` without leading zeros (invariant culture). */
  function NatToString(n: nat): (s: string)
    ensures IsDecimal(s)
    decreases n
  {
    if n < 10 then [DigitChar(n)] else NatToString(n / 10) + [DigitChar(n % 10)]
  }

  /** `Int32.ToString()`: a minus sign before the digits of a negative value. */
  function IntToString(n: int): string {
    if n < 0 then "-" + NatToString(-n) else NatToString(n)
  }

  /** The value of a run of decimal digits, most significant first. */
  function DigitsValue(s: string): nat
    requires forall i :: 0 <= i < |s| ==> IsDigit(s[i])
    decreases |s|
  {
    if s == [] then 0 else DigitsValue(s[..|s| - 1]) * 10 + DigitValue(s[|s| - 1])
  }

  /** `Int32.Parse` on an optional minus sign followed by digits. */
  function ParseInt(s: string): Option<int> {
    if s != [] && s[0] == '-' then
      if IsDecimal(s[1..]) then Some(0 - DigitsValue(s[1..]) as int) else None
    else if IsDecimal(s) then Some(DigitsValue(s))
    else None
  }

  lemma {:induction false} NatToStringValue(n: nat)
    ensures DigitsValue(NatToString(n)) == n
  {
    if n >= 10 {
      var s := NatToString(n);
      assert s[..|s| - 1] == NatToString(n / 10);
      NatToStringValue(n / 10);
    }
  }

  /** The decimal rendering of an `int` reads back as the same `int`. */
  lemma IntToStringRoundTrip(n: int)
    ensures ParseInt(IntToString(n)) == Some(n)
  {
    if n < 0 {
      var s := IntToString(n);
      assert s[1..] == NatToString(-n);
      NatToStringValue(-n);
    } else {
      NatToStringValue(n);
    }
  }

  /** A three-digit value renders as exactly three digits. */
  lemma ThreeDigitLength(n: int)
    requires 100 <= n <= 999
    ensures |IntToString(n)| == 3
  {
    assert NatToString(n) == NatToString(n / 10) + [DigitChar(n % 10)];
    assert NatToString(n / 10) == NatToString(n / 100) + [DigitChar(n / 10 % 10)];
  }

  /** Among three-digit values, the rendering of `n` contains the rendering
      of `code` exactly when they are the same value. */
  lemma {:induction false} ThreeDigitContains(n: int, code: int)
    requires 100 <= n <= 999 && 100 <= code <= 999
    ensures Contains(IntToString(n), IntToString(code)) <==> n == code
  {
    ThreeDigitLength(n);
    ThreeDigitLength(code);
    ContainsSameLength(IntToString(n), IntToString(code));
    IntToStringRoundTrip(n);
    IntToStringRoundTrip(code);
  }
}
