/**
 * The string operations the components rely on, written out because JavaScript
 * supplies them as built-ins: `String.prototype.includes`, `String.prototype.trim`,
 * the decimal rendering of a non-negative integer inside a template literal, and
 * the "prefix + status + ' - ' + reason" error line that two pages build.
 */
module Text {
  import opened Optional

  predicate StartsWith(s: string, p: string) {
    |p| <= |s| && s[..|p|] == p
  }

  /** `s.includes(t)`: searches every start position from the left. */
  function Includes(s: string, t: string): bool
    decreases |s|
  {
    StartsWith(s, t) || (s != [] && Includes(s[1..], t))
  }

  /** Reference meaning of an occurrence: `t` is found in `s` starting at index `i`. */
  ghost predicate OccursAt(s: string, t: string, i: int) {
    0 <= i && i + |t| <= |s| && s[i..i + |t|] == t
  }

  lemma {:induction false} IncludesIff(s: string, t: string)
    ensures Includes(s, t) <==> exists i :: OccursAt(s, t, i)
    decreases |s|
  {
    if StartsWith(s, t) {
      assert OccursAt(s, t, 0);
    }
    if s != [] {
      IncludesIff(s[1..], t);
      forall j | OccursAt(s[1..], t, j) ensures OccursAt(s, t, j + 1) {
        assert s[j + 1..j + 1 + |t|] == s[1..][j..j + |t|];
      }
      forall i | OccursAt(s, t, i) && 0 < i ensures OccursAt(s[1..], t, i - 1) {
        assert s[1..][i - 1..i - 1 + |t|] == s[i..i + |t|];
      }
    }
  }

  /**
   * A prefix that does not contain the first character of `t` cannot hide or
   * create an occurrence of `t`: the search result is decided by `m` alone.
   */
  lemma {:induction false} IncludesAfterPrefix(p: string, m: string, t: string)
    requires t != [] && t[0] !in p
    ensures Includes(p + m, t) <==> Includes(m, t)
    decreases |p|
  {
    if p != [] {
      assert (p + m)[0] == p[0];
      assert !StartsWith(p + m, t);
      assert (p + m)[1..] == p[1..] + m;
      IncludesAfterPrefix(p[1..], m, t);
    } else {
      assert p + m == m;
    }
  }

  /** The ECMAScript WhiteSpace and LineTerminator code points, which `trim` removes. */
  predicate IsJsSpace(c: char) {
    c == ' ' || c == '\t' || c == '\n' || c == '\r' || c == '\U{000B}' || c == '\U{000C}'
    || c == '\U{00A0}' || c == '\U{1680}' || ('\U{2000}' <= c <= '\U{200A}')
    || c == '\U{2028}' || c == '\U{2029}' || c == '\U{202F}' || c == '\U{205F}'
    || c == '\U{3000}' || c == '\U{FEFF}'
  }

  function TrimStart(s: string): (r: string)
    ensures |r| <= |s| && r == s[|s| - |r|..]
    ensures r == [] || !IsJsSpace(r[0])
    ensures forall i :: 0 <= i < |s| - |r| ==> IsJsSpace(s[i])
    decreases |s|
  {
    if s != [] && IsJsSpace(s[0]) then TrimStart(s[1..]) else s
  }

  function TrimEnd(s: string): (r: string)
    ensures |r| <= |s| && r == s[..|r|]
    ensures r == [] || !IsJsSpace(r[|r| - 1])
    ensures forall i :: |r| <= i < |s| ==> IsJsSpace(s[i])
    decreases |s|
  {
    if s != [] && IsJsSpace(s[|s| - 1]) then TrimEnd(s[..|s| - 1]) else s
  }

  /** `s.trim()`: the longest inner slice of `s` that neither starts nor ends with white space. */
  function Trim(s: string): (r: string)
    ensures |r| <= |s|
    ensures r == [] || (!IsJsSpace(r[0]) && !IsJsSpace(r[|r| - 1]))
    ensures exists a, b :: 0 <= a <= b <= |s| && r == s[a..b] &&
              (forall i :: 0 <= i < a ==> IsJsSpace(s[i])) && (forall i :: b <= i < |s| ==> IsJsSpace(s[i]))
  {
    TrimIsSlice(s, TrimStart(s));
    TrimEnd(TrimStart(s))
  }

  /** Trimming both ends of `s` cuts a white-space prefix and a white-space suffix off `s`. */
  lemma {:induction false} TrimIsSlice(s: string, u: string)
    requires u == TrimStart(s)
    ensures var a, b := |s| - |u|, |s| - |u| + |TrimEnd(u)|;
              0 <= a <= b <= |s| && TrimEnd(u) == s[a..b] &&
              (forall i :: 0 <= i < a ==> IsJsSpace(s[i])) && (forall i :: b <= i < |s| ==> IsJsSpace(s[i]))
  {
    var a, r := |s| - |u|, TrimEnd(u);
    var b := a + |r|;
    assert u == s[a..];
    assert r == u[..|r|];
    forall i | b <= i < |s|
      ensures IsJsSpace(s[i])
    {
      assert s[i] == u[i - a];
    }
  }

  /** `s.trim() === ''` exactly when every character of `s` is white space. */
  lemma TrimEmptyIff(s: string)
    ensures Trim(s) == [] <==> forall i :: 0 <= i < |s| ==> IsJsSpace(s[i])
  {
  }

  lemma {:induction false} TrimIdempotent(s: string)
    ensures Trim(Trim(s)) == Trim(s)
  {
  }

  /** Characters that a decimal rendering is made of. */
  predicate IsDigit(c: char) {
    '0' <= c <= '9'
  }

  function DigitChar(d: nat): (c: char)
    requires d < 10
    ensures IsDigit(c) && c as int - '0' as int == d
  {
    ('0' as int + d) as char
  }

  /** The text JavaScript writes for a non-negative integer in a template literal: decimal, no leading zero. */
  function NatToString(n: nat): (r: string)
    ensures r != [] && forall i :: 0 <= i < |r| ==> IsDigit(r[i])
    ensures r[0] == '0' ==> n == 0
    decreases n
  {
    if n < 10 then [DigitChar(n)] else NatToString(n / 10) + [DigitChar(n % 10)]
  }

  function DigitValue(c: char): nat
    requires IsDigit(c)
  {
    c as int - '0' as int
  }

  /** The value of a string of decimal digits, most significant first. */
  function DigitsValue(s: string): nat
    requires forall i :: 0 <= i < |s| ==> IsDigit(s[i])
    decreases |s|
  {
    if s == [] then 0 else 10 * DigitsValue(s[..|s| - 1]) + DigitValue(s[|s| - 1])
  }

  lemma {:induction false} DigitsValueOfNatToString(n: nat)
    ensures DigitsValue(NatToString(n)) == n
    decreases n
  {
    if n >= 10 {
      var p := NatToString(n / 10);
      var r := NatToString(n);
      assert r == p + [DigitChar(n % 10)];
      assert r[..|r| - 1] == p;
      DigitsValueOfNatToString(n / 10);
    }
  }

  lemma {:induction false} NatToStringInjective(m: nat, n: nat)
    ensures NatToString(m) == NatToString(n) ==> m == n
  {
    DigitsValueOfNatToString(m);
    DigitsValueOfNatToString(n);
  }

  /** Length of the run of digits at the start of `s`. */
  function DigitRun(s: string): (k: nat)
    ensures k <= |s|
    ensures forall i :: 0 <= i < k ==> IsDigit(s[i])
    ensures k < |s| ==> !IsDigit(s[k])
    decreases |s|
  {
    if s != [] && IsDigit(s[0]) then 1 + DigitRun(s[1..]) else 0
  }

  lemma {:induction false} DigitRunOfDigits(d: string, tail: string)
    requires forall i :: 0 <= i < |d| ==> IsDigit(d[i])
    requires tail == [] || !IsDigit(tail[0])
    ensures DigitRun(d + tail) == |d|
    decreases |d|
  {
    if d == [] {
      assert d + tail == tail;
    } else {
      assert (d + tail)[1..] == d[1..] + tail;
      DigitRunOfDigits(d[1..], tail);
    }
  }

  /** The line `${prefix}${status} - ${reason}` that the chat and upload pages put in their errors. */
  function StatusLine(prefix: string, status: nat, reason: string): string {
    prefix + NatToString(status) + " - " + reason
  }

  /** Reads a status line back: the inverse of `StatusLine` for a fixed prefix. */
  function ParseStatusLine(prefix: string, line: string): Option<(nat, string)> {
    if StartsWith(line, prefix) then
      var rest := line[|prefix|..];
      var k := DigitRun(rest);
      if 0 < k && StartsWith(rest[k..], " - ") then Some((DigitsValue(rest[..k]), rest[k + 3..])) else None
    else None
  }

  lemma {:induction false} ParseStatusLineRoundTrip(prefix: string, status: nat, reason: string)
    ensures ParseStatusLine(prefix, StatusLine(prefix, status, reason)) == Some((status, reason))
  {
    var d := NatToString(status);
    var tail := " - " + reason;
    var line := StatusLine(prefix, status, reason);
    assert line == prefix + (d + tail);
    assert line[..|prefix|] == prefix;
    var rest := line[|prefix|..];
    assert rest == d + tail;
    DigitRunOfDigits(d, tail);
    assert rest[..|d|] == d;
    assert rest[|d|..] == tail;
    assert tail[..3] == " - ";
    assert rest[|d| + 3..] == reason;
    DigitsValueOfNatToString(status);
  }
}
