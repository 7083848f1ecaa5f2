/**
 * The string operations of JavaScript that the application relies on:
 * `trim`, `toLowerCase` (on ASCII letters), `includes`, `startsWith`
 * and the decimal rendering of integers.
 */
module Text {

  /** The characters that `String.prototype.trim` removes and that `\s` matches. */
  predicate IsWhitespace(c: char) {
    || c == ' ' || c == '\t' || c == '\n' || c == '\r'
    || c == '\U{000B}' || c == '\U{000C}' || c == '\U{00A0}' || c == '\U{1680}'
    || ('\U{2000}' <= c <= '\U{200A}')
    || c == '\U{2028}' || c == '\U{2029}' || c == '\U{202F}' || c == '\U{205F}'
    || c == '\U{3000}' || c == '\U{FEFF}'
  }

  /** Drops leading whitespace: what is removed is whitespace, and what is kept
      starts with a non-whitespace character or is empty. */
  function TrimStart(s: string): (r: string)
    ensures |r| <= |s| && r == s[|s| - |r|..]
    ensures r == [] || !IsWhitespace(r[0])
    ensures forall i :: 0 <= i < |s| - |r| ==> IsWhitespace(s[i])
  {
    if s != [] && IsWhitespace(s[0]) then TrimStart(s[1..]) else s
  }

  /** Drops trailing whitespace. */
  function TrimEnd(s: string): (r: string)
    ensures |r| <= |s| && r == s[..|r|]
    ensures r == [] || !IsWhitespace(r[|r| - 1])
    ensures forall i :: |r| <= i < |s| ==> IsWhitespace(s[i])
  {
    if s != [] && IsWhitespace(s[|s| - 1]) then TrimEnd(s[..|s| - 1]) else s
  }

  /** Trimming the end of a trimmed start leaves a slice of `s` that begins
      where the leading whitespace ends and has only whitespace after it. */
  lemma TrimmedSlice(s: string, t: string, r: string)
    requires |t| <= |s| && t == s[|s| - |t|..]
    requires forall k :: 0 <= k < |s| - |t| ==> IsWhitespace(s[k])
    requires |r| <= |t| && r == t[..|r|]
    requires forall k :: |r| <= k < |t| ==> IsWhitespace(t[k])
    ensures OccursAt(s, r, |s| - |t|)
    ensures AllWhitespace(s[..|s| - |t|])
    ensures AllWhitespace(s[|s| - |t| + |r|..])
  {
    var a := |s| - |t|;
    assert s[a..][..|r|] == s[a..a + |r|];
    assert forall k :: a + |r| <= k < |s| ==> s[k] == t[k - a];
  }

  /** `s.trim()`: the result is a contiguous slice of `s` with no whitespace at
      either end, and only whitespace was cut away. */
  function Trim(s: string): (r: string)
    ensures r == [] || (!IsWhitespace(r[0]) && !IsWhitespace(r[|r| - 1]))
    ensures exists i :: OccursAt(s, r, i) && AllWhitespace(s[..i]) && AllWhitespace(s[i + |r|..])
  {
    var t := TrimStart(s);
    var r := TrimEnd(t);
    TrimmedSlice(s, t, r);
    r
  }

  predicate AllWhitespace(s: string) {
    forall i :: 0 <= i < |s| ==> IsWhitespace(s[i])
  }

  /** `!s.trim()` holds exactly for the strings made only of whitespace. */
  lemma BlankIffAllWhitespace(s: string)
    ensures Trim(s) == [] <==> AllWhitespace(s)
  {
  }

  /** Trimming twice is trimming once. */
  lemma {:induction false} TrimIdempotent(s: string)
    ensures Trim(Trim(s)) == Trim(s)
  {
    var r := Trim(s);
    assert TrimStart(r) == r;
    assert TrimEnd(r) == r;
  }

  /** `toLowerCase` on one character (ASCII letters only). */
  function LowerChar(c: char): (r: char)
    ensures 'A' <= c <= 'Z' ==> r as int == c as int + 32
    ensures !('A' <= c <= 'Z') ==> r == c
    ensures !('A' <= r <= 'Z')
  {
    if 'A' <= c <= 'Z' then (c as int + 32) as char else c
  }

  function ToLower(s: string): (r: string)
    ensures |r| == |s| && forall i :: 0 <= i < |s| ==> r[i] == LowerChar(s[i])
  {
    seq(|s|, i requires 0 <= i < |s| => LowerChar(s[i]))
  }

  /** `s.startsWith(p)`. */
  predicate StartsWith(s: string, p: string) {
    |p| <= |s| && s[..|p|] == p
  }

  predicate OccursAt(s: string, sub: string, i: int) {
    0 <= i <= |s| - |sub| && s[i..i + |sub|] == sub
  }

  /** `s.includes(sub)`: some position of `s` starts a copy of `sub`. */
  function Contains(s: string, sub: string): (b: bool)
    ensures b <==> exists i :: OccursAt(s, sub, i)
    decreases |s|
  {
    if StartsWith(s, sub) then
      assert OccursAt(s, sub, 0);
      true
    else if s == [] then
      false
    else
      var b := Contains(s[1..], sub);
      if b then
        var i :| OccursAt(s[1..], sub, i);
        assert s[1..][i..i + |sub|] == s[i + 1..i + 1 + |sub|];
        assert OccursAt(s, sub, i + 1);
        true
      else
        assert forall i :: OccursAt(s, sub, i) ==> i == 0 || OccursAt(s[1..], sub, i - 1) by {
          forall i | OccursAt(s, sub, i) && i != 0
            ensures OccursAt(s[1..], sub, i - 1)
          {
            assert s[1..][i - 1..i - 1 + |sub|] == s[i..i + |sub|];
          }
        }
        false
  }

  function DigitChar(d: nat): (c: char)
    requires d < 10
    ensures '0' <= c <= '9'
  {
    ('0' as int + d) as char
  }

  /** The decimal rendering of a natural number, as `String(n)` gives it. */
  function NatToString(n: nat): (r: string)
    ensures |r| >= 1 && forall i :: 0 <= i < |r| ==> '0' <= r[i] <= '9'
    ensures r[0] == '0' ==> n == 0
    decreases n
  {
    if n < 10 then [DigitChar(n)] else NatToString(n / 10) + [DigitChar(n % 10)]
  }

  /** The value of a string of decimal digits; the partner of NatToString. */
  function DigitsValue(s: string): nat
    requires forall i :: 0 <= i < |s| ==> '0' <= s[i] <= '9'
  {
    if s == [] then 0
    else 10 * DigitsValue(s[..|s| - 1]) + (s[|s| - 1] as int - '0' as int)
  }

  lemma {:induction false} NatToStringRoundTrip(n: nat)
    ensures DigitsValue(NatToString(n)) == n
    decreases n
  {
    if n >= 10 {
      var r := NatToString(n);
      assert r[..|r| - 1] == NatToString(n / 10);
      NatToStringRoundTrip(n / 10);
    }
  }

  /** The decimal rendering of an integer: a minus sign for negatives, never a plus. */
  function IntToString(i: int): (r: string)
    ensures |r| >= 1 && r[0] != '+'
    ensures (r[0] == '-') <==> i < 0
  {
    if i < 0 then "-" + NatToString(-i) else NatToString(i)
  }

  predicate AllDigits(s: string) {
    forall i :: 0 <= i < |s| ==> '0' <= s[i] <= '9'
  }

  /** An optional minus sign followed by at least one decimal digit. */
  predicate IsDecimal(s: string) {
    if |s| >= 1 && s[0] == '-' then |s| >= 2 && AllDigits(s[1..]) else |s| >= 1 && AllDigits(s)
  }

  /** The value of a decimal numeral; the partner of IntToString. */
  function IntValue(s: string): int
    requires IsDecimal(s)
  {
    if s[0] == '-' then
      assert AllDigits(s[1..]);
      -(DigitsValue(s[1..]) as int)
    else
      assert AllDigits(s);
      DigitsValue(s)
  }

  lemma NegativeRoundTrip(i: int)
    requires i < 0
    ensures IsDecimal(IntToString(i)) && IntValue(IntToString(i)) == i
  {
    var digits := NatToString(-i);
    var r := "-" + digits;
    assert IntToString(i) == r;
    assert r[0] == '-' && r[1..] == digits && AllDigits(digits);
    NatToStringRoundTrip(-i);
    assert IsDecimal(r) && IntValue(r) == -(DigitsValue(digits) as int) == i;
  }

  lemma NonNegativeRoundTrip(i: nat)
    ensures IsDecimal(IntToString(i)) && IntValue(IntToString(i)) == i
  {
    var r := IntToString(i);
    assert r == NatToString(i) && '0' <= r[0] <= '9';
    NatToStringRoundTrip(i);
  }

  lemma IntToStringRoundTrip(i: int)
    ensures IsDecimal(IntToString(i)) && IntValue(IntToString(i)) == i
  {
    if i < 0 {
      NegativeRoundTrip(i);
    } else {
      NonNegativeRoundTrip(i);
    }
  }
}
