/** Decimal text as Python reads and writes it: `str.isdigit`, `int(s)` in base 10,
    and the decimal rendering `"{}".format(n)` of a natural number. Only ASCII is
    modelled (other Unicode digits and spaces are out of scope). */
module Decimal {
  import opened Errors

  predicate IsAsciiDigit(c: char) { '0' <= c <= '9' }

  /** Every character is an ASCII digit (the empty string included). */
  predicate AllDigits(s: string) {
    forall i :: 0 <= i < |s| ==> IsAsciiDigit(s[i])
  }

  /** `s.isdigit()` on ASCII text: non-empty and only digits. */
  predicate IsDigitString(s: string) {
    |s| > 0 && AllDigits(s)
  }

  function DigitOf(c: char): (d: nat)
    requires IsAsciiDigit(c)
    ensures d < 10
  {
    c as int - '0' as int
  }

  function CharOf(d: nat): (c: char)
    requires d < 10
    ensures IsAsciiDigit(c) && DigitOf(c) == d
  {
    ('0' as int + d) as char
  }

  /** The number a string of digits denotes, most significant digit first. */
  function DigitValue(s: string): nat
    requires AllDigits(s)
  {
    if |s| == 0 then 0 else DigitValue(s[..|s| - 1]) * 10 + DigitOf(s[|s| - 1])
  }

  /** `"{}".format(n)` for a natural number: no sign, no leading zero. */
  function DecimalString(n: nat): (r: string)
    ensures IsDigitString(r)
    ensures r[0] == '0' ==> n == 0
  {
    if n < 10 then [CharOf(n)] else DecimalString(n / 10) + [CharOf(n % 10)]
  }

  lemma {:induction false} DecimalStringRoundTrip(n: nat)
    ensures DigitValue(DecimalString(n)) == n
  {
    if n >= 10 {
      var prefix := DecimalString(n / 10);
      var s := prefix + [CharOf(n % 10)];
      assert s[..|s| - 1] == prefix;
      DecimalStringRoundTrip(n / 10);
    }
  }

  /** Leading zeros do not change the value: `int("040") == 40`. */
  lemma {:induction false} LeadingZeroIgnored(s: string)
    requires AllDigits(s)
    ensures AllDigits("0" + s) && DigitValue("0" + s) == DigitValue(s)
  {
    var t := "0" + s;
    assert AllDigits(t) by {
      forall i | 0 <= i < |t| ensures IsAsciiDigit(t[i]) {
        if i > 0 { assert t[i] == s[i - 1]; }
      }
    }
    if |s| > 0 {
      var p := s[..|s| - 1];
      assert t[..|t| - 1] == "0" + p;
      assert t[|t| - 1] == s[|s| - 1];
      LeadingZeroIgnored(p);
    }
  }

  // ---- int(s), base 10 ----

  /** The whitespace `int()` strips: space, tab, newline, vertical tab, form feed, carriage return. */
  predicate IsSpace(c: char) { c == ' ' || '\t' <= c <= '\r' }

  function TrimStart(s: string): (r: string)
    ensures |r| <= |s| && (|r| > 0 ==> !IsSpace(r[0]))
    ensures r == s[|s| - |r|..]
  {
    if |s| > 0 && IsSpace(s[0]) then TrimStart(s[1..]) else s
  }

  function TrimEnd(s: string): (r: string)
    ensures |r| <= |s| && (|r| > 0 ==> !IsSpace(r[|r| - 1]))
    ensures r == s[..|r|]
  {
    if |s| > 0 && IsSpace(s[|s| - 1]) then TrimEnd(s[..|s| - 1]) else s
  }

  /** Digits, where single underscores may separate digits (`"1_000"`). */
  predicate IsDigitGroups(t: string) {
    && |t| > 0
    && IsAsciiDigit(t[0])
    && IsAsciiDigit(t[|t| - 1])
    && (forall i :: 0 <= i < |t| ==> IsAsciiDigit(t[i]) || t[i] == '_')
    && (forall i :: 0 <= i < |t| - 1 ==> t[i] == '_' ==> t[i + 1] != '_')
  }

  function WithoutUnderscores(t: string): (r: string)
    requires forall i :: 0 <= i < |t| ==> IsAsciiDigit(t[i]) || t[i] == '_'
    ensures AllDigits(r)
  {
    if |t| == 0 then ""
    else if t[0] == '_' then WithoutUnderscores(t[1..])
    else [t[0]] + WithoutUnderscores(t[1..])
  }

  function UnsignedValue(t: string): Option<nat> {
    if IsDigitGroups(t) then Some(DigitValue(WithoutUnderscores(t))) else None
  }

  lemma {:induction false} NoUnderscoresToRemove(s: string)
    requires AllDigits(s)
    ensures WithoutUnderscores(s) == s
  {
    if |s| > 0 {
      assert AllDigits(s[1..]) by {
        forall i | 0 <= i < |s[1..]| ensures IsAsciiDigit(s[1..][i]) { assert s[1..][i] == s[i + 1]; }
      }
      NoUnderscoresToRemove(s[1..]);
      assert s == [s[0]] + s[1..];
    }
  }

  lemma DigitStringUntrimmed(s: string)
    requires IsDigitString(s)
    ensures TrimStart(s) == s && TrimEnd(s) == s
  {
    assert !IsSpace(s[0]) by { assert IsAsciiDigit(s[0]); }
    assert !IsSpace(s[|s| - 1]) by { assert IsAsciiDigit(s[|s| - 1]); }
  }

  lemma DigitStringGroups(s: string)
    requires IsDigitString(s)
    ensures IsDigitGroups(s)
  {
    assert forall i :: 0 <= i < |s| ==> IsAsciiDigit(s[i]);
  }

  /** A string that passes `isdigit()` has no space to strip and no underscore to drop. */
  lemma DigitStringIsBare(s: string)
    ensures IsDigitString(s) ==>
              && TrimStart(s) == s && TrimEnd(s) == s
              && IsDigitGroups(s) && WithoutUnderscores(s) == s
  {
    if IsDigitString(s) {
      DigitStringUntrimmed(s);
      DigitStringGroups(s);
      NoUnderscoresToRemove(s);
    }
  }

  /** `int(s)`: `None` where Python raises `ValueError`. A string that passes
      `isdigit()` is read as the value of its digits, leading zeros and all. */
  function PyInt(s: string): (r: Option<int>)
    ensures IsDigitString(s) ==> r == Some(DigitValue(s))
  {
    DigitStringIsBare(s);
    var t := TrimEnd(TrimStart(s));
    if |t| > 0 && (t[0] == '+' || t[0] == '-') then
      match UnsignedValue(t[1..])
      case None => None
      case Some(v) =>
        var signed: int := if t[0] == '-' then -(v as int) else v;
        Some(signed)
    else
      match UnsignedValue(t)
      case None => None
      case Some(v) => Some(v)
  }

  /** `int()` reads back what `"{}".format(n)` writes. */
  lemma PyIntOfDecimal(n: nat)
    ensures PyInt(DecimalString(n)) == Some(n)
  {
    DecimalStringRoundTrip(n);
  }

  /** With a `-` sign in front, `int()` reads the negated value. */
  lemma PyIntOfNegatedDecimal(n: nat)
    ensures PyInt("-" + DecimalString(n)).Some?
    ensures PyInt("-" + DecimalString(n)).value == -(n as int)
  {
    var d := DecimalString(n);
    var t := "-" + d;
    assert TrimStart(t) == t;
    assert t[|t| - 1] == d[|d| - 1];
    assert TrimEnd(t) == t;
    assert t[1..] == d;
    NoUnderscoresToRemove(d);
    DecimalStringRoundTrip(n);
    assert UnsignedValue(d) == Some(n);
  }

  /** `int()` rejects text with no digits at all: `int("")`, `int("abc")`, `int("-")`. */
  lemma NoDigitNoInt(s: string)
    requires forall i :: 0 <= i < |s| ==> !IsAsciiDigit(s[i])
    ensures PyInt(s) == None
  {
    var t := TrimEnd(TrimStart(s));
    var u := TrimStart(s);
    assert forall i :: 0 <= i < |u| ==> u[i] == s[|s| - |u| + i];
    assert forall i :: 0 <= i < |t| ==> t[i] == u[i];
    if |t| > 1 {
      assert t[1..][0] == t[1];
    }
  }
}
