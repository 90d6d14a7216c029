/** Decimal printing and parsing of integers: Go's "%d" verb, strconv.FormatInt, strconv.ParseInt and strconv.Atoi. */
module Decimal {
  import opened Prelude

  predicate IsDigit(c: char) { '0' <= c <= '9' }

  predicate AllDigits(s: string) { forall k :: 0 <= k < |s| ==> IsDigit(s[k]) }

  function Digit(d: nat): (c: char)
    requires d < 10
    ensures IsDigit(c) && c as int - '0' as int == d
  {
    ('0' as int + d) as char
  }

  function Dec(n: nat): (s: string)
    ensures s != [] && AllDigits(s)
  {
    if n < 10 then [Digit(n)] else Dec(n / 10) + [Digit(n % 10)]
  }

  function FormatInt(x: int): (s: string)
    ensures s != [] && forall k :: 0 <= k < |s| ==> IsDigit(s[k]) || s[k] == '-'
  {
    if x < 0 then "-" + Dec(-x) else Dec(x)
  }

  function Value(s: string): nat
    requires AllDigits(s)
  {
    if s == [] then 0 else 10 * Value(s[..|s| - 1]) + (s[|s| - 1] as int - '0' as int)
  }

  /** The longest run of digits at the start. */
  function LeadingDigits(s: string): (d: string)
    ensures AllDigits(d) && |d| <= |s| && s[..|d|] == d
    ensures |d| < |s| ==> !IsDigit(s[|d|])
  {
    if s == "" || !IsDigit(s[0]) then "" else [s[0]] + LeadingDigits(s[1..])
  }

  lemma {:induction false} LeadingDigitsOf(d: string, rest: string)
    requires AllDigits(d) && (rest == "" || !IsDigit(rest[0]))
    ensures LeadingDigits(d + rest) == d
  {
    if d == "" {
      assert d + rest == rest;
    } else {
      LeadingDigitsOf(d[1..], rest);
      assert (d + rest)[1..] == d[1..] + rest;
    }
  }

  /**
   * The number a string denotes in base 10, or None where strconv.ParseInt(s, 10, 64) and strconv.Atoi
   * report an error: no digits, a character that is not a digit, or a value outside int64.
   */
  function ParseInt(s: string): Option<int64> {
    var signed := s != [] && (s[0] == '-' || s[0] == '+');
    var digits := if signed then s[1..] else s;
    if digits == [] || !AllDigits(digits) then None else
      var magnitude: int := Value(digits);
      var x := if signed && s[0] == '-' then -magnitude else magnitude;
      if -TWO_TO_THE_63 <= x < TWO_TO_THE_63 then Some(x) else None
  }

  lemma {:induction false} ValueOfDec(n: nat)
    ensures Value(Dec(n)) == n
  {
    if n >= 10 {
      ValueOfDec(n / 10);
      var s := Dec(n);
      assert s[..|s| - 1] == Dec(n / 10);
    }
  }

  function InRange(x: int): Option<int64> { if -TWO_TO_THE_63 <= x < TWO_TO_THE_63 then Some(x) else None }

  /** Digits with or without a sign denote their value, if it fits. */
  lemma ParseSigned(d: string)
    requires d != "" && AllDigits(d)
    ensures ParseInt(d) == ParseInt("+" + d) == InRange(Value(d)) && ParseInt("-" + d) == InRange(0 - Value(d))
  {
    assert IsDigit(d[0]);
    assert ("+" + d)[1..] == d && ("-" + d)[1..] == d;
  }

  /** Nothing else denotes a number. */
  lemma ParseNothingElse(s: string)
    requires ParseInt(s).Some?
    ensures exists d :: d != "" && AllDigits(d) && (s == d || s == "+" + d || s == "-" + d)
  {
    var signed := s[0] == '-' || s[0] == '+';
    var d := if signed then s[1..] else s;
    assert signed ==> s == [s[0]] + d;
  }

  /** Every int64 survives printing and parsing. */
  lemma ParseFormat(x: int64)
    ensures ParseInt(FormatInt(x)) == Some(x)
  {
    var y: int := x;
    if y < 0 {
      ValueOfDec(-y);
      assert FormatInt(x)[1..] == Dec(-y);
    } else {
      ValueOfDec(x);
    }
  }

  // ----- What strconv.ParseInt returns when its error is not looked at -----

  /** The int64 that is closest. */
  function Nearest(x: int): (r: int64)
    ensures r == x || (x < r && r == -TWO_TO_THE_63) || (r < x && r == TWO_TO_THE_63 - 1)
  {
    if x < -TWO_TO_THE_63 then -TWO_TO_THE_63 else if x >= TWO_TO_THE_63 then TWO_TO_THE_63 - 1 else x
  }

  /** What the digits of an unsigned number come to; digits beyond a uint64 end the parsing, whatever follows them. */
  function Magnitude(t: string): Option<nat> {
    var d := LeadingDigits(t);
    if d != "" && (d == t || Value(d) >= TWO_TO_THE_64) then Some(Value(d)) else None
  }

  /**
   * The value that strconv.ParseInt(s, 10, 64) returns beside its error: 0 for a string that is no number, the closest
   * bound for a number out of range.
   */
  function ParsedInt(s: string): int64 {
    var signed := s != [] && (s[0] == '-' || s[0] == '+');
    match Magnitude(if signed then s[1..] else s)
    case None => 0
    case Some(m) => Nearest(if signed && s[0] == '-' then 0 - m else m)
  }

  /** Where there is no error it is the number that was parsed. */
  lemma ParsedIsParse(s: string)
    requires ParseInt(s).Some?
    ensures ParsedInt(s) == ParseInt(s).value
  {
    var t := if s[0] == '-' || s[0] == '+' then s[1..] else s;
    LeadingDigitsOf(t, "");
    assert t + "" == t;
  }

  lemma ParsedFormat(x: int64)
    ensures ParsedInt(FormatInt(x)) == x
  {
    ParseFormat(x);
    ParsedIsParse(FormatInt(x));
  }

  lemma MagnitudeOf(d: string, rest: string)
    requires AllDigits(d) && (rest == "" || !IsDigit(rest[0]))
    ensures Magnitude(d + rest) == if d != "" && (rest == "" || Value(d) >= TWO_TO_THE_64) then Some(Value(d)) else None
  {
    LeadingDigitsOf(d, rest);
    assert d == d + rest <==> rest == "" by {
      assert |d + rest| == |d| + |rest|;
    }
  }

  lemma Signed(t: string, some: bool, v: nat)
    requires Magnitude(t) == if some then Some(v) else None
    ensures ParsedInt("+" + t) == if some then Nearest(v) else 0
    ensures ParsedInt("-" + t) == if some then Nearest(0 - v) else 0
    ensures t == "" || (t[0] != '+' && t[0] != '-') ==> ParsedInt(t) == ParsedInt("+" + t)
  {
    assert ("+" + t)[1..] == t && ("-" + t)[1..] == t;
  }

  /** Every string is a sign or none, digits or none, and a rest; so this says all of it. */
  lemma ParsedExactly(d: string, rest: string)
    requires AllDigits(d) && (rest == "" || !IsDigit(rest[0]))
    ensures var some := d != "" && (rest == "" || Value(d) >= TWO_TO_THE_64);
      && ParsedInt("+" + (d + rest)) == (if some then Nearest(Value(d)) else 0)
      && ParsedInt("-" + (d + rest)) == (if some then Nearest(0 - Value(d)) else 0)
    ensures d != "" || rest == "" || (rest[0] != '+' && rest[0] != '-') ==>
      ParsedInt(d + rest) == ParsedInt("+" + (d + rest))
  {
    MagnitudeOf(d, rest);
    Signed(d + rest, d != "" && (rest == "" || Value(d) >= TWO_TO_THE_64), Value(d));
    assert d != "" ==> IsDigit((d + rest)[0]);
  }

  lemma DecInjective(m: nat, n: nat)
    requires Dec(m) == Dec(n)
    ensures m == n
  {
    ValueOfDec(m);
    ValueOfDec(n);
  }

  /** At most 19 digits for anything a 63-bit magnitude can reach, so at most 20 characters for an int64. */
  lemma {:induction false} DecLength(n: nat, d: nat)
    requires n < Power10(d) && d >= 1
    ensures |Dec(n)| <= d
  {
    if n >= 10 {
      DecLength(n / 10, d - 1);
    }
  }

  function Power10(d: nat): nat {
    if d == 0 then 1 else 10 * Power10(d - 1)
  }

  lemma Int64Length(x: int64)
    ensures |FormatInt(x)| <= 20
  {
    assert Power10(4) == 10000;
    assert Power10(8) == 10000_0000;
    assert Power10(12) == 10000_0000_0000;
    assert Power10(16) == 10000_0000_0000_0000;
    assert Power10(19) == 1000_0000_0000_0000_0000;
    var y: int := x;
    DecLength(if y < 0 then -y else y, 19);
  }
}
