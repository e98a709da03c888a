/**
 * Conversions between integers and their decimal text, used when a string
 * value is read as a number, a number is read as a string, or either is read
 * as a boolean.
 *
 * Parsing follows one fixed leading-prefix rule: an optional '+' or '-', then
 * one or more decimal digits; the longest such prefix is read and anything
 * after it is ignored ("42abc" reads as 42). A string with no such prefix has
 * no numeric value.
 */
module Decimal {
  import opened Wrappers

  predicate IsDigit(c: char) {
    '0' <= c <= '9'
  }

  predicate IsSign(c: char) {
    c == '+' || c == '-'
  }

  predicate AllDigits(s: string) {
    forall i :: 0 <= i < |s| ==> IsDigit(s[i])
  }

  function DigitValue(c: char): (d: nat)
    requires IsDigit(c)
    ensures d < 10
  {
    (c - '0') as nat
  }

  function DigitChar(d: nat): (c: char)
    requires d < 10
    ensures IsDigit(c) && DigitValue(c) == d
  {
    ('0' as int + d) as char
  }

  /** The number a string of digits denotes, most significant digit first. */
  function DigitsValue(ds: string): nat
    requires AllDigits(ds)
  {
    if ds == [] then 0
    else DigitsValue(ds[..|ds| - 1]) * 10 + DigitValue(ds[|ds| - 1])
  }

  /** The length of the longest prefix of s made only of digits. */
  function LeadingDigits(s: string): (n: nat)
    ensures n <= |s|
    ensures AllDigits(s[..n])
    ensures n < |s| ==> !IsDigit(s[n])
  {
    if s == [] || !IsDigit(s[0]) then 0
    else 1 + LeadingDigits(s[1..])
  }

  /** True when s starts with the prefix the parse rule accepts. */
  predicate HasNumericPrefix(s: string) {
    || (|s| > 0 && IsDigit(s[0]))
    || (|s| > 1 && IsSign(s[0]) && IsDigit(s[1]))
  }

  /** The integer read from the numeric prefix of s, if s has one. */
  function ParseInteger(s: string): (r: Option<int>)
    ensures r.Some? <==> HasNumericPrefix(s)
    ensures r.Some? && |s| > 0 && s[0] == '-' ==> r.value <= 0
    ensures r.Some? && |s| > 0 && s[0] != '-' ==> r.value >= 0
  {
    if |s| > 0 && IsSign(s[0]) then
      var n := LeadingDigits(s[1..]);
      if n == 0 then None
      else
        var magnitude := DigitsValue(s[1..][..n]);
        Some(if s[0] == '-' then -(magnitude as int) else magnitude)
    else
      var n := LeadingDigits(s);
      if n == 0 then None else Some(DigitsValue(s[..n]))
  }

  /** The decimal digits of n, without leading zeros ("0" for zero). */
  function NatToDigits(n: nat): (ds: string)
    ensures |ds| > 0 && AllDigits(ds)
    ensures ds[0] == '0' ==> n == 0 && |ds| == 1
  {
    if n < 10 then [DigitChar(n)]
    else NatToDigits(n / 10) + [DigitChar(n % 10)]
  }

  /** The canonical decimal rendering of an integer: a '-' for negatives, then the digits. */
  function FormatInteger(n: int): (s: string)
    ensures IsCanonical(s)
    ensures s[0] == '-' <==> n < 0
  {
    if n < 0 then "-" + NatToDigits(-n) else NatToDigits(n)
  }

  /** The strings FormatInteger produces: no '+', no leading zero, no "-0". */
  predicate IsCanonical(s: string) {
    if |s| > 0 && s[0] == '-' then
      |s| > 1 && AllDigits(s[1..]) && s[1] != '0'
    else
      |s| > 0 && AllDigits(s) && (s[0] != '0' || |s| == 1)
  }

  /**
   * The boolean a string reads as: true when it starts with 'T', 't', 'Y' or
   * 'y' ("true", "YES", ...) or when its numeric prefix is non-zero; false
   * otherwise, including when it has no numeric prefix.
   */
  function ParseBool(s: string): (b: bool)
    ensures s == [] ==> !b
    ensures |s| > 0 && s[0] in "TtYy" ==> b
    ensures HasNumericPrefix(s) ==> (b <==> ParseInteger(s).value != 0)
    ensures !HasNumericPrefix(s) && (|s| == 0 || s[0] !in "TtYy") ==> !b
  {
    || (|s| > 0 && s[0] in "TtYy")
    || (var r := ParseInteger(s); r.Some? && r.value != 0)
  }

  // ----- Lemmas -----

  lemma {:induction false} DigitsRoundTrip(n: nat)
    ensures DigitsValue(NatToDigits(n)) == n
  {
    if n >= 10 {
      var ds := NatToDigits(n);
      assert ds[..|ds| - 1] == NatToDigits(n / 10);
      DigitsRoundTrip(n / 10);
    }
  }

  lemma {:induction false} DigitsValuePositive(ds: string)
    requires |ds| > 0 && AllDigits(ds) && ds[0] != '0'
    ensures DigitsValue(ds) >= 1
  {
    if |ds| > 1 {
      DigitsValuePositive(ds[..|ds| - 1]);
    }
  }

  /** Rendering the value of a digit string without leading zeros gives that string back. */
  lemma {:induction false} ValueDigitsRoundTrip(ds: string)
    requires |ds| > 0 && AllDigits(ds) && (ds[0] != '0' || |ds| == 1)
    ensures NatToDigits(DigitsValue(ds)) == ds
  {
    var last := |ds| - 1;
    if |ds| == 1 {
      assert DigitsValue(ds) == DigitValue(ds[0]) by {
        assert ds[..last] == [];
      }
    } else {
      var p := ds[..last];
      DigitsValuePositive(p);
      ValueDigitsRoundTrip(p);
      var n := DigitsValue(ds);
      assert n / 10 == DigitsValue(p) && n % 10 == DigitValue(ds[last]);
      assert ds == p + [ds[last]];
    }
  }

  /** The longest digit prefix of a digit string followed by a non-digit is that digit string. */
  lemma LeadingDigitsOfPrefix(ds: string, rest: string)
    requires AllDigits(ds)
    requires rest == [] || !IsDigit(rest[0])
    ensures LeadingDigits(ds + rest) == |ds|
    ensures (ds + rest)[..|ds|] == ds
  {
  }

  /**
   * Parsing the rendering of n, followed by anything that does not start with
   * a digit, gives n back: rendering and parsing are inverse.
   */
  lemma ParseFormatted(n: int, rest: string)
    requires rest == [] || !IsDigit(rest[0])
    ensures ParseInteger(FormatInteger(n) + rest) == Some(n)
  {
    if n < 0 {
      ParseNegativeDigits(-n, rest);
      assert FormatInteger(n) + rest == "-" + NatToDigits(-n) + rest;
    } else {
      ParseDigits(n, rest);
    }
  }

  lemma ParseDigits(m: nat, rest: string)
    requires rest == [] || !IsDigit(rest[0])
    ensures ParseInteger(NatToDigits(m) + rest) == Some(m)
  {
    var ds := NatToDigits(m);
    var s := ds + rest;
    assert s[0] == ds[0];
    LeadingDigitsOfPrefix(ds, rest);
    DigitsRoundTrip(m);
  }

  lemma ParseNegativeDigits(m: nat, rest: string)
    requires m > 0
    requires rest == [] || !IsDigit(rest[0])
    ensures ParseInteger("-" + NatToDigits(m) + rest) == Some(-(m as int))
  {
    var ds := NatToDigits(m);
    var s := "-" + ds + rest;
    assert s[0] == '-' && s[1..] == ds + rest;
    LeadingDigitsOfPrefix(ds, rest);
    DigitsRoundTrip(m);
  }

  /** Reading a canonical string as a number and rendering it again gives the same string. */
  lemma FormatParsed(s: string)
    requires IsCanonical(s)
    ensures ParseInteger(s).Some? && FormatInteger(ParseInteger(s).value) == s
  {
    if s[0] == '-' {
      var ds := s[1..];
      LeadingDigitsOfPrefix(ds, []);
      assert ds + [] == ds;
      DigitsValuePositive(ds);
      ValueDigitsRoundTrip(ds);
      assert s == "-" + ds;
    } else {
      LeadingDigitsOfPrefix(s, []);
      assert s + [] == s;
      ValueDigitsRoundTrip(s);
    }
  }

  /** A leading zero does not change the value of a digit string. */
  lemma {:induction false} DigitsValueLeadingZero(ds: string)
    requires AllDigits(ds)
    ensures DigitsValue("0" + ds) == DigitsValue(ds)
  {
    if ds == [] {
      assert ("0" + ds)[..0] == [];
    } else {
      var last := |ds| - 1;
      assert ("0" + ds)[..|ds|] == "0" + ds[..last];
      DigitsValueLeadingZero(ds[..last]);
    }
  }

  /** A '+' before the digits changes nothing; a '-' negates the value. */
  lemma ParseSigned(t: string)
    requires |t| > 0 && IsDigit(t[0])
    ensures ParseInteger("+" + t) == ParseInteger(t)
    ensures ParseInteger("-" + t) == Some(-ParseInteger(t).value)
  {
    assert ("+" + t)[1..] == t;
    assert ("-" + t)[1..] == t;
  }

  /** Leading zeros do not change the number read: "0042" reads as 42, "-0" as 0. */
  lemma ParseLeadingZero(t: string)
    requires |t| > 0 && IsDigit(t[0])
    ensures ParseInteger("0" + t) == ParseInteger(t)
  {
    var n := LeadingDigits(t);
    var s := "0" + t;
    assert s[1..] == t;
    assert LeadingDigits(s) == n + 1;
    assert s[..n + 1] == "0" + t[..n];
    DigitsValueLeadingZero(t[..n]);
  }

  /** A rendered number reads as true exactly when it is non-zero. */
  lemma ParseBoolFormatted(n: int)
    ensures ParseBool(FormatInteger(n)) == (n != 0)
  {
    ParseFormatted(n, []);
    assert FormatInteger(n) + [] == FormatInteger(n);
  }
}
