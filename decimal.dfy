/**
 Decimal text for the primality checker: %d-style rendering of integers
 (used to build the verdict messages) and the whole-number parser that the
 line dispatcher applies to each input line (Go's strconv.Atoi on a 64-bit
 platform: optional sign, one or more ASCII digits, nothing else, and a
 range error outside the 64-bit signed range).
 */
module Decimal {
  import opened Wrappers

  /** Bounds of Go's `int` on a 64-bit platform; Atoi reports values outside as an error. */
  const MinInt: int := -0x8000_0000_0000_0000
  const MaxInt: int := 0x7fff_ffff_ffff_ffff

  predicate IsDigit(c: char) {
    '0' <= c <= '9'
  }

  predicate AllDigits(s: string) {
    forall i :: 0 <= i < |s| ==> IsDigit(s[i])
  }

  function DigitChar(d: nat): (c: char)
    requires d < 10
    ensures IsDigit(c) && c as int - '0' as int == d
  {
    (d + '0' as int) as char
  }

  function DigitValue(c: char): (d: nat)
    requires IsDigit(c)
    ensures d < 10
  {
    c as int - '0' as int
  }

  /** The value of a string of digits, most significant first. */
  function DigitsValue(s: string): nat
    requires AllDigits(s)
  {
    if s == [] then 0 else DigitsValue(s[..|s| - 1]) * 10 + DigitValue(s[|s| - 1])
  }

  /** Digits of a non-negative number, without leading zeros. */
  function NatToString(n: nat): (s: string)
    ensures |s| >= 1 && AllDigits(s)
    ensures s[0] != '0' || s == "0"
    ensures n < 10 <==> |s| == 1
  {
    if n < 10 then [DigitChar(n)] else NatToString(n / 10) + [DigitChar(n % 10)]
  }

  /** %d formatting of a (signed) integer. */
  function IntToString(i: int): (s: string)
    ensures |s| >= 1
    ensures s[0] == '-' <==> i < 0
    ensures i >= 0 ==> AllDigits(s)
  {
    if i < 0 then "-" + NatToString(-i) else NatToString(i)
  }

  /** The text after an optional leading sign. */
  function Unsigned(s: string): string {
    if |s| > 0 && (s[0] == '-' || s[0] == '+') then s[1..] else s
  }

  /**
   strconv.Atoi: an optional '+' or '-', then at least one decimal digit,
   and the value must fit the 64-bit signed range; anything else is None.
   */
  function ParseInt(s: string): (r: Option<int>)
    ensures r.Some? ==> MinInt <= r.value <= MaxInt
    ensures r.Some? ==> |Unsigned(s)| >= 1 && AllDigits(Unsigned(s))
    ensures r.Some? ==> (r.value < 0 ==> s[0] == '-')
    ensures r.Some? ==> r.value == (if s[0] == '-' then -(DigitsValue(Unsigned(s)) as int) else DigitsValue(Unsigned(s)))
  {
    var body := Unsigned(s);
    if |body| == 0 || !AllDigits(body) then None
    else
      var v: int := if s[0] == '-' then -(DigitsValue(body) as int) else DigitsValue(body);
      if MinInt <= v <= MaxInt then Some(v) else None
  }

  /** The form %d produces: no '+', no leading zero, and no "-0". */
  predicate Canonical(s: string) {
    var body := Unsigned(s);
    && (|s| > 0 ==> s[0] != '+')
    && |body| >= 1 && AllDigits(body)
    && (body[0] != '0' || s == "0")
  }

  lemma {:induction false} DigitsValueOfNatToString(n: nat)
    ensures DigitsValue(NatToString(n)) == n
  {
    var s := NatToString(n);
    if n >= 10 {
      DigitsValueOfNatToString(n / 10);
      assert s[..|s| - 1] == NatToString(n / 10);
    }
  }

  lemma {:induction false} PositiveLeadingDigit(s: string)
    requires |s| >= 1 && AllDigits(s) && s[0] != '0'
    ensures DigitsValue(s) >= 1
  {
    if |s| > 1 {
      var p := s[..|s| - 1];
      assert p[0] == s[0];
      PositiveLeadingDigit(p);
    }
  }

  lemma {:induction false} NatToStringOfDigitsValue(s: string)
    requires |s| >= 1 && AllDigits(s) && (s[0] != '0' || s == "0")
    ensures NatToString(DigitsValue(s)) == s
  {
    if |s| > 1 {
      var p := s[..|s| - 1];
      assert p[0] == s[0];
      assert AllDigits(p);
      PositiveLeadingDigit(p);
      NatToStringOfDigitsValue(p);
      var v := DigitsValue(s);
      assert v / 10 == DigitsValue(p) && v % 10 == DigitValue(s[|s| - 1]);
      assert s == p + [s[|s| - 1]];
    }
  }

  /** Every in-range integer is read back from its own %d text. */
  lemma ParseIntToString(i: int)
    requires MinInt <= i <= MaxInt
    ensures ParseInt(IntToString(i)) == Some(i)
  {
    var s := IntToString(i);
    if i < 0 {
      assert Unsigned(s) == NatToString(-i);
      DigitsValueOfNatToString(-i);
    } else {
      assert Unsigned(s) == NatToString(i);
      DigitsValueOfNatToString(i);
    }
  }

  /** A canonical numeral that parses is exactly the %d text of its value. */
  lemma IntToStringOfParseInt(s: string)
    requires Canonical(s) && ParseInt(s).Some?
    ensures IntToString(ParseInt(s).value) == s
  {
    var body := Unsigned(s);
    NatToStringOfDigitsValue(body);
    if s[0] == '-' {
      assert body != "0";
      PositiveLeadingDigit(body);
      assert s == "-" + body;
    } else {
      assert s == body;
    }
  }

  predicate AllZeros(z: string) {
    forall i :: 0 <= i < |z| ==> z[i] == '0'
  }

  lemma {:induction false} ZerosValue(z: string)
    requires AllZeros(z)
    ensures AllDigits(z) && DigitsValue(z) == 0
  {
    if z != [] {
      ZerosValue(z[..|z| - 1]);
    }
  }

  /** Leading zeros do not change the value of a digit string. */
  lemma {:induction false} LeadingZerosValue(z: string, t: string)
    requires AllZeros(z) && AllDigits(t)
    ensures AllDigits(z + t) && DigitsValue(z + t) == DigitsValue(t)
  {
    if t == [] {
      assert z + t == z;
      ZerosValue(z);
    } else {
      var u := z + t;
      assert u[..|u| - 1] == z + t[..|t| - 1];
      assert u[|u| - 1] == t[|t| - 1];
      LeadingZerosValue(z, t[..|t| - 1]);
    }
  }

  /** The text after the sign of a numeral with leading zeros is its digits. */
  lemma UnsignedOfNumeral(sign: string, z: string, t: string)
    requires sign == "" || sign == "+" || sign == "-"
    requires AllZeros(z) && |t| >= 1 && AllDigits(t)
    ensures Unsigned(sign + z + t) == z + t
    ensures (sign + z + t)[0] == '-' <==> sign == "-"
  {
  }

  /**
   Every numeral Atoi accepts is read with its value: an optional sign, any
   number of leading zeros and the digits of m give m (or -m after '-'),
   whenever that value is in the 64-bit range.
   */
  lemma ParseIntOfNumeral(sign: string, z: string, m: nat)
    requires sign == "" || sign == "+" || sign == "-"
    requires AllZeros(z)
    requires MinInt <= (if sign == "-" then -(m as int) else m) <= MaxInt
    ensures ParseInt(sign + z + NatToString(m)) == Some(if sign == "-" then -(m as int) else m)
  {
    var t := NatToString(m);
    UnsignedOfNumeral(sign, z, t);
    LeadingZerosValue(z, t);
    DigitsValueOfNatToString(m);
  }
}
