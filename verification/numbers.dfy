/**
 * JavaScript's `parseFloat` over decimal text, with exact `real` values in place
 * of binary floating point. `None` stands for `NaN`.
 */
module Numbers {
  import opened Wrappers
  import opened Text

  /** Length of the longest prefix of decimal digits. */
  function DigitRun(s: string): (n: nat)
    ensures n <= |s| && AllDigits(s[..n])
    ensures n == |s| || !IsDigit(s[n])
  {
    if s != [] && IsDigit(s[0]) then
      var n := 1 + DigitRun(s[1..]);
      assert s[..n] == [s[0]] + s[1..][..n - 1];
      n
    else 0
  }

  function Pow10(n: nat): (r: nat)
    ensures r >= 1
  {
    if n == 0 then 1 else 10 * Pow10(n - 1)
  }

  /** The factor `10^e` for an integer exponent. */
  function Scale(e: int): (r: real)
    ensures r > 0.0
  {
    if e >= 0 then Pow10(e) as real else 1.0 / Pow10(-e) as real
  }

  /** The exponent part of a number, `e` or `E`, an optional sign and at least
      one digit; anything else is not an exponent and counts as `e0`. */
  function Exponent(s: string): int {
    if |s| >= 2 && (s[0] == 'e' || s[0] == 'E') then
      var signed := s[1] == '-' || s[1] == '+';
      var digits := if signed then s[2..] else s[1..];
      var n := DigitRun(digits);
      if n == 0 then 0
      else if s[1] == '-' then -(DigitsValue(digits[..n]) as int)
      else DigitsValue(digits[..n])
    else 0
  }

  /** The value of a decimal numeral from its integer and fraction digits. */
  function Mantissa(intDigits: string, fraction: string): real
    requires AllDigits(intDigits) && AllDigits(fraction)
  {
    DigitsValue(intDigits) as real + DigitsValue(fraction) as real / Pow10(|fraction|) as real
  }

  /** Digits, optionally a `.` and more digits, optionally an exponent; at least
      one digit before or after the point. Whatever follows is ignored. */
  function ParseUnsigned(u: string): Option<real> {
    var ip := DigitRun(u);
    var rest := u[ip..];
    var dotted := rest != [] && rest[0] == '.';
    var fp := if dotted then DigitRun(rest[1..]) else 0;
    if ip == 0 && fp == 0 then None
    else
      var fraction := if dotted then rest[1..][..fp] else [];
      var after := if dotted then rest[1 + fp..] else rest;
      Some(Mantissa(u[..ip], fraction) * Scale(Exponent(after)))
  }

  /** `parseFloat(s)`: leading white space is skipped, then an optional sign,
      then the longest prefix that reads as a decimal number. */
  function ParseFloat(s: string): Option<real> {
    var t := TrimStart(s);
    if t != [] && t[0] == '-' then
      match ParseUnsigned(t[1..])
      case Some(v) => Some(-v)
      case None => None
    else if t != [] && t[0] == '+' then ParseUnsigned(t[1..])
    else ParseUnsigned(t)
  }

  lemma {:induction false} DigitRunOfDigits(ds: string, rest: string)
    requires AllDigits(ds)
    requires rest == [] || !IsDigit(rest[0])
    ensures DigitRun(ds + rest) == |ds|
  {
    if ds != [] {
      assert (ds + rest)[1..] == ds[1..] + rest;
      DigitRunOfDigits(ds[1..], rest);
    }
  }

  /** A non-negative integer written in decimal parses back to itself. */
  lemma NatRoundTrip(n: nat)
    ensures ParseFloat(NatToString(n)) == Some(n as real)
  {
    var ds := NatToString(n);
    assert !IsSpace(ds[0]);
    assert TrimStart(ds) == ds;
    DigitRunOfDigits(ds, []);
    assert ds + [] == ds;
    assert ds[..|ds|] == ds;
    assert Exponent(ds[|ds|..]) == 0;
  }

  /** `parseInt(s)` for decimal text: leading white space is skipped, then an
      optional sign, then the longest run of digits, whatever follows being
      ignored; `None` (NaN) when no digit comes first. */
  function ParseInt(s: string): Option<int> {
    var t := TrimStart(s);
    var signed := t != [] && (t[0] == '-' || t[0] == '+');
    var u := if signed then t[1..] else t;
    var n := DigitRun(u);
    if n == 0 then None
    else if t[0] == '-' then Some(-(DigitsValue(u[..n]) as int))
    else Some(DigitsValue(u[..n]))
  }

  /** `String(i)` for an integer: its decimal digits, after a `-` when negative. */
  function IntToString(i: int): (r: string)
    ensures |r| >= 1
  {
    if i < 0 then "-" + NatToString(-i) else NatToString(i)
  }

  /** An integer written in decimal parses back to itself, and so does the
      text with anything that does not start with a digit appended. */
  lemma IntRoundTrip(i: int, rest: string)
    requires rest == [] || !IsDigit(rest[0])
    ensures ParseInt(IntToString(i) + rest) == Some(i)
  {
    var ds := NatToString(if i < 0 then -i else i);
    var s := IntToString(i) + rest;
    assert !IsSpace(s[0]) by {
      if i >= 0 { assert s[0] == ds[0]; }
    }
    assert TrimStart(s) == s;
    DigitRunOfDigits(ds, rest);
    if i < 0 {
      assert s[1..] == ds + rest;
    } else {
      assert !(s[0] == '-' || s[0] == '+') by { assert s[0] == ds[0]; }
    }
    assert (ds + rest)[..|ds|] == ds;
  }

  /** The two digits of a number of cents, `c / 10` then `c % 10`. */
  function TwoDigits(c: nat): (r: string)
    requires c < 100
    ensures |r| == 2 && AllDigits(r) && DigitsValue(r) == c
  {
    var r := [DigitChar(c / 10), DigitChar(c % 10)];
    assert r[..1] == [DigitChar(c / 10)];
    assert r[..1][..0] == [];
    assert DigitsValue(r[..1]) == c / 10;
    r
  }

  /** Digits, a point and digits read as the number they denote. */
  lemma UnsignedDecimal(w: string, c: string)
    requires |w| >= 1 && AllDigits(w) && AllDigits(c)
    ensures ParseUnsigned(w + ['.'] + c) == Some(Mantissa(w, c))
  {
    var u := w + ['.'] + c;
    assert u == w + (['.'] + c);
    DigitRunOfDigits(w, ['.'] + c);
    assert DigitRun(u) == |w|;
    assert u[..|w|] == w;
    var rest := u[|w|..];
    assert rest == ['.'] + c;
    assert rest[1..] == c;
    DigitRunOfDigits(c, []);
    assert c + [] == c;
    assert DigitRun(rest[1..]) == |c|;
    assert rest[1..][..|c|] == c;
    assert rest[1 + |c|..] == [];
    assert Scale(Exponent([])) == 1.0;
    assert Mantissa(w, c) * 1.0 == Mantissa(w, c);
  }

  /** Text starting with a digit has no white space or sign to skip. */
  lemma LeadingDigit(r: string)
    requires r != [] && IsDigit(r[0])
    ensures ParseFloat(r) == ParseUnsigned(r)
  {
    assert !IsSpace(r[0]);
    assert TrimStart(r) == r[0..] == r;
  }

  /** In digits, a comma and more text, the first comma is the one after the digits. */
  lemma CommaToPoint(w: string, c: string)
    requires AllDigits(w)
    ensures ReplaceFirst(w + [','] + c, ',', '.') == w + ['.'] + c
  {
    assert ',' !in w by {
      forall k | 0 <= k < |w| ensures w[k] != ',' { assert IsDigit(w[k]); }
    }
    IndexOfAfterPrefix(w, ',', c);
  }

  /** The mantissa of whole digits and two cent digits is the amount they denote. */
  lemma CentsMantissa(w: string, c: string, whole: nat, cents: nat)
    requires AllDigits(w) && DigitsValue(w) == whole
    requires |c| == 2 && AllDigits(c) && DigitsValue(c) == cents
    ensures Mantissa(w, c) == whole as real + cents as real / 100.0
  {
    assert Pow10(2) == 100;
  }

  /** An amount written with a decimal comma, such as `125,50`, reads as that
      amount once its comma is turned into a point. */
  lemma DecimalComma(whole: nat, cents: nat)
    requires cents < 100
    ensures ParseFloat(ReplaceFirst(NatToString(whole) + [','] + TwoDigits(cents), ',', '.'))
         == Some(whole as real + cents as real / 100.0)
  {
    var w := NatToString(whole);
    var c := TwoDigits(cents);
    var r := w + ['.'] + c;
    calc {
      ParseFloat(ReplaceFirst(w + [','] + c, ',', '.'));
      == { CommaToPoint(w, c); }
      ParseFloat(r);
      == { assert r[0] == w[0]; LeadingDigit(r); }
      ParseUnsigned(r);
      == { UnsignedDecimal(w, c); }
      Some(Mantissa(w, c));
      == { CentsMantissa(w, c, whole, cents); }
      Some(whole as real + cents as real / 100.0);
    }
  }
}
