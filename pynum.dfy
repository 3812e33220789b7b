/** Python's `int()`, `str()` and `float()` conversions on decimal text, with numbers
    held exactly as decimals. */
module PyNum {
  import opened Common
  import opened PyStr

  // ---------------------------------------------------------------- integers

  predicate IsDigit(c: char)
  {
    '0' <= c <= '9'
  }

  predicate AllDigits(d: string)
  {
    forall k :: 0 <= k < |d| ==> IsDigit(d[k])
  }

  /** The value of a string of decimal digits, most significant first. */
  function DigitsValue(d: string): nat
    requires AllDigits(d)
  {
    if d == [] then 0
    else DigitsValue(d[..|d| - 1]) * 10 + (d[|d| - 1] as int - '0' as int)
  }

  /** A leading zero does not change the value of a digit string. */
  lemma {:induction false} LeadingZero(d: string)
    requires AllDigits(d)
    ensures AllDigits("0" + d) && DigitsValue("0" + d) == DigitsValue(d)
  {
    if d != [] {
      LeadingZero(d[..|d| - 1]);
      assert ("0" + d)[..|"0" + d| - 1] == "0" + d[..|d| - 1];
    }
  }

  function DigitChar(k: nat): (c: char)
    requires k < 10
    ensures IsDigit(c) && c as int - '0' as int == k
  {
    ('0' as int + k) as char
  }

  /** The decimal digits of `n`, as Python's `str` writes a non-negative int. */
  function NatToDigits(n: nat): (d: string)
    ensures |d| >= 1 && AllDigits(d) && DigitsValue(d) == n
    ensures |d| > 1 ==> d[0] != '0'
  {
    if n < 10 then [DigitChar(n)]
    else
      var d := NatToDigits(n / 10) + [DigitChar(n % 10)];
      assert d[..|d| - 1] == NatToDigits(n / 10);
      d
  }

  /** Python's `str(i)` for an int. */
  function IntToString(i: int): string
  {
    if i < 0 then "-" + NatToDigits(-i) else NatToDigits(i)
  }

  /** Python's `int(s)` for a string: surrounding whitespace, an optional sign and
      at least one ASCII digit; None where Python raises ValueError. */
  function ParseInt(s: string): Option<int>
  {
    ParseStripped(Strip(s))
  }

  /** `int` on text whose whitespace is already stripped. */
  function ParseStripped(t: string): Option<int>
  {
    if t != [] && (t[0] == '-' || t[0] == '+') then
      var d := t[1..];
      if d != [] && AllDigits(d) then
        var v: int := DigitsValue(d);
        Some(if t[0] == '-' then -v else v)
      else None
    else if t != [] && AllDigits(t) then Some(DigitsValue(t))
    else None
  }

  /** A digit string, with or without a minus sign, has no surrounding whitespace. */
  lemma StripDigits(d: string)
    requires d != [] && AllDigits(d)
    ensures Strip(d) == d && Strip("-" + d) == "-" + d
  {
    assert IsDigit(d[0]) && IsDigit(d[|d| - 1]);
    StripUnchanged(d);
    var m := "-" + d;
    assert m[0] == '-' && m[|m| - 1] == d[|d| - 1];
    StripUnchanged(m);
  }

  /** `int` reads a digit string. */
  lemma ParseDigits(d: string)
    requires d != [] && AllDigits(d)
    ensures ParseInt(d) == Some(DigitsValue(d))
  {
    StripDigits(d);
  }

  /** `int` reads a stripped minus sign followed by a digit string. */
  lemma ParseSigned(d: string, m: string)
    requires d != [] && AllDigits(d) && |m| >= 1 && m[0] == '-' && m[1..] == d && Strip(m) == m
    ensures ParseInt(m) == Some(-(DigitsValue(d) as int))
  {
  }

  /** `int` reads a minus sign followed by a digit string. */
  lemma ParseNegDigits(d: string)
    requires d != [] && AllDigits(d)
    ensures ParseInt("-" + d) == Some(-(DigitsValue(d) as int))
  {
    StripDigits(d);
    var m := "-" + d;
    assert m[0] == '-' && m[1..] == d;
    ParseSigned(d, m);
  }

  /** `int(str(i)) == i`. */
  lemma IntRoundTrip(i: int)
    ensures ParseInt(IntToString(i)) == Some(i)
  {
    if i < 0 {
      ParseNegDigits(NatToDigits(-i));
    } else {
      ParseDigits(NatToDigits(i));
    }
  }

  /** No digit is whitespace. */
  lemma DigitNotWhitespace(c: char)
    requires IsDigit(c)
    ensures c !in Whitespace
  {
  }

  /** `int` sees only the stripped text. */
  lemma ParseIntOfStrip(s: string, t: string)
    requires Strip(s) == Strip(t)
    ensures ParseInt(s) == ParseInt(t)
  {
  }

  /** One space in front of text without surrounding whitespace is stripped away. */
  lemma StripPadded(x: string)
    requires x != [] && x[0] !in Whitespace && x[|x| - 1] !in Whitespace
    ensures Strip(" " + x) == x
  {
    var y := " " + x;
    assert y[|y| - 1] == x[|x| - 1] && y[1..] == x;
    assert RStripChars(y, Whitespace) == y;
    StripUnchanged(x);
  }

  /** `str(i)` neither starts nor ends with whitespace, so `int` still reads it back
      with one space in front. */
  lemma PaddedIntRoundTrip(i: int)
    ensures IntToString(i) != [] && IntToString(i)[0] !in Whitespace
    ensures ParseInt(" " + IntToString(i)) == Some(i)
  {
    var x := IntToString(i);
    var d := if i < 0 then NatToDigits(-i) else NatToDigits(i);
    assert IsDigit(d[|d| - 1]) && x[|x| - 1] == d[|d| - 1];
    DigitNotWhitespace(d[|d| - 1]);
    if i >= 0 {
      assert IsDigit(d[0]) && x[0] == d[0];
      DigitNotWhitespace(d[0]);
    }
    StripPadded(x);
    StripUnchanged(x);
    ParseIntOfStrip(" " + x, x);
    IntRoundTrip(i);
  }

  // ---------------------------------------------------------------- decimals

  function Pow10(k: nat): (r: nat)
    ensures r >= 1
  {
    if k == 0 then 1 else 10 * Pow10(k - 1)
  }

  /** An exact decimal number, `mantissa / 10^scale`. */
  datatype Decimal = Decimal(mantissa: int, scale: nat)
  {
    /** The number is below the integer `n`. */
    predicate Below(n: int)
    {
      mantissa < n * Pow10(scale)
    }

    /** Python's `int(x)` for this number: truncation toward zero. */
    function Trunc(): int
    {
      if mantissa >= 0 then mantissa / Pow10(scale) else -((-mantissa) / Pow10(scale))
    }
  }

  /** An unsigned decimal numeral: digits with at most one '.' and at least one digit. */
  function ParseUnsigned(b: string): (r: Option<Decimal>)
    ensures r.Some? ==> r.value.mantissa >= 0
  {
    var parts := Split(b, '.');
    if |parts| == 1 && parts[0] != [] && AllDigits(parts[0]) then
      Some(Decimal(DigitsValue(parts[0]), 0))
    else if |parts| == 2 && |parts[0]| + |parts[1]| > 0 && AllDigits(parts[0]) && AllDigits(parts[1]) then
      AllDigitsConcat(parts[0], parts[1]);
      Some(Decimal(DigitsValue(parts[0] + parts[1]), |parts[1]|))
    else None
  }

  lemma AllDigitsConcat(a: string, b: string)
    requires AllDigits(a) && AllDigits(b)
    ensures AllDigits(a + b)
  {
  }

  /** The value of two digit strings written one after the other. */
  lemma {:induction false} DigitsValueConcat(a: string, b: string)
    requires AllDigits(a) && AllDigits(b)
    ensures AllDigits(a + b) && DigitsValue(a + b) == DigitsValue(a) * Pow10(|b|) + DigitsValue(b)
  {
    AllDigitsConcat(a, b);
    if b == [] {
      assert a + b == a;
    } else {
      var c := b[..|b| - 1];
      var digit := b[|b| - 1] as int - '0' as int;
      DigitsValueConcat(a, c);
      var ab := a + b;
      assert ab[..|ab| - 1] == a + c && ab[|ab| - 1] == b[|b| - 1];
      assert DigitsValue(ab) == DigitsValue(a + c) * 10 + digit;
      assert DigitsValue(b) == DigitsValue(c) * 10 + digit;
      assert Pow10(|b|) == 10 * Pow10(|c|);
      ShiftDigit(DigitsValue(a), Pow10(|c|), DigitsValue(c), digit);
    }
  }

  lemma ShiftDigit(x: int, p: int, y: int, digit: int)
    ensures (x * p + y) * 10 + digit == x * (10 * p) + (y * 10 + digit)
  {
  }

  /** No digit string holds a decimal point. */
  lemma NoPoint(a: string)
    requires AllDigits(a)
    ensures '.' !in a
  {
    forall k | 0 <= k < |a|
      ensures a[k] != '.'
    {
      assert IsDigit(a[k]);
    }
  }

  /** `float` reads an integer part and a fraction part as
      `a + b / 10^|b|`, held exactly as a decimal with |b| places. */
  lemma ParseUnsignedValue(a: string, b: string)
    requires AllDigits(a) && AllDigits(b) && |a| + |b| > 0
    ensures ParseUnsigned(a + "." + b) == Some(Decimal(DigitsValue(a) * Pow10(|b|) + DigitsValue(b), |b|))
  {
    ConcatDecimal(a, b);
    ParseUnsignedSplit(a, b);
  }

  lemma ConcatDecimal(a: string, b: string)
    requires AllDigits(a) && AllDigits(b)
    ensures AllDigits(a + b)
    ensures Some(Decimal(DigitsValue(a + b), |b|)) == Some(Decimal(DigitsValue(a) * Pow10(|b|) + DigitsValue(b), |b|))
  {
    DigitsValueConcat(a, b);
  }

  lemma ParseUnsignedSplit(a: string, b: string)
    requires AllDigits(a) && AllDigits(b) && |a| + |b| > 0
    ensures AllDigits(a + b) && ParseUnsigned(a + "." + b) == Some(Decimal(DigitsValue(a + b), |b|))
  {
    NoPoint(a);
    NoPoint(b);
    var s := a + "." + b;
    assert s == a + ['.'] + b;
    SplitPrefix(a, '.', b);
    SplitNoSep(b, '.');
    var parts := Split(s, '.');
    assert parts == [a, b];
    assert parts[0] + parts[1] == a + b;
  }

  /** `float` reads a digit string without a point as that integer. */
  lemma ParseUnsignedInteger(a: string)
    requires a != [] && AllDigits(a)
    ensures ParseUnsigned(a) == Some(Decimal(DigitsValue(a), 0))
  {
    NoPoint(a);
    SplitNoSep(a, '.');
  }

  /** Python's `float(s)` on decimal text: surrounding whitespace, an optional sign,
      then an unsigned numeral; None where Python raises ValueError. */
  function ParseFloat(s: string): Option<Decimal>
  {
    var t := Strip(s);
    if t != [] && (t[0] == '-' || t[0] == '+') then
      match ParseUnsigned(t[1..])
      case None => None
      case Some(d) => Some(if t[0] == '-' then Decimal(-d.mantissa, d.scale) else d)
    else ParseUnsigned(t)
  }

  /** A leading zero on an unsigned numeral leaves the parsed number exactly as it was. */
  lemma LeadingZeroUnsigned(b: string)
    requires b != [] && IsDigit(b[0])
    ensures ParseUnsigned("0" + b) == ParseUnsigned(b)
  {
    var z := "0" + b;
    assert z[0] == '0' && z[1..] == b;
    var pb := Split(b, '.');
    var rest := Split(b[1..], '.');
    assert pb == [[b[0]] + rest[0]] + rest[1..];
    var pz := Split(z, '.');
    assert pz == [[z[0]] + pb[0]] + pb[1..];
    assert pz[0] == "0" + pb[0] && pb[0] != [];
    assert |pz| == |pb|;
    if AllDigits(pb[0]) {
      LeadingZero(pb[0]);
      if |pb| == 2 && AllDigits(pb[1]) {
        assert pz[1] == pb[1];
        LeadingZero(pb[0] + pb[1]);
        assert "0" + (pb[0] + pb[1]) == pz[0] + pz[1];
      }
    } else {
      assert !AllDigits(pz[0]) by {
        var k :| 0 <= k < |pb[0]| && !IsDigit(pb[0][k]);
        assert pz[0][k + 1] == pb[0][k];
      }
    }
  }

  /** Text with no sign, no '.' and no surrounding whitespace that is not all digits is
      not a number for `float`. */
  lemma NotAFloat(s: string)
    requires s != [] && s[0] !in Whitespace && s[|s| - 1] !in Whitespace && s[0] != '-' && s[0] != '+'
    requires '.' !in s && !AllDigits(s)
    ensures ParseFloat(s) == None
  {
    StripUnchanged(s);
    SplitNoSep(s, '.');
  }

  /** Digits and dots only. */
  predicate IsNumeral(b: string)
  {
    b != [] && IsDigit(b[0]) && forall k :: 0 <= k < |b| ==> IsDigit(b[k]) || b[k] == '.'
  }

  /** On a numeral, `float` does nothing but read the digits. */
  lemma FloatOfNumeral(b: string)
    requires IsNumeral(b)
    ensures ParseFloat(b) == ParseUnsigned(b)
  {
    assert IsDigit(b[|b| - 1]) || b[|b| - 1] == '.';
    StripUnchanged(b);
  }

  /** Python's `float("0" + b) == float(b)` for a numeral `b`. */
  lemma LeadingZeroFloat(b: string)
    requires IsNumeral(b)
    ensures ParseFloat("0" + b) == ParseFloat(b)
  {
    var z := "0" + b;
    assert z[1..] == b;
    assert IsNumeral(z);
    FloatOfNumeral(b);
    FloatOfNumeral(z);
    LeadingZeroUnsigned(b);
  }
}
