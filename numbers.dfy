/** The numbers the calculator computes with: Python `int` and `fractions.Fraction`
    values (both exact, modelled as `int` and `real`), and the two string
    conversions the code applies to them, `int(text)` and `Fraction(text)`. */
module Numbers {

  import opened Common
  import opened Text

  /** A Python number that stays exact: an `int` or a `Fraction`. */
  datatype Number = IntNum(i: int) | FracNum(q: real)
  {
    function Value(): real
    {
      match this
      case IntNum(i) => i as real
      case FracNum(q) => q
    }
  }

  function Pow10(k: nat): (p: nat)
    ensures p >= 1
  {
    if k == 0 then 1 else 10 * Pow10(k - 1)
  }

  /** `x * 10**e` for a possibly negative exponent. */
  function Scale10(x: real, e: int): real
  {
    if e >= 0 then x * Pow10(e) as real else x / Pow10(-e) as real
  }

  predicate IsSign(c: char) { c == '+' || c == '-' }

  /** Splits off one optional leading sign: whether it was a minus, and the rest. */
  function Unsign(t: string): (bool, string)
  {
    if t != [] && IsSign(t[0]) then (t[0] == '-', t[1..]) else (false, t)
  }

  function Signed(negative: bool, x: real): real
  {
    if negative then -x else x
  }

  /** The text of a base-10 integer literal once surrounding whitespace is stripped. */
  predicate IsIntLiteral(t: string)
  {
    var digits := Unsign(t).1;
    digits != [] && AllDigits(digits)
  }

  /** The canonical spelling of an integer, as Python's `str(int)` gives it. */
  function IntText(n: int): (s: string)
    ensures s != [] && !IsWhitespace(s[0]) && !IsWhitespace(s[|s| - 1])
  {
    if n < 0 then "-" + NatDigits(-n) else NatDigits(n)
  }

  /** Python's `int(text)` on ASCII input: optional surrounding whitespace, an
      optional sign and at least one decimal digit; anything else is a `ValueError`. */
  function ParseInt(s: string): (r: Result<int>)
    ensures r.Ok? <==> IsIntLiteral(Strip(s))
    ensures r.Err? ==> r.error == ValueError(s)
  {
    var t := Strip(s);
    var (negative, digits) := Unsign(t);
    if digits != [] && AllDigits(digits) then
      Ok(if negative then -(DigitsValue(digits) as int) else DigitsValue(digits))
    else Err(ValueError(s))
  }

  /** The exponent suffix `[eE][-+]?\d+` of a decimal literal, or nothing at all (exponent 0). */
  function ParseExponent(t: string): (r: Option<int>)
    ensures t == [] ==> r == Some(0)
  {
    if t == [] then Some(0)
    else if t[0] != 'e' && t[0] != 'E' then None
    else
      var (negative, digits) := Unsign(t[1..]);
      if digits != [] && AllDigits(digits) then
        Some(if negative then -(DigitsValue(digits) as int) else DigitsValue(digits))
      else None
  }

  /** The value of a decimal literal `whole` `.frac` `tail`, where `tail` must be an exponent suffix. */
  function DecimalValue(whole: string, frac: string, tail: string): (r: Option<real>)
    requires AllDigits(whole) && AllDigits(frac)
    ensures tail == [] ==> r == Some(DigitsValue(whole + frac) as real / Pow10(|frac|) as real)
  {
    assert AllDigits(whole + frac);
    match ParseExponent(tail)
    case None => None
    case Some(e) => Some(Scale10(DigitsValue(whole + frac) as real / Pow10(|frac|) as real, e))
  }

  /** `Fraction` on the text after the sign. */
  function UnsignedFraction(body: string): (r: Result<real>)
    ensures r.Err? ==> r.error == ValueError(body) || r.error == ZeroDivision
  {
    var n := DigitSpan(body);
    DigitSpanSpec(body);
    var rest := body[n..];
    if n == 0 && !(|rest| >= 2 && rest[0] == '.' && IsDigit(rest[1])) then Err(ValueError(body))
    else if rest != [] && rest[0] == '/' then
      var den := rest[1..];
      if den != [] && AllDigits(den) then
        if DigitsValue(den) == 0 then Err(ZeroDivision)
        else Ok(DigitsValue(body[..n]) as real / DigitsValue(den) as real)
      else Err(ValueError(body))
    else if rest != [] && rest[0] == '.' then
      var f := DigitSpan(rest[1..]);
      DigitSpanSpec(rest[1..]);
      match DecimalValue(body[..n], rest[1..][..f], rest[1..][f..])
      case None => Err(ValueError(body))
      case Some(v) => Ok(v)
    else
      match DecimalValue(body[..n], [], rest)
      case None => Err(ValueError(body))
      case Some(v) => Ok(v)
  }

  /** Python's `fractions.Fraction(text)`: an optional sign, then either
      `numerator/denominator` or a decimal literal with an optional exponent,
      surrounded by optional whitespace. A zero denominator raises
      `ZeroDivisionError`, any other text `ValueError`. */
  function ParseFraction(s: string): (r: Result<real>)
    ensures r.Err? ==> r.error == ValueError(s) || r.error == ZeroDivision
  {
    var (negative, body) := Unsign(Strip(s));
    var r := UnsignedFraction(body);
    if r.Ok? then Ok(Signed(negative, r.value))
    else if r.error.ZeroDivision? then Err(ZeroDivision)
    else Err(ValueError(s))
  }

  lemma StripUnchanged(s: string)
    requires s != [] ==> !IsWhitespace(s[0]) && !IsWhitespace(s[|s| - 1])
    ensures Strip(s) == s
  {
  }

  /** `int` reads back every integer it prints. */
  lemma IntTextRoundTrip(n: int)
    ensures ParseInt(IntText(n)) == Ok(n)
  {
    var s := IntText(n);
    StripUnchanged(s);
    assert Strip(s) == s;
    if n < 0 {
      NatDigitsValue(-n);
      assert s[1..] == NatDigits(-n);
      assert Unsign(s) == (true, NatDigits(-n));
    } else {
      NatDigitsValue(n);
      assert Unsign(s) == (false, NatDigits(n));
    }
  }

  /** On an integer literal `Fraction(text)` denotes the same value as `int(text)`. */
  lemma FractionOfIntLiteral(s: string)
    requires IsIntLiteral(Strip(s))
    ensures ParseFraction(s) == Ok(ParseInt(s).value as real)
  {
    var (negative, body) := Unsign(Strip(s));
    UnsignedIntLiteral(body);
  }

  /** Unsigned digits alone read as their value. */
  lemma UnsignedIntLiteral(body: string)
    requires body != [] && AllDigits(body)
    ensures UnsignedFraction(body) == Ok(DigitsValue(body) as real)
  {
    DigitSpanAll(body);
    assert body[..|body|] == body && body[|body|..] == [];
    DecimalOfDigits(body);
  }

  /** Digits with no fraction and no exponent denote their integer value. */
  lemma DecimalOfDigits(d: string)
    requires AllDigits(d)
    ensures DecimalValue(d, [], []) == Some(DigitsValue(d) as real)
  {
    var x := DigitsValue(d) as real;
    assert d + [] == d && Pow10(0) == 1;
    assert x / 1 as real == x;
  }

  lemma UnsignedRatio(a: string, d: string)
    requires AllDigits(a) && AllDigits(d) && a != [] && d != []
    ensures UnsignedFraction(a + "/" + d)
         == if DigitsValue(d) == 0 then Err(ZeroDivision) else Ok(DigitsValue(a) as real / DigitsValue(d) as real)
  {
    var s := a + "/" + d;
    DigitSpanOf(a, "/" + d);
    assert s == a + ("/" + d);
    assert s[..|a|] == a;
    assert s[|a|..] == "/" + d;
    assert ("/" + d)[1..] == d;
  }

  lemma UnsignedDecimal(whole: string, frac: string)
    requires AllDigits(whole) && AllDigits(frac) && frac != []
    ensures AllDigits(whole + frac)
    ensures UnsignedFraction(whole + "." + frac)
         == Ok(DigitsValue(whole + frac) as real / Pow10(|frac|) as real)
  {
    var s := whole + "." + frac;
    DigitSpanOf(whole, "." + frac);
    assert s == whole + ("." + frac);
    assert s[..|whole|] == whole;
    var rest := s[|whole|..];
    assert rest == "." + frac;
    assert rest[1..] == frac;
    DigitSpanOf(frac, []);
    assert frac + [] == frac;
    assert frac[..|frac|] == frac && frac[|frac|..] == [];
  }

  lemma FractionOfUnsigned(s: string, x: Result<real>)
    requires Strip(s) == s && Unsign(s) == (false, s) && UnsignedFraction(s) == x
    requires x.Err? ==> x.error == ZeroDivision
    ensures ParseFraction(s) == x
  {
  }

  /** `Fraction("a/b")` is the quotient `a/b`, and a zero denominator is an error. */
  lemma FractionOfRatio(a: nat, b: nat)
    ensures ParseFraction(NatDigits(a) + "/" + NatDigits(b))
         == if b == 0 then Err(ZeroDivision) else Ok(a as real / b as real)
  {
    var s := NatDigits(a) + "/" + NatDigits(b);
    var x := if b == 0 then Err(ZeroDivision) else Ok(a as real / b as real);
    assert Strip(s) == s by { StripUnchanged(s); }
    assert Unsign(s) == (false, s);
    assert UnsignedFraction(s) == x by {
      NatDigitsValue(a);
      NatDigitsValue(b);
      UnsignedRatio(NatDigits(a), NatDigits(b));
    }
    FractionOfUnsigned(s, x);
  }

  /** `Fraction("w.f")` is the decimal value of the digits `w` and `f`. */
  lemma FractionOfDecimal(whole: string, frac: string)
    requires AllDigits(whole) && AllDigits(frac) && frac != []
    ensures AllDigits(whole + frac)
    ensures ParseFraction(whole + "." + frac)
         == Ok(DigitsValue(whole + frac) as real / Pow10(|frac|) as real)
  {
    DecimalIsPlain(whole, frac);
    UnsignedDecimal(whole, frac);
    FractionOfUnsigned(whole + "." + frac, Ok(DigitsValue(whole + frac) as real / Pow10(|frac|) as real));
  }

  /** A decimal written from digits has no blanks to strip and no sign. */
  lemma DecimalIsPlain(whole: string, frac: string)
    requires AllDigits(whole) && AllDigits(frac) && frac != []
    ensures Strip(whole + "." + frac) == whole + "." + frac
    ensures Unsign(whole + "." + frac) == (false, whole + "." + frac)
  {
    var s := whole + "." + frac;
    StripUnchanged(s);
    if whole == [] { assert s[0] == '.'; } else { assert s[0] == whole[0]; }
  }
}
