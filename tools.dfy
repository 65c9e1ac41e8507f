/** `NumberTools.str2num` of the top-level generation: an integer when the
    text spells one, otherwise an exact `Fraction`. */
module NumberTools {

  import opened Common
  import opened Text
  import opened Numbers
  import opened Json

  /** A string is first tried as `int`; anything else, and every non-string
      value, goes through `fractions.Fraction`. The result is never a float. */
  function Str2Num(v: Json): (r: Result<Number>)
    ensures v.JStr? && r.Ok? ==> (r.value.IntNum? <==> IsIntLiteral(Strip(v.s)))
    ensures v.JStr? ==> (r.Ok? <==> ParseFraction(v.s).Ok?)
    ensures v.JStr? && r.Ok? ==> r.value.Value() == ParseFraction(v.s).value
    ensures !v.JStr? ==> (r.Ok? <==> FractionOf(v).Ok?)
    ensures !v.JStr? && r.Ok? ==> r.value == FracNum(FractionOf(v).value)
  {
    if v.JStr? && ParseInt(v.s).Ok? then
      FractionOfIntLiteral(v.s);
      Ok(IntNum(ParseInt(v.s).value))
    else
      match FractionOf(v)
      case Ok(q) => Ok(FracNum(q))
      case Err(e) => Err(e)
  }

  /** An integer written out by `str` comes back as that same `int`. */
  lemma Str2NumOfIntText(n: int)
    ensures Str2Num(JStr(IntText(n))) == Ok(IntNum(n))
  {
    IntTextRoundTrip(n);
  }

  /** Text that keeps a non-digit after its first character is no `int` literal. */
  lemma NotIntLiteral(s: string, k: nat)
    requires Strip(s) == s && s != [] && !IsSign(s[0]) && 0 < k < |s| && !IsDigit(s[k])
    ensures !IsIntLiteral(Strip(s))
  {
    assert Unsign(s).1 == s;
  }

  lemma RatioIsNoIntLiteral(num: string, den: string)
    requires AllDigits(num) && AllDigits(den) && num != [] && den != []
    ensures !IsIntLiteral(Strip(num + "/" + den))
  {
    assert num + "/" + den == num + ['/'] + den;
    DigitsAroundNoIntLiteral(num, '/', den);
  }

  /** `"a/b"` comes back as the exact quotient; a zero denominator is an error. */
  lemma Str2NumOfRatio(a: nat, b: nat)
    ensures Str2Num(JStr(NatDigits(a) + "/" + NatDigits(b)))
         == if b == 0 then Err(ZeroDivision) else Ok(FracNum(a as real / b as real))
  {
    var s := NatDigits(a) + "/" + NatDigits(b);
    RatioIsNoIntLiteral(NatDigits(a), NatDigits(b));
    assert ParseInt(s).Err?;
    FractionOfRatio(a, b);
  }

  lemma DecimalIsNoIntLiteral(whole: string, frac: string)
    requires AllDigits(whole) && AllDigits(frac) && frac != [] && whole != []
    ensures !IsIntLiteral(Strip(whole + "." + frac))
  {
    assert whole + "." + frac == whole + ['.'] + frac;
    DigitsAroundNoIntLiteral(whole, '.', frac);
  }

  /** Digits, one non-digit, digits: never an `int` literal. */
  lemma DigitsAroundNoIntLiteral(a: string, c: char, b: string)
    requires AllDigits(a) && AllDigits(b) && a != [] && b != [] && !IsDigit(c)
    ensures !IsIntLiteral(Strip(a + [c] + b))
  {
    var s := a + [c] + b;
    DigitsAroundShape(a, c, b);
    StripUnchanged(s);
    NotIntLiteral(s, |a|);
  }

  lemma DigitsAroundShape(a: string, c: char, b: string)
    requires AllDigits(a) && AllDigits(b) && a != [] && b != []
    ensures var s := a + [c] + b; |a| < |s| && s[|a|] == c && IsDigit(s[0]) && IsDigit(s[|s| - 1])
  {
    var s := a + [c] + b;
    assert s[0] == a[0] && s[|s| - 1] == b[|b| - 1];
  }

  /** `"w.f"` comes back as the exact decimal value, never as a float. */
  lemma Str2NumOfDecimal(whole: string, frac: string)
    requires AllDigits(whole) && AllDigits(frac) && frac != [] && whole != []
    ensures AllDigits(whole + frac)
    ensures Str2Num(JStr(whole + "." + frac)) == Ok(FracNum(DigitsValue(whole + frac) as real / Pow10(|frac|) as real))
  {
    var s := whole + "." + frac;
    DecimalIsNoIntLiteral(whole, frac);
    assert ParseInt(s).Err?;
    FractionOfDecimal(whole, frac);
  }
}
