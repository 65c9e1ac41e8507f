/** The grammar on the inputs of the parser's unit tests, after lexing, and
    the lexer on an input it refuses. */
module EcoParserExamples {

  import opened Common
  import opened Text
  import opened Numbers
  import opened EcoParser

  lemma Digits14() ensures DigitsValue("14") == 14 { assert "14"[..1] == "1"; }
  lemma Digits123() ensures DigitsValue("123") == 123 { assert "123"[..2] == "12"; assert "12"[..1] == "1"; }
  lemma Digits125() ensures DigitsValue("125") == 125 { assert "125"[..2] == "12"; assert "12"[..1] == "1"; }
  lemma Digits250() ensures DigitsValue("250") == 250 { assert "250"[..2] == "25"; assert "25"[..1] == "2"; }
  lemma Digits1234() ensures DigitsValue("1234") == 1234 { Digits123(); assert "1234"[..3] == "123"; }

  /** `iron_plate`: only a recipe identifier. */
  lemma SpecifierById()
    ensures ParseSpecifierTokens([Ident("iron_plate")])
         == Some(ProductionSpecifier(None, RecipeId("iron_plate"), None, None))
  {
  }

  /** `#123`: only a recipe number. */
  lemma SpecifierByNumber()
    ensures ParseSpecifierTokens([Hash, IntTok("123")])
         == Some(ProductionSpecifier(None, RecipeNo(123), None, None))
  {
    Digits123();
  }

  /** `1.234 iron_plate`: the multiplier is the exact `Fraction("1.234")`. */
  lemma SpecifierWithFractionMultiplier()
    ensures ParseSpecifierTokens([FloatTok("1", "234"), Ident("iron_plate")])
         == Some(ProductionSpecifier(Some(FracNum(1.234)), RecipeId("iron_plate"), None, None))
  {
    Digits1234();
    assert "1" + "234" == "1234";
    assert Pow10(3) == 1000;
  }

  const SpeedTokens: seq<Token> := [IntTok("14"), Hash, IntTok("123"), AtSign, Ident("constructor"), FloatTok("1", "25")]
  const PercentTokens: seq<Token> := [IntTok("14"), Hash, IntTok("123"), AtSign, Ident("constructor"), IntTok("250"), Percent]

  lemma ConstructorIsIdentifier() ensures IsIdentifier("constructor") {}

  lemma SpecifierTokensWellFormed()
    ensures AllWellFormed(SpeedTokens) && AllWellFormed(PercentTokens)
  {
    ConstructorIsIdentifier();
  }

  /** `14 #123 @constructor 1.25`. */
  lemma SpecifierWithSpeed()
    ensures AllWellFormed(SpeedTokens)
    ensures ParseSpecifierTokens(SpeedTokens)
         == Some(ProductionSpecifier(Some(IntNum(14)), RecipeNo(123), Some("constructor"), Some(FracNum(1.25))))
  {
    var ts := SpeedTokens;
    Digits14();
    Digits123();
    Digits125();
    SpecifierTokensWellFormed();
    assert ParseAnnotatedValue(ts, 0) == Some((IntNum(14), 1));
    assert ParseRecipeSpecifier(ts, 1) == Some((RecipeNo(123), 3));
    assert ParseAt(ts, 3) == Some(("constructor", 5));
    assert ParseAnnotatedValue(ts, 5) == Some((FracNum(1.25), 6)) by {
      assert "1" + "25" == "125";
      assert Pow10(2) == 100;
    }
    assert ParseSpecifierEnd(ts, Some(IntNum(14)), RecipeNo(123), 3)
        == Some(ProductionSpecifier(Some(IntNum(14)), RecipeNo(123), Some("constructor"), Some(FracNum(1.25))));
  }

  /** `14 #123 @constructor 250%`: a percentage speed is `Fraction(250, 100)`. */
  lemma SpecifierWithPercentSpeed()
    ensures AllWellFormed(PercentTokens)
    ensures ParseSpecifierTokens(PercentTokens)
         == Some(ProductionSpecifier(Some(IntNum(14)), RecipeNo(123), Some("constructor"), Some(FracNum(2.5))))
  {
    var ts := PercentTokens;
    Digits14();
    Digits123();
    Digits250();
    SpecifierTokensWellFormed();
    assert ParseAnnotatedValue(ts, 0) == Some((IntNum(14), 1));
    assert ParseRecipeSpecifier(ts, 1) == Some((RecipeNo(123), 3));
    assert ParseAt(ts, 3) == Some(("constructor", 5));
    assert ParseAnnotatedValue(ts, 5) == Some((FracNum(2.5), 7));
    assert ParseSpecifierEnd(ts, Some(IntNum(14)), RecipeNo(123), 3)
        == Some(ProductionSpecifier(Some(IntNum(14)), RecipeNo(123), Some("constructor"), Some(FracNum(2.5))));
  }

  const DefaultTokens: seq<Token> := [Ident("iron"), Plus, Ident("foo"), Arrow, Ident("plate")]

  lemma RecipeTokensWellFormed()
    ensures AllWellFormed(DefaultTokens) && AllWellFormed(RecipeTestTokens)
  {
    assert IsIdentifier("iron") && IsIdentifier("foo") && IsIdentifier("plate") && IsIdentifier("bar");
  }

  /** `iron + foo -> plate`: cardinalities default to 1. */
  lemma RecipeWithDefaultCardinalities()
    ensures AllWellFormed(DefaultTokens)
    ensures ParseRecipeTokens(DefaultTokens)
         == Some(([Element(IntNum(1), "iron"), Element(IntNum(1), "foo")], [Element(IntNum(1), "plate")]))
  {
    var ts := DefaultTokens;
    var iron, foo, plate := Element(IntNum(1), "iron"), Element(IntNum(1), "foo"), Element(IntNum(1), "plate");
    RecipeTokensWellFormed();
    assert ParseElement(ts, 0) == Some((iron, 1));
    assert ParseElement(ts, 2) == Some((foo, 3));
    assert ParseSideTail(ts, 3) == ([], 3);
    assert ParseSideTail(ts, 1) == ([foo], 3) by { assert [foo] + [] == [foo]; }
    assert ParseSide(ts, 0) == Some(([iron, foo], 3)) by { assert [iron] + [foo] == [iron, foo]; }
    assert ParseElement(ts, 4) == Some((plate, 5));
    assert ParseSideTail(ts, 5) == ([], 5);
    assert ParseSide(ts, 4) == Some(([plate], 5)) by { assert [plate] + [] == [plate]; }
  }

  const RecipeTestTokens: seq<Token> :=
    [IntTok("12"), Ident("iron"), Plus, IntTok("34"), Ident("foo"), Arrow, IntTok("9"), Ident("plate"), Plus, IntTok("2"), Ident("bar")]

  /** `12 iron + 34 foo -> 9 plate + 2 bar`. */
  lemma RecipeWithCardinalities()
    ensures AllWellFormed(RecipeTestTokens)
    ensures ParseRecipeTokens(RecipeTestTokens)
         == Some(([Element(IntNum(12), "iron"), Element(IntNum(34), "foo")],
                  [Element(IntNum(9), "plate"), Element(IntNum(2), "bar")]))
  {
    var lhs := [Element(IntNum(12), "iron"), Element(IntNum(34), "foo")];
    var rhs := [Element(IntNum(9), "plate"), Element(IntNum(2), "bar")];
    RecipeTokensWellFormed();
    TestSideTokens();
    assert RecipeTokens(lhs, rhs) == RecipeTestTokens;
    RecipeRoundTrip(lhs, rhs);
  }

  lemma TestSideTokens()
    ensures SideTokens([Element(IntNum(12), "iron"), Element(IntNum(34), "foo")])
         == [IntTok("12"), Ident("iron"), Plus, IntTok("34"), Ident("foo")]
    ensures SideTokens([Element(IntNum(9), "plate"), Element(IntNum(2), "bar")])
         == [IntTok("9"), Ident("plate"), Plus, IntTok("2"), Ident("bar")]
  {
    assert NatDigits(12) == "12" && NatDigits(34) == "34" && NatDigits(9) == "9" && NatDigits(2) == "2";
  }

  lemma ArrowAfterIdentifierLexesAsIdentifier()
    ensures Tokenize("a->b").None?
  {
    assert IdentSpan("->b") == 1;
  }

  /** `a->b` is a lexical error: `-` is an identifier character, so the
      lexer takes `a-` and then finds no token starting with `>`. */
  lemma ArrowAfterIdentifierDoesNotLex()
    ensures ParseRecipe("a->b") == Err(ParseError("lexical error"))
  {
    ArrowAfterIdentifierLexesAsIdentifier();
  }
}
