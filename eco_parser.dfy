/** The grammar of `ecocalc/Parser.py`: a lexer with the declared tokens and a
    whitespace separator, and recursive-descent rules with ordered choice and
    greedy optional and repeated groups, for production specifiers
    ("14 #123 @constructor 250%") and recipes ("12 iron + 34 foo -> 9 plate"). */
module EcoParser {

  import opened Common
  import opened Text
  import opened Numbers
  import Seqs

  datatype Token =
    | Ident(name: string)                // identifier  [a-zA-Z_][-a-zA-Z_0-9]*
    | FloatTok(whole: string, frac: string)  // float   (\d*)?\.(\d+)
    | IntTok(digits: string)             // integer     \d+
    | Percent                            // %
    | Hash                               // #
    | AtSign                             // @
    | Arrow                              // ->
    | Plus                               // +

  predicate IsIdentStart(c: char) { IsAsciiLetter(c) || c == '_' }

  predicate IsIdentChar(c: char) { IsAsciiLetter(c) || IsDigit(c) || c == '_' || c == '-' }

  predicate IsIdentifier(s: string)
  {
    s != [] && IsIdentStart(s[0]) && forall i :: 1 <= i < |s| ==> IsIdentChar(s[i])
  }

  /** Length of the longest prefix of `s` made of identifier characters. */
  function IdentSpan(s: string): (n: nat)
    ensures n <= |s| && forall i :: 0 <= i < n ==> IsIdentChar(s[i])
    ensures n < |s| ==> !IsIdentChar(s[n])
  {
    if s == [] || !IsIdentChar(s[0]) then 0 else 1 + IdentSpan(s[1..])
  }

  function TokenText(t: Token): (s: string)
    ensures WellFormed(t) ==> s != [] && !IsWhitespace(s[0])
  {
    match t
    case Ident(n) => n
    case FloatTok(w, f) => w + "." + f
    case IntTok(d) => d
    case Percent => "%"
    case Hash => "#"
    case AtSign => "@"
    case Arrow => "->"
    case Plus => "+"
  }

  /** The token could have come out of the lexer. */
  predicate WellFormed(t: Token)
  {
    match t
    case Ident(n) => IsIdentifier(n)
    case FloatTok(w, f) => AllDigits(w) && AllDigits(f) && f != []
    case IntTok(d) => d != [] && AllDigits(d)
    case _ => true
  }

  predicate AllWellFormed(ts: seq<Token>)
  {
    forall k :: 0 <= k < |ts| ==> WellFormed(ts[k])
  }

  /** The token at the start of `s` and its length, trying the patterns in
      the lexer's order: the literal tokens `->` and `+` of the rules, then
      identifier, float, integer, `%`, `#`, `@`. Each pattern takes the
      longest text it can. */
  function NextToken(s: string): (r: Option<(Token, nat)>)
    ensures r.Some? ==> 0 < r.value.1 <= |s|
  {
    if s == [] then None
    else if |s| >= 2 && s[0] == '-' && s[1] == '>' then Some((Arrow, 2))
    else if s[0] == '+' then Some((Plus, 1))
    else if IsIdentStart(s[0]) then
      var n := 1 + IdentSpan(s[1..]);
      Some((Ident(s[..n]), n))
    else LexNumberOrSymbol(s)
  }

  /** The patterns after identifier: float, integer, `%`, `#`, `@`. */
  function LexNumberOrSymbol(s: string): (r: Option<(Token, nat)>)
    requires s != []
    ensures r.Some? ==> 0 < r.value.1 <= |s|
  {
    var d := DigitSpan(s);
    if d + 1 < |s| && s[d] == '.' && IsDigit(s[d + 1]) then
      var f := DigitSpan(s[d + 1..]);
      Some((FloatTok(s[..d], s[d + 1..][..f]), d + 1 + f))
    else if d > 0 then Some((IntTok(s[..d]), d))
    else if s[0] == '%' then Some((Percent, 1))
    else if s[0] == '#' then Some((Hash, 1))
    else if s[0] == '@' then Some((AtSign, 1))
    else None
  }

  /** The lexer is sound: the token's text is exactly the text it consumed,
      and the token is well-formed. */
  lemma LexSound(s: string)
    ensures NextToken(s).Some? ==>
      var (t, n) := NextToken(s).value; TokenText(t) == s[..n] && WellFormed(t)
  {
    if s == [] {
    } else if |s| >= 2 && s[0] == '-' && s[1] == '>' {
      assert s[..2] == "->";
    } else if s[0] == '+' {
    } else if IsIdentStart(s[0]) {
      var n := 1 + IdentSpan(s[1..]);
      assert s[..n] == [s[0]] + s[1..][..n - 1];
    } else {
      LexNumberSound(s);
    }
  }

  lemma LexNumberSound(s: string)
    requires s != []
    ensures LexNumberOrSymbol(s).Some? ==>
      var (t, n) := LexNumberOrSymbol(s).value; TokenText(t) == s[..n] && WellFormed(t)
  {
    var d := DigitSpan(s);
    DigitSpanSpec(s);
    if d + 1 < |s| && s[d] == '.' && IsDigit(s[d + 1]) {
      var f := DigitSpan(s[d + 1..]);
      DigitSpanSpec(s[d + 1..]);
      assert s[..d + 1 + f] == s[..d] + "." + s[d + 1..][..f];
    }
  }

  /** The token sequence of `s`, skipping whitespace between tokens; `None`
      when some text matches no token. */
  function Tokenize(s: string): (r: Option<seq<Token>>)
    ensures r.Some? ==> AllWellFormed(r.value)
    decreases |s|
  {
    if s == [] then Some([])
    else if IsWhitespace(s[0]) then Tokenize(s[1..])
    else
      LexSound(s);
      match NextToken(s)
      case None => None
      case Some((t, n)) =>
        match Tokenize(s[n..])
        case None => None
        case Some(ts) => Some([t] + ts)
  }

  // ---------------------------------------------------------------------
  // The lexer reads back what it is given

  /** A character after the text of `t` that ends the token there. */
  predicate Stops(t: Token, c: char)
  {
    match t
    case Ident(_) => !IsIdentChar(c)
    case FloatTok(_, _) => !IsDigit(c)
    case IntTok(_) => !IsDigit(c) && c != '.'
    case _ => true
  }

  function FirstChar(t: Token): char
  {
    if TokenText(t) == [] then ' ' else TokenText(t)[0]
  }

  /** Tokens written out one after another, each followed by its separator. */
  function RenderWith(ts: seq<Token>, seps: seq<string>): string
    requires |seps| == |ts|
  {
    if ts == [] then [] else TokenText(ts[0]) + seps[0] + RenderWith(ts[1..], seps[1..])
  }

  /** Every separator is whitespace, and where one is empty the next token
      cannot be read as a continuation of the previous one. */
  predicate Separated(ts: seq<Token>, seps: seq<string>)
  {
    |seps| == |ts|
    && (forall k :: 0 <= k < |seps| ==> AllWhitespace(seps[k]))
    && (forall k :: 0 <= k < |ts| - 1 && seps[k] == [] ==> Stops(ts[k], FirstChar(ts[k + 1])))
  }

  lemma {:induction false} IdentSpanOf(a: string, b: string)
    requires forall i :: 0 <= i < |a| ==> IsIdentChar(a[i])
    requires b != [] ==> !IsIdentChar(b[0])
    ensures IdentSpan(a + b) == |a|
  {
    if a == [] {
      assert a + b == b;
    } else {
      assert (a + b)[1..] == a[1..] + b;
      IdentSpanOf(a[1..], b);
    }
  }

  lemma LexIdent(n: string, rest: string)
    requires IsIdentifier(n) && (rest != [] ==> !IsIdentChar(rest[0]))
    ensures NextToken(n + rest) == Some((Ident(n), |n|))
  {
    var s := n + rest;
    assert s[0] == n[0];
    assert s[1..] == n[1..] + rest;
    IdentSpanOf(n[1..], rest);
    assert s[..|n|] == n;
  }

  /** The float branch of the lexer, with the two digit spans named. */
  lemma FloatBranch(s: string, d: nat, g: nat)
    requires d == DigitSpan(s) && d + 1 < |s| && s[d] == '.' && IsDigit(s[d + 1])
    requires g == DigitSpan(s[d + 1..])
    ensures LexNumberOrSymbol(s) == Some((FloatTok(s[..d], s[d + 1..][..g]), d + 1 + g))
  {
  }

  lemma LexFloat(w: string, f: string, rest: string)
    requires AllDigits(w) && AllDigits(f) && f != [] && (rest != [] ==> !IsDigit(rest[0]))
    ensures NextToken(w + "." + f + rest) == Some((FloatTok(w, f), |w| + 1 + |f|))
  {
    var s := w + "." + f + rest;
    FloatLayout(s, w, f, rest);
    assert s == w + ("." + f + rest);
    FloatSpans(s, w, f, rest);
    NumericStart(s);
    FloatBranch(s, |w|, |f|);
  }

  /** Where the parts of `w + "." + f + rest` sit. */
  lemma FloatLayout(s: string, w: string, f: string, rest: string)
    requires s == w + "." + f + rest && f != []
    ensures |w| + 1 < |s| && s[..|w|] == w && s[|w|] == '.' && s[|w| + 1] == f[0]
    ensures s[|w|..] == "." + f + rest && s[|w| + 1..] == f + rest && s[|w| + 1..][..|f|] == f
    ensures s[0] == (if w == [] then '.' else w[0])
  {
    assert s[|w| + 1..] == f + rest;
  }

  /** The two digit spans of `w + "." + f + rest`. */
  lemma FloatSpans(s: string, w: string, f: string, rest: string)
    requires AllDigits(w) && AllDigits(f) && (rest != [] ==> !IsDigit(rest[0]))
    requires s == w + ("." + f + rest) && |w| + 1 < |s| && s[|w| + 1..] == f + rest
    ensures DigitSpan(s) == |w| && DigitSpan(s[|w| + 1..]) == |f|
  {
    DigitSpanOf(w, "." + f + rest);
    DigitSpanOf(f, rest);
  }

  /** A string starting with a digit or a dot is read by the number patterns. */
  lemma NumericStart(s: string)
    requires s != [] && (IsDigit(s[0]) || s[0] == '.')
    ensures NextToken(s) == LexNumberOrSymbol(s)
  {
  }

  lemma LexInt(d: string, rest: string)
    requires d != [] && AllDigits(d) && (rest != [] ==> !IsDigit(rest[0]) && rest[0] != '.')
    ensures NextToken(d + rest) == Some((IntTok(d), |d|))
  {
    var s := d + rest;
    DigitSpanOf(d, rest);
    assert s[..|d|] == d;
    assert s[0] == d[0];
    if rest != [] { assert s[|d|] == rest[0]; }
  }

  lemma LexSymbol(t: Token, rest: string)
    requires t.Percent? || t.Hash? || t.AtSign? || t.Arrow? || t.Plus?
    ensures NextToken(TokenText(t) + rest) == Some((t, |TokenText(t)|))
  {
    var s := TokenText(t) + rest;
    assert s[0] == TokenText(t)[0];
    if t.Arrow? { assert s[1] == '>'; }
    DigitSpanOf([], s);
    assert [] + s == s;
  }

  /** The lexer reads a well-formed token back from its text when the text
      after it cannot continue it. */
  lemma LexOne(t: Token, rest: string)
    requires WellFormed(t) && (rest != [] ==> Stops(t, rest[0]))
    ensures NextToken(TokenText(t) + rest) == Some((t, |TokenText(t)|))
  {
    match t
    case Ident(n) => LexIdent(n, rest);
    case FloatTok(w, f) => LexFloat(w, f, rest);
    case IntTok(d) => LexInt(d, rest);
    case _ => LexSymbol(t, rest);
  }

  lemma {:induction false} TokenizeAfterWhitespace(ws: string, s: string)
    requires AllWhitespace(ws)
    ensures Tokenize(ws + s) == Tokenize(s)
  {
    if ws != [] {
      assert (ws + s)[1..] == ws[1..] + s;
      TokenizeAfterWhitespace(ws[1..], s);
    } else {
      assert ws + s == s;
    }
  }

  /** Lexing one token and its separator off the front of the input. */
  lemma TokenizeStep(t: Token, sep: string, rest: string)
    requires WellFormed(t) && AllWhitespace(sep)
    requires sep + rest != [] ==> Stops(t, (sep + rest)[0])
    ensures Tokenize(TokenText(t) + sep + rest)
         == match Tokenize(rest) case None => None case Some(ts) => Some([t] + ts)
  {
    var text := TokenText(t);
    var s := text + (sep + rest);
    assert text + sep + rest == s;
    LexOne(t, sep + rest);
    assert s[0] == text[0];
    assert s[|text|..] == sep + rest;
    TokenizeAfterWhitespace(sep, rest);
  }

  /** Tokens written out with whitespace, or with nothing where that is
      unambiguous, lex back to the same tokens. */
  lemma {:induction false} TokenizeRenderWith(ts: seq<Token>, seps: seq<string>)
    requires AllWellFormed(ts) && Separated(ts, seps)
    ensures Tokenize(RenderWith(ts, seps)) == Some(ts)
  {
    if ts != [] {
      var text := TokenText(ts[0]);
      var tail := RenderWith(ts[1..], seps[1..]);
      assert WellFormed(ts[0]);
      FirstTokenStops(ts, seps);
      SeparatedTail(ts, seps);
      TokenizeRenderWith(ts[1..], seps[1..]);
      TokenizeStep(ts[0], seps[0], tail);
      assert RenderWith(ts, seps) == text + seps[0] + tail;
      assert [ts[0]] + ts[1..] == ts;
    }
  }

  /** What follows the first rendered token lets the lexer stop there. */
  lemma FirstTokenStops(ts: seq<Token>, seps: seq<string>)
    requires ts != [] && AllWellFormed(ts) && Separated(ts, seps)
    ensures var rest := seps[0] + RenderWith(ts[1..], seps[1..]);
      rest != [] ==> Stops(ts[0], rest[0])
  {
    var tail := RenderWith(ts[1..], seps[1..]);
    var rest := seps[0] + tail;
    if rest != [] {
      if seps[0] != [] {
        assert rest[0] == seps[0][0];
      } else {
        assert ts[1..] != [] && tail[0] == FirstChar(ts[1]);
      }
    }
  }

  lemma SeparatedTail(ts: seq<Token>, seps: seq<string>)
    requires ts != [] && AllWellFormed(ts) && Separated(ts, seps)
    ensures AllWellFormed(ts[1..]) && Separated(ts[1..], seps[1..])
  {
    forall k | 0 <= k < |ts| - 2 && seps[1..][k] == []
      ensures Stops(ts[1..][k], FirstChar(ts[1..][k + 1]))
    {
      assert seps[k + 1] == [];
    }
  }

  // ---------------------------------------------------------------------
  // Parse trees

  /** `RecipeSpecifier`: ("recipe_no", n) or ("recipe_id", name). */
  datatype RecipeSpecifier = RecipeNo(no: nat) | RecipeId(id: string)

  /** `ProductionSpecifier`: the keys of the result dictionary, absent ones as `None`. */
  datatype ProductionSpecifier = ProductionSpecifier(
    multiplier: Option<Number>,
    recipe: RecipeSpecifier,
    at: Option<string>,
    speed: Option<Number>)

  /** `RecipeElement`: a (cardinality, identifier) pair. */
  datatype Element = Element(cardinality: Number, name: string)

  // ---------------------------------------------------------------------
  // Rules. Each takes the token list and a position and gives the value and
  // the position after what it consumed, or `None` when it does not match.

  /** `Value`: a float token becomes an exact `Fraction`, an integer token an `int`. */
  function ParseValue(ts: seq<Token>, i: nat): (r: Option<(Number, nat)>)
    requires AllWellFormed(ts)
    ensures r.Some? ==> r.value.1 == i + 1 <= |ts| && (ts[i].FloatTok? || ts[i].IntTok?)
    ensures r.None? ==> i >= |ts| || !(ts[i].FloatTok? || ts[i].IntTok?)
  {
    if i < |ts| && ts[i].FloatTok? then
      assert WellFormed(ts[i]);
      var w, f := ts[i].whole, ts[i].frac;
      assert AllDigits(w + f);
      Some((FracNum(DigitsValue(w + f) as real / Pow10(|f|) as real), i + 1))
    else if i < |ts| && ts[i].IntTok? then
      assert WellFormed(ts[i]);
      Some((IntNum(DigitsValue(ts[i].digits)), i + 1))
    else None
  }

  /** `AnnotatedValue`: `Value percent` gives `Fraction(value, 100)`; otherwise a plain `Value`. */
  function ParseAnnotatedValue(ts: seq<Token>, i: nat): (r: Option<(Number, nat)>)
    requires AllWellFormed(ts)
    ensures r.Some? ==> i < r.value.1 <= |ts|
  {
    match ParseValue(ts, i)
    case None => None
    case Some((v, j)) =>
      if j < |ts| && ts[j] == Percent then Some((FracNum(v.Value() / 100.0), j + 1))
      else Some((v, j))
  }

  /** `RecipeSpecifier`: `#` followed by an integer, or an identifier. */
  function ParseRecipeSpecifier(ts: seq<Token>, i: nat): (r: Option<(RecipeSpecifier, nat)>)
    requires AllWellFormed(ts)
    ensures r.Some? ==> i < r.value.1 <= |ts|
  {
    if i + 1 < |ts| && ts[i] == Hash && ts[i + 1].IntTok? then
      assert WellFormed(ts[i + 1]);
      Some((RecipeNo(DigitsValue(ts[i + 1].digits)), i + 2))
    else if i < |ts| && ts[i].Ident? then Some((RecipeId(ts[i].name), i + 1))
    else None
  }

  /** `At`: `@` followed by an identifier. */
  function ParseAt(ts: seq<Token>, i: nat): (r: Option<(string, nat)>)
    ensures r.Some? ==> r.value.1 == i + 2 <= |ts| && ts[i] == AtSign && ts[i + 1] == Ident(r.value.0)
  {
    if i + 1 < |ts| && ts[i] == AtSign && ts[i + 1].Ident? then Some((ts[i + 1].name, i + 2)) else None
  }

  /** `ProductionSpecifier`: optional multiplier, recipe specifier, optional
      facility, optional speed; the whole input must be consumed. */
  function ParseSpecifierTokens(ts: seq<Token>): (r: Option<ProductionSpecifier>)
    requires AllWellFormed(ts)
  {
    var (m, i) := match ParseAnnotatedValue(ts, 0) case None => (None, 0) case Some((v, j)) => (Some(v), j);
    ParseSpecifierFrom(ts, m, i)
  }

  /** The rest of `ProductionSpecifier` once the optional multiplier `m` was read up to `i`. */
  function ParseSpecifierFrom(ts: seq<Token>, m: Option<Number>, i: nat): (r: Option<ProductionSpecifier>)
    requires AllWellFormed(ts)
    ensures r.Some? ==> r.value.multiplier == m
  {
    match ParseRecipeSpecifier(ts, i)
    case None => None
    case Some((rs, j)) => ParseSpecifierEnd(ts, m, rs, j)
  }

  /** The optional facility and speed after the recipe specifier, up to the end of input. */
  function ParseSpecifierEnd(ts: seq<Token>, m: Option<Number>, rs: RecipeSpecifier, j: nat): (r: Option<ProductionSpecifier>)
    requires AllWellFormed(ts)
    ensures r.Some? ==> r.value.multiplier == m && r.value.recipe == rs
  {
    var (at, k) := match ParseAt(ts, j) case None => (None, j) case Some((a, k)) => (Some(a), k);
    var (speed, l) := match ParseAnnotatedValue(ts, k) case None => (None, k) case Some((v, l)) => (Some(v), l);
    if l == |ts| then Some(ProductionSpecifier(m, rs, at, speed)) else None
  }

  /** `RecipeElement`: an optional value (default 1) and an identifier. */
  function ParseElement(ts: seq<Token>, i: nat): (r: Option<(Element, nat)>)
    requires AllWellFormed(ts)
    ensures r.Some? ==> i < r.value.1 <= |ts|
  {
    var (v, j) := match ParseValue(ts, i) case None => (IntNum(1), i) case Some((v, j)) => (v, j);
    if j < |ts| && ts[j].Ident? then Some((Element(v, ts[j].name), j + 1)) else None
  }

  /** The repeated group `('+' RecipeElement)*`: as many as match, then stop
      before the first `+` that is not followed by an element. */
  function ParseSideTail(ts: seq<Token>, i: nat): (r: (seq<Element>, nat))
    requires AllWellFormed(ts) && i <= |ts|
    ensures i <= r.1 <= |ts|
    decreases |ts| - i
  {
    if i < |ts| && ts[i] == Plus then
      match ParseElement(ts, i + 1)
      case None => ([], i)
      case Some((e, j)) =>
        var (es, k) := ParseSideTail(ts, j);
        ([e] + es, k)
    else ([], i)
  }

  /** `RecipeSide`: one element, then the repeated group. */
  function ParseSide(ts: seq<Token>, i: nat): (r: Option<(seq<Element>, nat)>)
    requires AllWellFormed(ts)
    ensures r.Some? ==> |r.value.0| >= 1 && i < r.value.1 <= |ts|
  {
    match ParseElement(ts, i)
    case None => None
    case Some((e, j)) =>
      var (es, k) := ParseSideTail(ts, j);
      Some(([e] + es, k))
  }

  /** `Recipe`: side `->` side, consuming the whole input. */
  function ParseRecipeTokens(ts: seq<Token>): (r: Option<(seq<Element>, seq<Element>)>)
    requires AllWellFormed(ts)
    ensures r.Some? ==> |r.value.0| >= 1 && |r.value.1| >= 1
  {
    match ParseSide(ts, 0)
    case None => None
    case Some((lhs, i)) =>
      if i < |ts| && ts[i] == Arrow then
        match ParseSide(ts, i + 1)
        case None => None
        case Some((rhs, j)) => if j == |ts| then Some((lhs, rhs)) else None
      else None
  }

  /** `parse_production_specifier`. */
  function ParseProductionSpecifier(s: string): (r: Result<ProductionSpecifier>)
    ensures r.Ok? ==> Tokenize(s).Some? && ParseSpecifierTokens(Tokenize(s).value) == Some(r.value)
  {
    match Tokenize(s)
    case None => Err(ParseError("lexical error"))
    case Some(ts) =>
      match ParseSpecifierTokens(ts)
      case None => Err(ParseError("syntax error"))
      case Some(p) => Ok(p)
  }

  /** `parse_recipe`. */
  function ParseRecipe(s: string): (r: Result<(seq<Element>, seq<Element>)>)
    ensures r.Ok? ==> |r.value.0| >= 1 && |r.value.1| >= 1
  {
    match Tokenize(s)
    case None => Err(ParseError("lexical error"))
    case Some(ts) =>
      match ParseRecipeTokens(ts)
      case None => Err(ParseError("syntax error"))
      case Some(p) => Ok(p)
  }

  // ---------------------------------------------------------------------
  // The rules read back what is written out

  /** Tokens written out with one space after each. */
  function Render(ts: seq<Token>): string
  {
    RenderWith(ts, seq(|ts|, _ => " "))
  }

  lemma TokenizeRender(ts: seq<Token>)
    requires AllWellFormed(ts)
    ensures Tokenize(Render(ts)) == Some(ts)
  {
    var seps := seq(|ts|, _ => " ");
    assert Separated(ts, seps);
    TokenizeRenderWith(ts, seps);
  }

  /** A number the rules can give back: a non-negative `int`, or a `Fraction`
      that is a whole number of hundredths, written as a percentage. */
  predicate RenderableNumber(n: Number)
  {
    match n
    case IntNum(i) => i >= 0
    case FracNum(q) => q >= 0.0 && (q * 100.0).Floor as real == q * 100.0
  }

  function NumberTokens(n: Number): (ts: seq<Token>)
    requires RenderableNumber(n)
    ensures AllWellFormed(ts) && 1 <= |ts| <= 2 && ts[0].IntTok?
  {
    match n
    case IntNum(i) => [IntTok(NatDigits(i))]
    case FracNum(q) => [IntTok(NatDigits((q * 100.0).Floor)), Percent]
  }

  function OptionalNumberTokens(n: Option<Number>): (ts: seq<Token>)
    requires n.Some? ==> RenderableNumber(n.value)
    ensures AllWellFormed(ts) && |ts| <= 2 && (ts != [] ==> ts[0].IntTok?)
  {
    if n.Some? then NumberTokens(n.value) else []
  }

  function RecipeSpecifierTokens(r: RecipeSpecifier): (ts: seq<Token>)
    requires r.RecipeId? ==> IsIdentifier(r.id)
    ensures AllWellFormed(ts) && |ts| >= 1 && (ts[0] == Hash || ts[0].Ident?)
  {
    match r
    case RecipeNo(n) => [Hash, IntTok(NatDigits(n))]
    case RecipeId(id) => [Ident(id)]
  }

  function AtTokens(at: Option<string>): (ts: seq<Token>)
    requires at.Some? ==> IsIdentifier(at.value)
    ensures AllWellFormed(ts) && (ts != [] ==> ts[0] == AtSign)
  {
    if at.Some? then [AtSign, Ident(at.value)] else []
  }

  predicate RenderableSpecifier(p: ProductionSpecifier)
  {
    (p.multiplier.Some? ==> RenderableNumber(p.multiplier.value))
    && (p.recipe.RecipeId? ==> IsIdentifier(p.recipe.id))
    && (p.at.Some? ==> IsIdentifier(p.at.value))
    && (p.speed.Some? ==> RenderableNumber(p.speed.value))
  }

  /** The tokens of a production specifier, in the order the rule reads them. */
  function SpecifierTokens(p: ProductionSpecifier): (ts: seq<Token>)
    requires RenderableSpecifier(p)
    ensures AllWellFormed(ts)
  {
    OptionalNumberTokens(p.multiplier) + (RecipeSpecifierTokens(p.recipe) + (AtTokens(p.at) + OptionalNumberTokens(p.speed)))
  }

  /** A rendered number, not followed by `%`, is read back as itself. */
  lemma ValueOf(ts: seq<Token>, i: nat, n: Number, rest: seq<Token>)
    requires AllWellFormed(ts) && RenderableNumber(n)
    requires i <= |ts| && ts[i..] == NumberTokens(n) + rest
    requires rest != [] ==> rest[0] != Percent
    ensures ParseAnnotatedValue(ts, i) == Some((n, i + |NumberTokens(n)|))
    ensures ts[i + |NumberTokens(n)|..] == rest
  {
    var nt := NumberTokens(n);
    Seqs.SplitAt(ts, i, nt, rest);
    assert ts[i] == nt[0];
    if i + |nt| < |ts| {
      assert ts[i + |nt|] == rest[0];
    }
    match n
    case IntNum(k) =>
      NatDigitsValue(k);
    case FracNum(q) =>
      assert ts[i + 1] == nt[1];
      var k := (q * 100.0).Floor;
      NatDigitsValue(k);
      assert IntNum(DigitsValue(NatDigits(k))).Value() / 100.0 == q;
  }

  /** A rendered recipe specifier is read back as itself, and is no value. */
  lemma RecipeSpecifierOf(ts: seq<Token>, i: nat, r: RecipeSpecifier, rest: seq<Token>)
    requires AllWellFormed(ts) && (r.RecipeId? ==> IsIdentifier(r.id))
    requires i <= |ts| && ts[i..] == RecipeSpecifierTokens(r) + rest
    ensures ParseValue(ts, i).None?
    ensures ParseRecipeSpecifier(ts, i) == Some((r, i + |RecipeSpecifierTokens(r)|))
    ensures ts[i + |RecipeSpecifierTokens(r)|..] == rest
  {
    var rt := RecipeSpecifierTokens(r);
    Seqs.SplitAt(ts, i, rt, rest);
    assert ts[i] == rt[0];
    if r.RecipeNo? {
      assert ts[i + 1] == rt[1];
      NatDigitsValue(r.no);
    }
  }

  lemma AtOf(ts: seq<Token>, i: nat, at: Option<string>, rest: seq<Token>)
    requires at.Some? ==> IsIdentifier(at.value)
    requires i <= |ts| && ts[i..] == AtTokens(at) + rest
    requires at.None? && rest != [] ==> rest[0].IntTok?
    ensures ParseAt(ts, i) == (if at.Some? then Some((at.value, i + 2)) else None)
    ensures ts[i + |AtTokens(at)|..] == rest
  {
    var a := AtTokens(at);
    Seqs.SplitAt(ts, i, a, rest);
    if at.Some? {
      assert ts[i] == a[0] && ts[i + 1] == a[1];
    } else if i < |ts| {
      assert ts[i] == rest[0];
    }
  }

  lemma SpeedOf(ts: seq<Token>, k: nat, speed: Option<Number>)
    requires AllWellFormed(ts) && (speed.Some? ==> RenderableNumber(speed.value))
    requires k <= |ts| && ts[k..] == OptionalNumberTokens(speed)
    ensures ParseAnnotatedValue(ts, k) == if speed.Some? then Some((speed.value, |ts|)) else None
  {
    if speed.Some? {
      assert ts[k..] == NumberTokens(speed.value) + [];
      ValueOf(ts, k, speed.value, []);
    } else {
      assert |ts[k..]| == |ts| - k;
    }
  }

  lemma SpecifierEndOf(ts: seq<Token>, j: nat, p: ProductionSpecifier)
    requires AllWellFormed(ts) && RenderableSpecifier(p)
    requires j <= |ts| && ts[j..] == AtTokens(p.at) + OptionalNumberTokens(p.speed)
    ensures ParseSpecifierEnd(ts, p.multiplier, p.recipe, j) == Some(p)
  {
    var a := AtTokens(p.at);
    AtOf(ts, j, p.at, OptionalNumberTokens(p.speed));
    SpeedOf(ts, j + |a|, p.speed);
  }

  lemma SpecifierFromOf(ts: seq<Token>, i: nat, p: ProductionSpecifier)
    requires AllWellFormed(ts) && RenderableSpecifier(p)
    requires i <= |ts| && ts[i..] == RecipeSpecifierTokens(p.recipe) + (AtTokens(p.at) + OptionalNumberTokens(p.speed))
    ensures ParseSpecifierFrom(ts, p.multiplier, i) == Some(p)
  {
    var r, a, s := RecipeSpecifierTokens(p.recipe), AtTokens(p.at), OptionalNumberTokens(p.speed);
    var j := i + |r|;
    assert ParseRecipeSpecifier(ts, i) == Some((p.recipe, j)) && ts[j..] == a + s by {
      RecipeSpecifierOf(ts, i, p.recipe, a + s);
    }
    SpecifierEndOf(ts, j, p);
    SpecifierFromStep(ts, p.multiplier, i, p.recipe, j);
  }

  lemma SpecifierFromStep(ts: seq<Token>, m: Option<Number>, i: nat, r: RecipeSpecifier, j: nat)
    requires AllWellFormed(ts) && ParseRecipeSpecifier(ts, i) == Some((r, j))
    ensures ParseSpecifierFrom(ts, m, i) == ParseSpecifierEnd(ts, m, r, j)
  {
  }

  /** The production-specifier rule gives back every specifier it can be written from. */
  lemma SpecifierRoundTrip(p: ProductionSpecifier)
    requires RenderableSpecifier(p)
    ensures ParseSpecifierTokens(SpecifierTokens(p)) == Some(p)
  {
    var ts := SpecifierTokens(p);
    var m, r, a, s := OptionalNumberTokens(p.multiplier), RecipeSpecifierTokens(p.recipe), AtTokens(p.at), OptionalNumberTokens(p.speed);
    var rest := r + (a + s);
    assert ts[0..] == m + rest;
    if p.multiplier.Some? {
      assert ParseAnnotatedValue(ts, 0) == Some((p.multiplier.value, |m|)) && ts[|m|..] == rest by {
        assert rest[0] == r[0];
        ValueOf(ts, 0, p.multiplier.value, rest);
      }
    } else {
      assert ParseValue(ts, 0).None? && ts[|m|..] == rest by {
        RecipeSpecifierOf(ts, 0, p.recipe, a + s);
      }
    }
    SpecifierFromOf(ts, |m|, p);
    SpecifierTokensStep(ts, p.multiplier, |m|);
  }

  lemma SpecifierTokensStep(ts: seq<Token>, m: Option<Number>, i: nat)
    requires AllWellFormed(ts)
    requires m.Some? ==> ParseAnnotatedValue(ts, 0) == Some((m.value, i))
    requires m.None? ==> ParseValue(ts, 0).None? && i == 0
    ensures ParseSpecifierTokens(ts) == ParseSpecifierFrom(ts, m, i)
  {
  }

  /** Text written from a production specifier parses back to it. */
  lemma SpecifierTextRoundTrip(p: ProductionSpecifier)
    requires RenderableSpecifier(p)
    ensures ParseProductionSpecifier(Render(SpecifierTokens(p))) == Ok(p)
  {
    TokenizeRender(SpecifierTokens(p));
    SpecifierRoundTrip(p);
  }

  predicate RenderableElement(e: Element)
  {
    e.cardinality.IntNum? && e.cardinality.i >= 0 && IsIdentifier(e.name)
  }

  function ElementTokens(e: Element): (ts: seq<Token>)
    requires RenderableElement(e)
    ensures AllWellFormed(ts) && |ts| == 2
  {
    [IntTok(NatDigits(e.cardinality.i)), Ident(e.name)]
  }

  /** The tokens of the repeated group `('+' RecipeElement)*`. */
  function TailTokens(es: seq<Element>): (ts: seq<Token>)
    requires forall k :: 0 <= k < |es| ==> RenderableElement(es[k])
    ensures AllWellFormed(ts) && |ts| == 3 * |es|
  {
    if es == [] then [] else [Plus] + (ElementTokens(es[0]) + TailTokens(es[1..]))
  }

  function SideTokens(es: seq<Element>): (ts: seq<Token>)
    requires |es| >= 1 && forall k :: 0 <= k < |es| ==> RenderableElement(es[k])
    ensures AllWellFormed(ts)
  {
    ElementTokens(es[0]) + TailTokens(es[1..])
  }

  function RecipeTokens(lhs: seq<Element>, rhs: seq<Element>): (ts: seq<Token>)
    requires |lhs| >= 1 && forall k :: 0 <= k < |lhs| ==> RenderableElement(lhs[k])
    requires |rhs| >= 1 && forall k :: 0 <= k < |rhs| ==> RenderableElement(rhs[k])
    ensures AllWellFormed(ts)
  {
    SideTokens(lhs) + ([Arrow] + SideTokens(rhs))
  }

  lemma ElementOf(ts: seq<Token>, i: nat, e: Element, rest: seq<Token>)
    requires AllWellFormed(ts) && RenderableElement(e)
    requires i <= |ts| && ts[i..] == ElementTokens(e) + rest
    ensures ParseElement(ts, i) == Some((e, i + 2)) && ts[i + 2..] == rest
  {
    var et := ElementTokens(e);
    Seqs.SplitAt(ts, i, et, rest);
    assert ts[i] == et[0] && ts[i + 1] == et[1];
    NatDigitsValue(e.cardinality.i);
  }

  lemma {:induction false} SideTailOf(ts: seq<Token>, i: nat, es: seq<Element>, rest: seq<Token>, j: nat)
    requires AllWellFormed(ts) && forall k :: 0 <= k < |es| ==> RenderableElement(es[k])
    requires i <= |ts| && ts[i..] == TailTokens(es) + rest
    requires rest != [] ==> rest[0] != Plus
    requires j == i + 3 * |es|
    ensures j <= |ts| && ParseSideTail(ts, i) == (es, j) && ts[j..] == rest
    decreases |es|
  {
    if es != [] {
      SideTailHead(ts, i, es, rest);
      assert forall k :: 0 <= k < |es[1..]| ==> es[1..][k] == es[k + 1];
      SideTailOf(ts, i + 3, es[1..], rest, j);
      SideTailStep(ts, i, es[0], i + 3, es[1..], j);
      assert [es[0]] + es[1..] == es;
    } else {
      SideTailEnd(ts, i, rest);
    }
  }

  /** The first `+ element` of the group's tokens reads back. */
  lemma SideTailHead(ts: seq<Token>, i: nat, es: seq<Element>, rest: seq<Token>)
    requires AllWellFormed(ts) && es != [] && forall k :: 0 <= k < |es| ==> RenderableElement(es[k])
    requires i <= |ts| && ts[i..] == TailTokens(es) + rest
    ensures i + 3 <= |ts| && ts[i] == Plus
    ensures ParseElement(ts, i + 1) == Some((es[0], i + 3)) && ts[i + 3..] == TailTokens(es[1..]) + rest
  {
    var et, tail := ElementTokens(es[0]), TailTokens(es[1..]);
    Seqs.ConsSplit(ts, i, Plus, et, tail, rest);
    ElementOf(ts, i + 1, es[0], tail + rest);
  }

  /** The repeated group stops before anything but `+`. */
  lemma SideTailEnd(ts: seq<Token>, i: nat, rest: seq<Token>)
    requires AllWellFormed(ts) && i <= |ts| && ts[i..] == rest
    requires rest != [] ==> rest[0] != Plus
    ensures ParseSideTail(ts, i) == ([], i)
  {
    if i < |ts| {
      assert ts[i] == rest[0];
    }
  }

  /** One `+ element` read, then the rest of the group. */
  lemma SideTailStep(ts: seq<Token>, i: nat, e: Element, j: nat, es: seq<Element>, k: nat)
    requires AllWellFormed(ts) && i < |ts| && ts[i] == Plus
    requires ParseElement(ts, i + 1) == Some((e, j)) && ParseSideTail(ts, j) == (es, k)
    ensures ParseSideTail(ts, i) == ([e] + es, k)
  {
  }

  lemma SideOf(ts: seq<Token>, i: nat, es: seq<Element>, rest: seq<Token>, j: nat)
    requires AllWellFormed(ts) && |es| >= 1 && forall k :: 0 <= k < |es| ==> RenderableElement(es[k])
    requires i <= |ts| && ts[i..] == SideTokens(es) + rest
    requires rest != [] ==> rest[0] != Plus
    requires j == i + 3 * |es| - 1
    ensures ParseSide(ts, i) == Some((es, j)) && ts[j..] == rest
  {
    var et, tail := ElementTokens(es[0]), TailTokens(es[1..]);
    Seqs.Reassoc(ts, i, et, tail, rest);
    ElementOf(ts, i, es[0], tail + rest);
    SideTailOf(ts, i + 2, es[1..], rest, j);
    SideStep(ts, i, es[0], i + 2, es[1..], j);
    assert [es[0]] + es[1..] == es;
  }

  /** `RecipeSide` is its first element followed by the repeated group. */
  lemma SideStep(ts: seq<Token>, i: nat, e: Element, j: nat, es: seq<Element>, k: nat)
    requires AllWellFormed(ts) && ParseElement(ts, i) == Some((e, j)) && ParseSideTail(ts, j) == (es, k)
    ensures ParseSide(ts, i) == Some(([e] + es, k))
  {
  }

  /** The recipe rule gives back both sides of every recipe it can be written from. */
  lemma RecipeRoundTrip(lhs: seq<Element>, rhs: seq<Element>)
    requires |lhs| >= 1 && forall k :: 0 <= k < |lhs| ==> RenderableElement(lhs[k])
    requires |rhs| >= 1 && forall k :: 0 <= k < |rhs| ==> RenderableElement(rhs[k])
    ensures ParseRecipeTokens(RecipeTokens(lhs, rhs)) == Some((lhs, rhs))
  {
    var ts := RecipeTokens(lhs, rhs);
    var n := 3 * |lhs| - 1;
    var m := n + 1 + 3 * |rhs| - 1;
    RecipeLeft(ts, lhs, SideTokens(rhs), n);
    RecipeRight(ts, n, rhs, m);
    RecipeStep(ts, lhs, n, rhs, m);
  }

  /** The left side is read up to the arrow. */
  lemma RecipeLeft(ts: seq<Token>, lhs: seq<Element>, r: seq<Token>, n: nat)
    requires |lhs| >= 1 && forall k :: 0 <= k < |lhs| ==> RenderableElement(lhs[k])
    requires AllWellFormed(ts) && ts == SideTokens(lhs) + ([Arrow] + r) && n == 3 * |lhs| - 1
    ensures ParseSide(ts, 0) == Some((lhs, n)) && n < |ts| && ts[n] == Arrow && ts[n + 1..] == r
  {
    assert ts[0..] == SideTokens(lhs) + ([Arrow] + r);
    SideOf(ts, 0, lhs, [Arrow] + r, n);
    ArrowAt(ts, n, r);
  }

  lemma ArrowAt(ts: seq<Token>, n: nat, r: seq<Token>)
    requires n <= |ts| && ts[n..] == [Arrow] + r
    ensures n < |ts| && ts[n] == Arrow && ts[n + 1..] == r
  {
    assert ts[n] == ts[n..][0];
    assert ts[n + 1..] == ts[n..][1..];
  }

  /** The right side is read to the end of the input. */
  lemma RecipeRight(ts: seq<Token>, n: nat, rhs: seq<Element>, m: nat)
    requires |rhs| >= 1 && forall k :: 0 <= k < |rhs| ==> RenderableElement(rhs[k])
    requires AllWellFormed(ts) && n < |ts| && ts[n + 1..] == SideTokens(rhs) && m == n + 1 + 3 * |rhs| - 1
    ensures ParseSide(ts, n + 1) == Some((rhs, m)) && m == |ts|
  {
    assert ts[n + 1..] == SideTokens(rhs) + [];
    SideOf(ts, n + 1, rhs, [], m);
    assert |ts[m..]| == |ts| - m;
  }

  /** `Recipe` is a side, the arrow and a side that ends the input. */
  lemma RecipeStep(ts: seq<Token>, lhs: seq<Element>, n: nat, rhs: seq<Element>, m: nat)
    requires AllWellFormed(ts) && ParseSide(ts, 0) == Some((lhs, n)) && n < |ts| && ts[n] == Arrow
    requires ParseSide(ts, n + 1) == Some((rhs, m)) && m == |ts|
    ensures ParseRecipeTokens(ts) == Some((lhs, rhs))
  {
  }

  /** Text written from a recipe parses back to it. */
  lemma RecipeTextRoundTrip(lhs: seq<Element>, rhs: seq<Element>)
    requires |lhs| >= 1 && forall k :: 0 <= k < |lhs| ==> RenderableElement(lhs[k])
    requires |rhs| >= 1 && forall k :: 0 <= k < |rhs| ==> RenderableElement(rhs[k])
    ensures ParseRecipe(Render(RecipeTokens(lhs, rhs))) == Ok((lhs, rhs))
  {
    TokenizeRender(RecipeTokens(lhs, rhs));
    RecipeRoundTrip(lhs, rhs);
  }
}
