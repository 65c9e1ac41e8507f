/** `ecocalc/Recipe.py`: a recipe read from the economy file, with the two
    sides of its equation, the entity it runs at, its optional execution
    time and name, and the economy it was registered with. */
module EcoRecipe {

  import opened Common
  import opened Text
  import opened Numbers
  import opened Json
  import opened EcoParser

  /** The fields `from_dict` reads, before they become a recipe object. */
  datatype RecipeFields = RecipeFields(
    lhs: seq<Element>,
    rhs: seq<Element>,
    at: string,
    executionTime: Option<real>,
    name: Option<string>)

  class Recipe {
    const lhs: seq<Element>
    const rhs: seq<Element>
    const at: string
    const executionTime: Option<real>
    const name: Option<string>
    /** Set by the economy definition that registers the recipe. */
    var economy: object?

    /** The accessors give back the constructor arguments unchanged. */
    constructor(lhs: seq<Element>, rhs: seq<Element>, at: string, executionTime: Option<real>, name: Option<string>)
      ensures this.lhs == lhs && this.rhs == rhs && this.at == at
      ensures this.executionTime == executionTime && this.name == name
      ensures economy == null
    {
      this.lhs := lhs;
      this.rhs := rhs;
      this.at := at;
      this.executionTime := executionTime;
      this.name := name;
      economy := null;
    }

    /** The resources the recipe consumes. */
    function Ingredients(): set<string>
    {
      set e | e in lhs :: e.name
    }

    /** The resources the recipe yields. */
    function Products(): set<string>
    {
      set e | e in rhs :: e.name
    }

    /** A resource is both consumed and yielded. */
    predicate IsCyclic()
    {
      Ingredients() * Products() != {}
    }

    /** The recipe has an execution time, so it runs at a rate. */
    predicate ProvidesRate()
    {
      executionTime.Some?
    }

    /** `from_dict`: a new recipe from its serialised object. */
    static method FromDict(obj: map<string, Json>) returns (r: Result<Recipe>)
      ensures r.Ok? <==> FieldsOf(obj).Ok?
      ensures r.Err? ==> r.error == FieldsOf(obj).error
      ensures r.Ok? ==> fresh(r.value) && r.value.economy == null
      ensures r.Ok? ==> var f := FieldsOf(obj).value;
        r.value.lhs == f.lhs && r.value.rhs == f.rhs && r.value.at == f.at
        && r.value.executionTime == f.executionTime && r.value.name == f.name
    {
      match FieldsOf(obj)
      case Err(e) =>
        r := Err(e);
      case Ok(f) =>
        var recipe := new Recipe(f.lhs, f.rhs, f.at, f.executionTime, f.name);
        r := Ok(recipe);
    }
  }

  /** One side of the equation, by the grammar's `RecipeSide` rule, which
      must take up the whole text. */
  function ParseSideText(s: string): (r: Result<seq<Element>>)
    ensures r.Ok? ==> |r.value| >= 1
  {
    match Tokenize(s)
    case None => Err(ParseError("lexical error"))
    case Some(ts) =>
      match ParseSide(ts, 0)
      case Some((es, n)) => if n == |ts| then Ok(es) else Err(ParseError("syntax error"))
      case None => Err(ParseError("syntax error"))
  }

  /** `_parse_recipe_equation`: the text is split at "->" and unpacked into
      exactly two sides; fewer or more pieces are a `ValueError`. */
  function ParseEquation(s: string): (r: Result<(seq<Element>, seq<Element>)>)
    ensures |SplitOn(s, "->")| != 2 ==> r.Err? && r.error.ValueError?
    ensures r.Ok? ==> var parts := SplitOn(s, "->");
      |parts| == 2 && ParseSideText(parts[0]) == Ok(r.value.0) && ParseSideText(parts[1]) == Ok(r.value.1)
  {
    var parts := SplitOn(s, "->");
    if |parts| < 2 then Err(ValueError("not enough values to unpack"))
    else if |parts| > 2 then Err(ValueError("too many values to unpack"))
    else
      match ParseSideText(parts[0])
      case Err(e) => Err(e)
      case Ok(lhs) =>
        match ParseSideText(parts[1])
        case Err(e) => Err(e)
        case Ok(rhs) => Ok((lhs, rhs))
  }

  /** What `from_dict` reads: `"recipe"` and `"at"` are mandatory, `"time"`
      and `"name"` optional (absent or `null` gives `None`). A recipe that
      is not text fails on `split`; an `"at"` or name that is not text, or a
      time that is not a number, is refused. */
  function FieldsOf(obj: map<string, Json>): (r: Result<RecipeFields>)
    ensures "recipe" !in obj ==> r == Err(KeyError("recipe"))
    ensures "recipe" in obj && obj["recipe"].JStr? && ParseEquation(obj["recipe"].s).Ok? && "at" !in obj
            ==> r == Err(KeyError("at"))
    ensures r.Ok? ==> "recipe" in obj && obj["recipe"].JStr? && "at" in obj && obj["at"] == JStr(r.value.at)
    ensures r.Ok? ==> ParseEquation(obj["recipe"].s) == Ok((r.value.lhs, r.value.rhs))
    ensures r.Ok? ==> (r.value.executionTime.None? <==> GetOptional(obj, "time").None?)
    ensures r.Ok? ==> (r.value.name.None? <==> GetOptional(obj, "name").None?)
    ensures r.Ok? && GetOptional(obj, "time").Some? ==>
              r.value.executionTime.Some? && AsNumber(obj["time"]) == Ok(r.value.executionTime.value)
    ensures r.Ok? && GetOptional(obj, "name").Some? ==>
              r.value.name.Some? && obj["name"] == JStr(r.value.name.value)
  {
    if "recipe" !in obj then Err(KeyError("recipe"))
    else if !obj["recipe"].JStr? then Err(AttributeError("split"))
    else
      match ParseEquation(obj["recipe"].s)
      case Err(e) => Err(e)
      case Ok((lhs, rhs)) =>
        if "at" !in obj then Err(KeyError("at"))
        else if !obj["at"].JStr? then Err(TypeError("at is not a string"))
        else
          var time := match GetOptional(obj, "time") case None => Ok(None) case Some(v) =>
            match AsNumber(v) case Ok(x) => Ok(Some(x)) case Err(e) => Err(e);
          var name := match GetOptional(obj, "name") case None => Ok(None) case Some(v) =>
            match AsString(v) case Ok(x) => Ok(Some(x)) case Err(e) => Err(e);
          if time.Err? then Err(time.error)
          else if name.Err? then Err(name.error)
          else Ok(RecipeFields(lhs, rhs, obj["at"].s, time.value, name.value))
  }

  // ---------------------------------------------------------------------
  // The equation reads back what is written out

  /** A side of one or more elements the grammar can give back. */
  predicate RenderableSide(es: seq<Element>)
  {
    |es| >= 1 && forall k :: 0 <= k < |es| ==> RenderableElement(es[k])
  }

  lemma SideTokensLength(es: seq<Element>)
    requires RenderableSide(es)
    ensures |SideTokens(es)| == 3 * |es| - 1
  {
  }

  /** A side written out parses back to its elements. */
  lemma SideTextRoundTrip(es: seq<Element>)
    requires RenderableSide(es)
    ensures ParseSideText(Render(SideTokens(es))) == Ok(es)
  {
    var ts := SideTokens(es);
    TokenizeRender(ts);
    SideTokensLength(es);
    assert ts[0..] == ts + [];
    SideOf(ts, 0, es, [], |ts|);
  }

  lemma {:induction false} TailTokensNoArrow(es: seq<Element>)
    requires forall k :: 0 <= k < |es| ==> RenderableElement(es[k])
    ensures forall k :: 0 <= k < |TailTokens(es)| ==> TailTokens(es)[k] != Arrow
  {
    if es != [] {
      TailTokensNoArrow(es[1..]);
      var ts := TailTokens(es);
      assert ts == [Plus] + (ElementTokens(es[0]) + TailTokens(es[1..]));
      forall k | 0 <= k < |ts| ensures ts[k] != Arrow {
        if k >= 3 {
          assert ts[k] == TailTokens(es[1..])[k - 3];
        }
      }
    }
  }

  /** Only the arrow token is written with a `>`. */
  lemma {:induction false} NoCloseAngle(ts: seq<Token>, seps: seq<string>)
    requires |seps| == |ts| && AllWellFormed(ts)
    requires forall k :: 0 <= k < |ts| ==> ts[k] != Arrow
    requires forall k :: 0 <= k < |seps| ==> AllWhitespace(seps[k])
    ensures '>' !in RenderWith(ts, seps)
  {
    if ts != [] {
      NoCloseAngle(ts[1..], seps[1..]);
      assert WellFormed(ts[0]) && AllWhitespace(seps[0]);
      var text := TokenText(ts[0]);
      assert '>' !in text by {
        match ts[0]
        case Ident(n) =>
          forall i | 0 <= i < |n| ensures n[i] != '>' {
            if i > 0 { assert IsIdentChar(n[i]); }
          }
        case FloatTok(w, f) =>
          assert text == w + "." + f;
          forall i | 0 <= i < |text| ensures text[i] != '>' {
            if i < |w| { assert text[i] == w[i]; }
            else if i > |w| { assert text[i] == f[i - |w| - 1]; }
          }
        case _ =>
      }
      assert '>' !in seps[0];
      assert RenderWith(ts, seps) == text + seps[0] + RenderWith(ts[1..], seps[1..]);
    }
  }

  lemma NoArrowInSide(es: seq<Element>)
    requires RenderableSide(es)
    ensures '>' !in Render(SideTokens(es))
  {
    var ts := SideTokens(es);
    TailTokensNoArrow(es[1..]);
    forall k | 0 <= k < |ts| ensures ts[k] != Arrow {
      if k >= 2 {
        assert ts[k] == TailTokens(es[1..])[k - 2];
      }
    }
    NoCloseAngle(ts, seq(|ts|, _ => " "));
  }

  /** The first "->" of `a + "->" + b` is the one between them when `a` has no `>`. */
  lemma FindArrow(a: string, b: string)
    requires '>' !in a
    ensures Find(a + "->" + b, "->") == Some(|a|)
  {
    var s := a + "->" + b;
    assert OccursAt(s, "->", |a|) by { assert s[|a|..|a| + 2] == "->"; }
    forall j | 0 <= j < |a| ensures !OccursAt(s, "->", j) {
      if j + 2 <= |s| {
        assert s[j..j + 2][1] == s[j + 1];
        if j + 1 < |a| { assert s[j + 1] == a[j + 1]; } else { assert s[j + 1] == '-'; }
      }
    }
  }

  /** An equation written as two sides around "->" parses back to both sides. */
  lemma EquationRoundTrip(lhs: seq<Element>, rhs: seq<Element>)
    requires RenderableSide(lhs) && RenderableSide(rhs)
    ensures ParseEquation(Render(SideTokens(lhs)) + "->" + Render(SideTokens(rhs))) == Ok((lhs, rhs))
  {
    var a, b := Render(SideTokens(lhs)), Render(SideTokens(rhs));
    NoArrowInSide(lhs);
    NoArrowInSide(rhs);
    FindArrow(a, b);
    AbsentWithout(b, "->", '>');
    SplitOnOnce(a, b, "->");
    SideTextRoundTrip(lhs);
    SideTextRoundTrip(rhs);
  }

  /** An equation without "->", or with more than one, is a `ValueError`. */
  lemma EquationNeedsOneArrow(s: string)
    requires Absent(s, "->") || |SplitOn(s, "->")| > 2
    ensures ParseEquation(s).Err? && ParseEquation(s).error.ValueError?
  {
    SplitOnSingle(s, "->");
  }

  /** A parsed equation is the two side texts joined by its only "->". */
  lemma EquationSplitsAtArrow(s: string)
    requires ParseEquation(s).Ok?
    ensures var parts := SplitOn(s, "->");
      s == parts[0] + "->" + parts[1] && Absent(parts[0], "->") && Absent(parts[1], "->")
  {
    SplitOnPair(s, "->");
  }

  /** Without `"time"` and `"name"`, a recipe has no execution time and no
      name, so it provides no rate. */
  lemma OptionalFieldsDefault(obj: map<string, Json>)
    requires "time" !in obj && "name" !in obj && FieldsOf(obj).Ok?
    ensures FieldsOf(obj).value.executionTime.None? && FieldsOf(obj).value.name.None?
  {
  }
}
