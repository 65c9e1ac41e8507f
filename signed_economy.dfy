/** `Economy.py` of the top-level generation: the recipes of one economy
    definition, read in count mode or in rates mode, looked up by name or by
    their 1-based position through a recipe descriptor such as `"3/4 smelt"`,
    `"50% #2"` or `"#1"`. */
module SignedEconomy {

  import opened Common
  import opened Text
  import opened Numbers
  import opened Json
  import opened NumberTools
  import opened SignedRecipe

  // ---- Reading the recipes ---------------------------------------------------

  /** In rates mode an entry is passed over when `"time" not in entry`
      holds: an object without the key, a list without the text among its
      elements, a string without it as a substring. On a number, a boolean
      or `null` the test raises, so such an entry is not passed over. */
  predicate Skipped(entry: Json, showRate: bool)
  {
    showRate && Contains(entry, "time") == Ok(false)
  }

  /** Which entries rates mode passes over, kind by kind; count mode passes
      over none. */
  lemma SkippedKinds(entry: Json)
    ensures entry.JObject? ==> (Skipped(entry, true) <==> "time" !in entry.fields)
    ensures entry.JList? ==> (Skipped(entry, true) <==> JStr("time") !in entry.items)
    ensures entry.JStr? ==> (Skipped(entry, true) <==> Absent(entry.s, "time"))
    ensures entry.JNull? || entry.JBool? || entry.JInt? || entry.JFloat? ==> !Skipped(entry, true)
    ensures !Skipped(entry, false)
  {
  }

  /** The recipe of one entry that is not passed over: its `"recipe"` text,
      named by its optional `"name"`, and in rates mode with the entry's
      `"time"` read by `str2num` as the cycle time. Only an object can be
      indexed by text: any other entry raises `TypeError`. */
  function RecipeOfEntry(entry: Json, showRate: bool): (r: Result<Recipe>)
    ensures r.Ok? ==> r.value.isRate == showRate && r.value.scalar == 1.0 && r.value.producedAt == None
    ensures !entry.JObject? ==> r.Err?
    ensures entry.JObject? && "recipe" !in entry.fields ==> r.Err?
  {
    if !entry.JObject? then Err(TypeError("recipe entry is not an object"))
    else
      var fields := entry.fields;
      var cycleTime: Result<Option<Number>> :=
        if !showRate then Ok(None)
        else if "time" !in fields then Err(KeyError("time"))
        else match Str2Num(fields["time"])
          case Err(e) => Err(e)
          case Ok(t) => Ok(Some(t));
      if cycleTime.Err? then Err(cycleTime.error)
      else if "recipe" !in fields then Err(KeyError("recipe"))
      else if !fields["recipe"].JStr? then Err(TypeError("recipe text is not a string"))
      else
        var name: Result<Option<string>> :=
          match GetOptional(fields, "name")
          case None => Ok(None)
          case Some(JStr(s)) => Ok(Some(s))
          case Some(_) => Err(TypeError("recipe name is not a string"));
        if name.Err? then Err(name.error)
        else RecipeOfText(fields["recipe"].s, name.value, None, cycleTime.value)
  }

  /** Reading an entry in the given mode, as a function value. */
  function EntryReader(showRate: bool): Json -> Result<Recipe>
  {
    e => RecipeOfEntry(e, showRate)
  }

  /** The recipes `read` makes of the entries in order, entries passed over
      in rates mode left out; the first entry that fails raises. */
  function Collect(entries: seq<Json>, showRate: bool, read: Json -> Result<Recipe>): (r: Result<seq<Recipe>>)
    ensures r.Ok? ==> |r.value| <= |entries|
  {
    if entries == [] then Ok([])
    else
      var last := entries[|entries| - 1];
      match Collect(entries[..|entries| - 1], showRate, read)
      case Err(e) => Err(e)
      case Ok(rs) =>
        if Skipped(last, showRate) then Ok(rs)
        else
          match read(last)
          case Err(e) => Err(e)
          case Ok(x) => Ok(rs + [x])
  }

  /** `_parse_recipes`: the recipes of the definition's entries in order,
      entries passed over in rates mode left out; the first entry that fails
      raises. */
  function ParsedRecipes(entries: seq<Json>, showRate: bool): Result<seq<Recipe>>
  {
    Collect(entries, showRate, EntryReader(showRate))
  }

  /** An error among the first entries is the error of them all. */
  lemma {:induction false} CollectError(entries: seq<Json>, i: nat, showRate: bool, read: Json -> Result<Recipe>)
    requires i <= |entries| && Collect(entries[..i], showRate, read).Err?
    ensures Collect(entries, showRate, read) == Collect(entries[..i], showRate, read)
    decreases |entries| - i
  {
    if i < |entries| {
      assert entries[..i + 1][..i] == entries[..i];
      CollectError(entries, i + 1, showRate, read);
    } else {
      assert entries[..i] == entries;
    }
  }

  /** The loop of `_parse_recipes`. */
  method ParseRecipes(entries: seq<Json>, showRate: bool) returns (r: Result<seq<Recipe>>)
    ensures r == ParsedRecipes(entries, showRate)
  {
    var read := EntryReader(showRate);
    var recipes: seq<Recipe> := [];
    for i := 0 to |entries|
      invariant Collect(entries[..i], showRate, read) == Ok(recipes)
    {
      assert entries[..i + 1][..i] == entries[..i];
      if Skipped(entries[i], showRate) {
        continue;
      }
      var recipe := RecipeOfEntry(entries[i], showRate);
      assert read(entries[i]) == recipe;
      if recipe.Err? {
        CollectError(entries, i + 1, showRate, read);
        return Err(recipe.error);
      }
      recipes := recipes + [recipe.value];
    }
    assert entries[..|entries|] == entries;
    return Ok(recipes);
  }

  /** The entries that are not passed over, in order. */
  function Kept(entries: seq<Json>, showRate: bool): (ks: seq<Json>)
    ensures |ks| <= |entries|
  {
    if entries == [] then []
    else
      var rest := Kept(entries[..|entries| - 1], showRate);
      if Skipped(entries[|entries| - 1], showRate) then rest else rest + [entries[|entries| - 1]]
  }

  /** Every given entry read by `read`, in order; the first failure raises. */
  function ReadEach(entries: seq<Json>, read: Json -> Result<Recipe>): (r: Result<seq<Recipe>>)
    ensures r.Ok? ==> |r.value| == |entries|
  {
    if entries == [] then Ok([])
    else
      match ReadEach(entries[..|entries| - 1], read)
      case Err(e) => Err(e)
      case Ok(rs) =>
        match read(entries[|entries| - 1])
        case Err(e) => Err(e)
        case Ok(x) => Ok(rs + [x])
  }

  /** Reading the recipes is dropping the entries passed over and reading
      every other entry, in order. */
  lemma {:induction false} CollectKept(entries: seq<Json>, showRate: bool, read: Json -> Result<Recipe>)
    ensures Collect(entries, showRate, read) == ReadEach(Kept(entries, showRate), read)
  {
    if entries != [] {
      var init := entries[..|entries| - 1];
      var last := entries[|entries| - 1];
      CollectKept(init, showRate, read);
      if !Skipped(last, showRate) {
        var ks := Kept(init, showRate) + [last];
        assert ks[..|ks| - 1] == Kept(init, showRate);
      }
    }
  }

  /** In count mode no entry is passed over; in rates mode exactly the
      entries `Skipped` describes are, whatever their kind. */
  lemma {:induction false} KeptSpec(entries: seq<Json>, showRate: bool)
    ensures !showRate ==> Kept(entries, showRate) == entries
    ensures forall e :: e in Kept(entries, showRate) <==> e in entries && !Skipped(e, showRate)
  {
    if entries != [] {
      var init := entries[..|entries| - 1];
      KeptSpec(init, showRate);
      assert entries == init + [entries[|entries| - 1]];
    }
  }

  /** The `k`-th recipe read is what `read` makes of the `k`-th entry. */
  lemma {:induction false} ReadEachEach(entries: seq<Json>, read: Json -> Result<Recipe>, k: nat)
    requires ReadEach(entries, read).Ok? && k < |entries|
    ensures read(entries[k]) == Ok(ReadEach(entries, read).value[k])
  {
    var m := |entries| - 1;
    var init := entries[..m];
    if k < m {
      assert entries[k] == init[k];
      ReadEachEach(init, read, k);
    }
  }

  /** The recipes of a definition are its kept entries' recipes, in order,
      and each is a rates recipe exactly in rates mode. */
  lemma ParsedRecipesSpec(entries: seq<Json>, showRate: bool, k: nat)
    requires ParsedRecipes(entries, showRate).Ok?
    ensures var kept := Kept(entries, showRate);
      && |ParsedRecipes(entries, showRate).value| == |kept|
      && (k < |kept| ==> RecipeOfEntry(kept[k], showRate) == Ok(ParsedRecipes(entries, showRate).value[k]))
      && (k < |kept| ==> ParsedRecipes(entries, showRate).value[k].isRate == showRate)
  {
    var read := EntryReader(showRate);
    CollectKept(entries, showRate, read);
    var kept := Kept(entries, showRate);
    if k < |kept| {
      ReadEachEach(kept, read, k);
      assert read(kept[k]) == RecipeOfEntry(kept[k], showRate);
    }
  }

  // ---- Recipes by name -------------------------------------------------------

  /** `_recipes_by_name`: every named recipe under its name; of two recipes
      with one name the later one is kept. */
  function ByName(recipes: seq<Recipe>): map<string, Recipe>
  {
    if recipes == [] then map[]
    else
      var last := recipes[|recipes| - 1];
      var rest := ByName(recipes[..|recipes| - 1]);
      if last.name.Some? then rest[last.name.value := last] else rest
  }

  /** A name is a key exactly when some recipe carries it, and it maps to the
      last recipe that does. */
  lemma {:induction false} ByNameSpec(recipes: seq<Recipe>, n: string)
    ensures n in ByName(recipes) <==> exists k :: 0 <= k < |recipes| && recipes[k].name == Some(n)
    ensures n in ByName(recipes) ==>
      exists k :: 0 <= k < |recipes| && ByName(recipes)[n] == recipes[k]
        && recipes[k].name == Some(n) && forall j :: k < j < |recipes| ==> recipes[j].name != Some(n)
  {
    if recipes != [] {
      var m := |recipes| - 1;
      var init := recipes[..m];
      ByNameSpec(init, n);
      forall k | 0 <= k < m ensures recipes[k] == init[k] { }
      if recipes[m].name == Some(n) {
        assert ByName(recipes)[n] == recipes[m];
      } else if n in ByName(init) {
        var k :| 0 <= k < m && ByName(init)[n] == init[k]
          && init[k].name == Some(n) && forall j :: k < j < m ==> init[j].name != Some(n);
        assert ByName(recipes)[n] == recipes[k];
      }
    }
  }

  // ---- The economy -----------------------------------------------------------

  /** An economy: the recipes read from its definition, those with a name by
      name, and the definition's `"resources"`. */
  datatype Economy = Economy(showRate: bool, recipes: seq<Recipe>, recipesByName: map<string, Recipe>, resources: Json)

  /** The single-character strings `for` visits in a string. */
  function CharEntries(s: string): (es: seq<Json>)
    ensures |es| == |s| && forall k :: 0 <= k < |s| ==> es[k] == JStr([s[k]])
  {
    seq(|s|, k requires 0 <= k < |s| => JStr([s[k]]))
  }

  /** Keys visited in the given order, each a string entry. */
  function KeyEntries(keys: seq<string>): (es: seq<Json>)
    ensures |es| == |keys| && forall k :: 0 <= k < |keys| ==> es[k] == JStr(keys[k])
  {
    seq(|keys|, k requires 0 <= k < |keys| => JStr(keys[k]))
  }

  /** The error a string entry that is not passed over raises. */
  const NotAnObject := TypeError("recipe entry is not an object")

  /** Entries that are each passed over or refused with one error give no
      recipe: none at all when every one is passed over, otherwise that error. */
  lemma {:induction false} CollectRefused(es: seq<Json>, showRate: bool, read: Json -> Result<Recipe>, e: Error)
    requires forall k :: 0 <= k < |es| ==> Skipped(es[k], showRate) || read(es[k]) == Err(e)
    ensures Collect(es, showRate, read)
         == if forall k :: 0 <= k < |es| ==> Skipped(es[k], showRate) then Ok([]) else Err(e)
  {
    if es != [] {
      var m := |es| - 1;
      var init := es[..m];
      forall k | 0 <= k < m ensures init[k] == es[k] { }
      CollectRefused(init, showRate, read, e);
    }
  }

  /** Text cannot be indexed by text. */
  lemma StringEntryRefused(entry: Json, showRate: bool)
    requires entry.JStr?
    ensures EntryReader(showRate)(entry) == Err(NotAnObject)
  {
  }

  /** Entries that are all strings give no recipe: none at all when every
      one is passed over, otherwise the `TypeError` of indexing a string. */
  lemma StringEntries(es: seq<Json>, showRate: bool)
    requires forall k :: 0 <= k < |es| ==> es[k].JStr?
    ensures ParsedRecipes(es, showRate)
         == if forall k :: 0 <= k < |es| ==> Skipped(es[k], showRate) then Ok([]) else Err(NotAnObject)
  {
    var read := EntryReader(showRate);
    forall k | 0 <= k < |es| ensures read(es[k]) == Err(NotAnObject) {
      StringEntryRefused(es[k], showRate);
    }
    CollectRefused(es, showRate, read, NotAnObject);
  }

  /** A string iterated character by character: no character contains
      `"time"`, so rates mode passes over all of them, and count mode fails
      on the first. */
  lemma CharRecipes(s: string, showRate: bool)
    ensures ParsedRecipes(CharEntries(s), showRate) == if s == [] || showRate then Ok([]) else Err(NotAnObject)
  {
    var es := CharEntries(s);
    StringEntries(es, showRate);
    if showRate {
      forall k | 0 <= k < |es| ensures Skipped(es[k], showRate) {
        assert Contains(es[k], "time") == Ok(false) by {
          assert forall j :: 0 <= j <= 1 ==> !OccursAt([s[k]], "time", j);
        }
      }
    } else if s != [] {
      assert !Skipped(es[0], showRate);
    }
  }

  /** The recipes of an object's keys, which Python visits in insertion
      order: each key is a string entry, so they are none when rates mode
      passes over every key and the `TypeError` of indexing a string
      otherwise, whatever the order. */
  function KeyRecipes(fields: map<string, Json>, showRate: bool): (r: Result<seq<Recipe>>)
    ensures r.Ok? ==> r.value == []
    ensures fields == map[] ==> r == Ok([])
  {
    if forall k | k in fields :: Skipped(JStr(k), showRate) then Ok([]) else Err(NotAnObject)
  }

  /** Any order of the keys gives what `KeyRecipes` gives. */
  lemma KeyRecipesAnyOrder(fields: map<string, Json>, keys: seq<string>, showRate: bool)
    requires forall k :: k in fields <==> k in keys
    ensures ParsedRecipes(KeyEntries(keys), showRate) == KeyRecipes(fields, showRate)
  {
    var es := KeyEntries(keys);
    StringEntries(es, showRate);
    if forall k | k in fields :: Skipped(JStr(k), showRate) {
      forall i | 0 <= i < |es| ensures Skipped(es[i], showRate) {
        assert keys[i] in fields;
      }
    } else {
      var k :| k in fields && !Skipped(JStr(k), showRate);
      var i :| 0 <= i < |keys| && keys[i] == k;
      assert !Skipped(es[i], showRate);
    }
  }

  /** `for recipe in self._def["recipes"]`: a list gives its elements, a
      string its characters, an object its keys; anything else is not
      iterable. */
  function RecipesOf(v: Json, showRate: bool): (r: Result<seq<Recipe>>)
    ensures v.JList? ==> r == ParsedRecipes(v.items, showRate)
    ensures v.JStr? ==> r == ParsedRecipes(CharEntries(v.s), showRate)
    ensures v.JObject? ==> r == KeyRecipes(v.fields, showRate)
    ensures !v.JList? && r.Ok? ==> r.value == []
    ensures (v.JNull? || v.JBool? || v.JInt? || v.JFloat?) ==> r == Err(TypeError("object is not iterable"))
  {
    match v
    case JList(items) => ParsedRecipes(items, showRate)
    case JStr(s) => CharRecipes(s, showRate); ParsedRecipes(CharEntries(s), showRate)
    case JObject(fields) => KeyRecipes(fields, showRate)
    case _ => Err(TypeError("object is not iterable"))
  }

  /** `__init__`: the recipes are read first, so their errors come before a
      missing `"resources"` key. An empty list, string or object of recipes
      gives an economy without recipes. */
  function NewEconomy(definition: map<string, Json>, showRate: bool): (r: Result<Economy>)
    ensures r.Ok? ==> "recipes" in definition && "resources" in definition
    ensures r.Ok? ==> r.value.showRate == showRate && r.value.resources == definition["resources"]
    ensures r.Ok? ==> Ok(r.value.recipes) == RecipesOf(definition["recipes"], showRate)
    ensures r.Ok? && definition["recipes"].JList? ==> Ok(r.value.recipes) == ParsedRecipes(definition["recipes"].items, showRate)
    ensures r.Ok? && !definition["recipes"].JList? ==> r.value.recipes == []
    ensures r.Ok? ==> r.value.recipesByName == ByName(r.value.recipes)
    ensures "recipes" in definition && "resources" in definition ==>
              (definition["recipes"] in {JList([]), JStr([]), JObject(map[])} ==> r.Ok? && r.value.recipes == [])
  {
    if "recipes" !in definition then Err(KeyError("recipes"))
    else
      match RecipesOf(definition["recipes"], showRate)
      case Err(e) => Err(e)
      case Ok(recipes) =>
        if "resources" !in definition then Err(KeyError("resources"))
        else Ok(Economy(showRate, recipes, ByName(recipes), definition["resources"]))
  }

  /** `all_recipes`: the recipes in the order of the definition. */
  function AllRecipes(eco: Economy): (rs: seq<Recipe>)
    ensures forall x :: x in rs ==> x in eco.recipes
    ensures |rs| == |eco.recipes|
  {
    eco.recipes
  }

  /** `get_resource_name`: the `"name"` of a resource that has one, otherwise
      the identifier itself. Both tests are Python's `in`, and only an object
      can be indexed by the identifier or by `"name"`. */
  function GetResourceName(eco: Economy, id: string): (r: Result<Json>)
    ensures r.Err? ==> r.error.TypeError?
    ensures Contains(eco.resources, id) == Ok(false) ==> r == Ok(JStr(id))
    ensures eco.resources.JObject? && id in eco.resources.fields ==>
      var v := eco.resources.fields[id];
      && (v.JObject? && "name" in v.fields ==> r == Ok(v.fields["name"]))
      && (Contains(v, "name") == Ok(false) ==> r == Ok(JStr(id)))
      && (Contains(v, "name").Err? ==> r.Err?)
      && ((v.JList? || v.JStr?) && Contains(v, "name") == Ok(true) ==> r.Err?)
    ensures (eco.resources.JList? || eco.resources.JStr?) ==> (r.Err? <==> Contains(eco.resources, id) == Ok(true))
    ensures Contains(eco.resources, id).Err? ==> r.Err?
  {
    match Contains(eco.resources, id)
    case Err(e) => Err(e)
    case Ok(false) => Ok(JStr(id))
    case Ok(true) =>
      if !eco.resources.JObject? then Err(TypeError("indices must be integers"))
      else
        var v := eco.resources.fields[id];
        match Contains(v, "name")
        case Err(e) => Err(e)
        case Ok(false) => Ok(JStr(id))
        case Ok(true) => if v.JObject? then Ok(v.fields["name"]) else Err(TypeError("indices must be integers"))
  }

  // ---- Recipe descriptors ----------------------------------------------------

  predicate IsCardinalityChar(c: char) { IsDigit(c) || c == '/' || c == '.' }

  predicate AllCardinalityChars(s: string) { forall i :: 0 <= i < |s| ==> IsCardinalityChar(s[i]) }

  /** The name group `#?[-_a-zA-Z0-9]+`. */
  predicate IsNameGroup(t: string)
  {
    t != [] && if t[0] == '#' then |t| >= 2 && AllNameChars(t[1..]) else AllNameChars(t)
  }

  /** The cardinality group of a descriptor: its text and whether a percent
      sign followed it. */
  datatype Cardinality = Cardinality(text: string, percent: bool)

  /** The groups of a descriptor match: the cardinality, if any, and the name. */
  datatype DescriptorMatch = DescriptorMatch(cardinality: Option<Cardinality>, name: string)

  /** What the pattern makes of the text after a cardinality: blanks, an
      optional `%`, blanks and the name to the end. */
  function AfterCardinality(rest: string): (r: Option<(bool, string)>)
    ensures r.Some? ==> IsNameGroup(r.value.1)
  {
    var t := rest[LeadingWhitespace(rest)..];
    if t != [] && t[0] == '%' then
      var n := t[1..][LeadingWhitespace(t[1..])..];
      if IsNameGroup(n) then Some((true, n)) else None
    else if IsNameGroup(t) then Some((false, t))
    else None
  }

  /** `_RECIPE_DESCRIPTOR_RE.fullmatch`. The cardinality group `[\d/.]+` is
      greedy: it takes every leading digit, slash and dot when the rest then
      matches; otherwise it gives back its last character to the name, which
      is possible only when that character is a digit and the rest is made
      of name characters; otherwise the optional group is dropped and the
      whole text, after blanks, must be a name. */
  function MatchDescriptor(s: string): (m: Option<DescriptorMatch>)
    ensures m.Some? ==> IsNameGroup(m.value.name)
    ensures m.Some? && m.value.cardinality.Some? ==>
      m.value.cardinality.value.text != [] && AllCardinalityChars(m.value.cardinality.value.text)
  {
    var d := SpanLength(s, IsCardinalityChar);
    if d >= 1 && AfterCardinality(s[d..]).Some? then
      var (percent, name) := AfterCardinality(s[d..]).value;
      Some(DescriptorMatch(Some(Cardinality(s[..d], percent)), name))
    else if d >= 2 && IsNameGroup(s[d - 1..]) then
      Some(DescriptorMatch(Some(Cardinality(s[..d - 1], false)), s[d - 1..]))
    else
      var t := s[LeadingWhitespace(s)..];
      if IsNameGroup(t) then Some(DescriptorMatch(None, t)) else None
  }

  /** A descriptor written out: the cardinality, the percent sign, a blank,
      the name. */
  function DescriptorText(cardinality: string, percent: bool, name: string): string
  {
    cardinality + (if percent then "%" else "") + " " + name
  }

  /** The text after a written cardinality is matched back as written. */
  lemma AfterCardinalityOf(percent: bool, name: string)
    requires IsNameGroup(name)
    ensures AfterCardinality((if percent then "%" else "") + " " + name) == Some((percent, name))
  {
    var rest := (if percent then "%" else "") + " " + name;
    if percent {
      assert LeadingWhitespace(rest) == 0;
      assert rest[0..] == rest && rest[1..] == " " + name;
      assert LeadingWhitespace(" " + name) == 1;
      assert (" " + name)[1..] == name;
    } else {
      assert LeadingWhitespace(rest) == 1;
      assert rest[1..] == name;
    }
  }

  /** A written cardinality and name are matched back as they were written. */
  lemma DescriptorRoundTrip(cardinality: string, percent: bool, name: string)
    requires cardinality != [] && AllCardinalityChars(cardinality) && IsNameGroup(name)
    ensures MatchDescriptor(DescriptorText(cardinality, percent, name))
      == Some(DescriptorMatch(Some(Cardinality(cardinality, percent)), name))
  {
    var s := DescriptorText(cardinality, percent, name);
    var rest := (if percent then "%" else "") + " " + name;
    assert s == cardinality + rest;
    AfterCardinalityOf(percent, name);
    SpanOf(cardinality, rest);
    assert s[..|cardinality|] == cardinality && s[|cardinality|..] == rest;
  }

  lemma {:induction false} SpanOf(a: string, b: string)
    requires AllCardinalityChars(a) && b != [] && !IsCardinalityChar(b[0])
    ensures SpanLength(a + b, IsCardinalityChar) == |a|
  {
    if a == [] {
      assert a + b == b;
    } else {
      assert (a + b)[1..] == a[1..] + b;
      SpanOf(a[1..], b);
    }
  }

  /** A name that does not start with a cardinality character matches alone. */
  lemma DescriptorBareName(name: string)
    requires IsNameGroup(name) && !IsCardinalityChar(name[0])
    ensures MatchDescriptor(name) == Some(DescriptorMatch(None, name))
  {
    assert name[0..] == name;
  }

  /** Digits alone: the cardinality gives its last digit to the name. */
  lemma DescriptorDigitsOnly()
    ensures MatchDescriptor("123") == Some(DescriptorMatch(Some(Cardinality("12", false)), "3"))
  {
    var s := "123";
    assert SpanLength(s, IsCardinalityChar) == 3 by {
      assert s[1..] == "23" && s[1..][1..] == "3" && s[1..][1..][1..] == [];
    }
    assert s[3..] == [];
    assert s[2..] == "3" && s[..2] == "12";
  }

  /** The text Python's `float` reads (ASCII only): a decimal literal with an
      optional sign, fraction and exponent, which is what `Fraction` reads
      when there is no slash, or a signed `inf`, `infinity` or `nan` in any
      case. */
  predicate FloatText(c: string)
  {
    ('/' !in c && ParseFraction(c).Ok?) || Lower(Unsign(Strip(c)).1) in {"inf", "infinity", "nan"}
  }

  /** The number a cardinality's text stands for: an exact `Fraction` when
      it contains a slash, otherwise an `int` when it spells one. Other text
      goes to Python's `float`: text `float` rejects is a `ValueError`, and
      text it reads is reported as a float instead of being followed. */
  function CardinalityNumber(c: string): (r: Result<Number>)
    ensures '/' in c ==> (r.Ok? <==> ParseFraction(c).Ok?)
    ensures '/' in c && r.Ok? ==> r.value == FracNum(ParseFraction(c).value)
    ensures '/' !in c && ParseInt(c).Ok? ==> r == Ok(IntNum(ParseInt(c).value))
    ensures '/' !in c && ParseInt(c).Err? && FloatText(c) ==> r == Err(FloatValue(c))
    ensures '/' !in c && ParseInt(c).Err? && !FloatText(c) ==> r == Err(ValueError(c))
  {
    if '/' in c then
      match ParseFraction(c)
      case Err(e) => Err(e)
      case Ok(q) => Ok(FracNum(q))
    else
      match ParseInt(c)
      case Ok(i) => Ok(IntNum(i))
      case Err(_) => if FloatText(c) then Err(FloatValue(c)) else Err(ValueError(c))
  }

  /** Cardinality text is its own stripped, unsigned self. */
  lemma CardinalityUnsigned(c: string)
    requires c != [] && AllCardinalityChars(c)
    ensures Strip(c) == c && Unsign(c) == (false, c)
  {
    assert IsCardinalityChar(c[0]) && IsCardinalityChar(c[|c| - 1]);
    StripUnchanged(c);
  }

  /** Where the leading digits of cardinality text without a slash stop,
      there is a point, no later than any point. */
  lemma PointAfterDigits(c: string, i: nat)
    requires AllCardinalityChars(c) && '/' !in c && i < |c| && c[i] == '.'
    ensures DigitSpan(c) <= i && c[DigitSpan(c)] == '.'
  {
    DigitSpanSpec(c);
    var n := DigitSpan(c);
    forall k | 0 <= k < n ensures IsDigit(c[k]) {
      assert c[..n][k] == c[k];
    }
    assert !IsDigit(c[i]);
    assert IsCardinalityChar(c[n]) && c[n] != '/';
  }

  lemma TwoPointsNoInt(c: string, i: nat)
    requires AllCardinalityChars(c) && i < |c| && c[i] == '.'
    ensures ParseInt(c).Err?
  {
    CardinalityUnsigned(c);
    assert !AllDigits(c);
  }

  /** A decimal literal whose fraction digits stop at another point has no
      exponent to follow and is refused. */
  lemma SecondPointRefused(body: string)
    requires DigitSpan(body) < |body| && body[DigitSpan(body)] == '.'
    requires var frac := body[DigitSpan(body) + 1..]; DigitSpan(frac) < |frac| && frac[DigitSpan(frac)] == '.'
    ensures UnsignedFraction(body).Err?
  {
    var n := DigitSpan(body);
    var rest := body[n..];
    var frac := rest[1..];
    assert frac == body[n + 1..];
    var f := DigitSpan(frac);
    DigitSpanSpec(body);
    DigitSpanSpec(frac);
    assert ParseExponent(frac[f..]) == None;
    assert DecimalValue(body[..n], frac[..f], frac[f..]) == None;
  }

  lemma TwoPointsNoDecimal(c: string, i: nat, j: nat)
    requires AllCardinalityChars(c) && '/' !in c && i < j < |c| && c[i] == '.' && c[j] == '.'
    ensures ParseFraction(c).Err?
  {
    CardinalityUnsigned(c);
    PointAfterDigits(c, i);
    var n := DigitSpan(c);
    CardinalityTail(c, n);
    var fc := c[n + 1..];
    assert fc[j - n - 1] == c[j];
    PointAfterDigits(fc, j - n - 1);
    SecondPointRefused(c);
  }

  lemma CardinalityTail(c: string, n: nat)
    requires AllCardinalityChars(c) && '/' !in c && n < |c|
    ensures AllCardinalityChars(c[n + 1..]) && '/' !in c[n + 1..]
  {
    var fc := c[n + 1..];
    forall k | 0 <= k < |fc| ensures IsCardinalityChar(fc[k]) && fc[k] != '/' {
      assert fc[k] == c[n + 1 + k];
    }
  }

  lemma TwoPointsNoSpecial(c: string)
    requires c != [] && AllCardinalityChars(c)
    ensures Lower(Unsign(Strip(c)).1) !in {"inf", "infinity", "nan"}
  {
    CardinalityUnsigned(c);
    assert IsCardinalityChar(c[0]);
    assert Lower(c)[0] == LowerChar(c[0]) == c[0];
  }

  /** A cardinality with two decimal points and no slash: `int` and `float`
      both refuse the text. */
  lemma TwoPointsRefused(c: string, i: nat, j: nat)
    requires AllCardinalityChars(c) && '/' !in c && i < j < |c| && c[i] == '.' && c[j] == '.'
    ensures CardinalityNumber(c) == Err(ValueError(c))
  {
    TwoPointsNoInt(c, i);
    assert !FloatText(c) by {
      TwoPointsNoDecimal(c, i, j);
      TwoPointsNoSpecial(c);
    }
  }

  /** The text `"1.2.3"` is such a cardinality. */
  lemma OneTwoThreeRefused()
    ensures CardinalityNumber("1.2.3") == Err(ValueError("1.2.3"))
  {
    var c := "1.2.3";
    assert AllCardinalityChars(c) && c[1] == '.' && c[3] == '.';
    assert '/' !in c by {
      assert c[0] == '1' && c[1] == '.' && c[2] == '2' && c[3] == '.' && c[4] == '3';
    }
    TwoPointsRefused(c, 1, 3);
  }

  /** The scalar a descriptor's cardinality stands for: 1 when there is none.
      A percent sign divides by 100; for an `int` that is Python's true
      division into a float, which the model reports instead of following. */
  function DescriptorScalar(cardinality: Option<Cardinality>): (r: Result<Number>)
    ensures cardinality.None? ==> r == Ok(IntNum(1))
    ensures cardinality.Some? && !cardinality.value.percent ==> r == CardinalityNumber(cardinality.value.text)
    ensures cardinality.Some? && cardinality.value.percent && CardinalityNumber(cardinality.value.text).Ok? ==>
      var x := CardinalityNumber(cardinality.value.text).value;
      if x.IntNum? then r.Err? && r.error.FloatValue? else r == Ok(FracNum(x.q / 100.0))
  {
    match cardinality
    case None => Ok(IntNum(1))
    case Some(Cardinality(c, percent)) => Percent(CardinalityNumber(c), percent)
  }

  /** A percent sign after a scalar divides it by 100. */
  function Percent(scalar: Result<Number>, percent: bool): (r: Result<Number>)
    ensures !percent ==> r == scalar
    ensures percent && scalar.Ok? ==>
      if scalar.value.IntNum? then r.Err? && r.error.FloatValue? else r == Ok(FracNum(scalar.value.q / 100.0))
  {
    if scalar.Err? || !percent then scalar
    else match scalar.value
      case IntNum(_) => Err(FloatValue("int / 100"))
      case FracNum(q) => Ok(FracNum(q / 100.0))
  }

  /** The recipe a descriptor's name selects, as written: `"#n"` indexes the
      recipe list at `n - 1`, so `"#0"` and negative numbers count from the
      end as Python indices do; any other name is looked up. */
  function SelectAsWritten(eco: Economy, name: string): (r: Result<Recipe>)
    requires IsNameGroup(name)
    ensures name[0] != '#' ==> (r.Ok? <==> name in eco.recipesByName)
    ensures name[0] != '#' && r.Ok? ==> r.value == eco.recipesByName[name]
  {
    if name[0] == '#' then
      match ParseInt(name[1..])
      case Err(e) => Err(e)
      case Ok(n) =>
        match PyIndex(|eco.recipes|, n - 1)
        case None => Err(IndexError)
        case Some(i) => Ok(eco.recipes[i])
    else if name in eco.recipesByName then Ok(eco.recipesByName[name])
    else Err(KeyError(name))
  }

  /** `"#0"` selects the last recipe. */
  lemma HashZeroSelectsLast(eco: Economy)
    requires |eco.recipes| >= 1
    ensures SelectAsWritten(eco, "#0") == Ok(eco.recipes[|eco.recipes| - 1])
  {
    var name := "#0";
    assert name[0] == '#' && name[1..] == NatDigits(0);
    assert IsNameGroup(name) by {
      assert AllNameChars(name[1..]) by { DigitsAreNameChars(name[1..]); }
    }
    assert ParseInt(name[1..]) == Ok(0) by { IntTextRoundTrip(0); }
    SelectNumber(eco, name, 0);
  }

  lemma DigitsAreNameChars(s: string)
    requires AllDigits(s)
    ensures AllNameChars(s)
  {
  }

  /** `"#n"` with `n` read as an integer selects Python index `n - 1`. */
  lemma SelectNumber(eco: Economy, name: string, n: int)
    requires IsNameGroup(name) && name[0] == '#' && ParseInt(name[1..]) == Ok(n)
    ensures SelectAsWritten(eco, name) == match PyIndex(|eco.recipes|, n - 1)
      case None => Err(IndexError)
      case Some(i) => Ok(eco.recipes[i])
  {
  }

  /** The recipe a descriptor's name selects, 1-based: `"#n"` selects the
      `n`-th recipe, and a number outside 1 to the number of recipes is an
      `IndexError`. */
  function Select(eco: Economy, name: string): (r: Result<Recipe>)
    requires IsNameGroup(name)
    ensures name[0] != '#' ==> r == SelectAsWritten(eco, name)
    ensures name[0] == '#' && ParseInt(name[1..]).Ok? ==>
      var n := ParseInt(name[1..]).value;
      (r.Ok? <==> 1 <= n <= |eco.recipes|) && (r.Ok? ==> r.value == eco.recipes[n - 1])
    ensures name[0] == '#' && ParseInt(name[1..]).Ok? && 1 <= ParseInt(name[1..]).value ==> r == SelectAsWritten(eco, name)
  {
    if name[0] == '#' then
      match ParseInt(name[1..])
      case Err(e) => Err(e)
      case Ok(n) => if 1 <= n <= |eco.recipes| then Ok(eco.recipes[n - 1]) else Err(IndexError)
    else SelectAsWritten(eco, name)
  }

  /** `get_recipe_by_descriptor` as written: it ends in `recipe.scale_by`,
      which `Recipe` does not define, so every descriptor that gets that far
      raises `AttributeError`. */
  function GetRecipeByDescriptorAsWritten(eco: Economy, descriptor: string): (r: Result<Recipe>)
    ensures MatchDescriptor(descriptor).None? ==> r.Err? && r.error.ParseError?
  {
    match MatchDescriptor(descriptor)
    case None => Err(ParseError("Not a valid recipe descriptor"))
    case Some(m) =>
      match DescriptorScalar(m.cardinality)
      case Err(e) => Err(e)
      case Ok(_) =>
        match SelectAsWritten(eco, m.name)
        case Err(e) => Err(e)
        case Ok(_) => Err(AttributeError("scale_by"))
  }

  /** No descriptor yields a recipe as written. */
  lemma ScaleByAlwaysFails(eco: Economy, descriptor: string)
    ensures GetRecipeByDescriptorAsWritten(eco, descriptor).Err?
    ensures (MatchDescriptor(descriptor).Some? && DescriptorScalar(MatchDescriptor(descriptor).value.cardinality).Ok?
      && SelectAsWritten(eco, MatchDescriptor(descriptor).value.name).Ok?) ==>
      GetRecipeByDescriptorAsWritten(eco, descriptor) == Err(AttributeError("scale_by"))
  {
  }

  /** `get_recipe_by_descriptor`: the selected recipe multiplied by the
      descriptor's scalar. */
  function GetRecipeByDescriptor(eco: Economy, descriptor: string): (r: Result<Recipe>)
    ensures MatchDescriptor(descriptor).None? ==> r.Err? && r.error.ParseError?
    ensures r.Ok? ==> var m := MatchDescriptor(descriptor).value;
      && Select(eco, m.name).Ok? && DescriptorScalar(m.cardinality).Ok?
      && r.value == Mul(Select(eco, m.name).value, DescriptorScalar(m.cardinality).value.Value())
  {
    match MatchDescriptor(descriptor)
    case None => Err(ParseError("Not a valid recipe descriptor"))
    case Some(m) =>
      match DescriptorScalar(m.cardinality)
      case Err(e) => Err(e)
      case Ok(scalar) =>
        match Select(eco, m.name)
        case Err(e) => Err(e)
        case Ok(recipe) => Ok(Mul(recipe, scalar.Value()))
  }

  /** A bare name selects the recipe of that name, applied once. */
  lemma DescriptorByName(eco: Economy, name: string)
    requires IsNameGroup(name) && !IsCardinalityChar(name[0]) && name[0] != '#' && name in eco.recipesByName
    ensures GetRecipeByDescriptor(eco, name) == Ok(eco.recipesByName[name])
  {
    DescriptorBareName(name);
    MulCompose(eco.recipesByName[name], 1.0, 1.0);
  }
}
