/** `legacy/RecipePath.py`: a chain of recipes, each scaled by a cardinality,
    whose net effect is split into what the chain consumes and what it yields;
    longer chains come from substituting producers for the consumed items. */
module LegacyRecipePath {

  import opened Common
  import opened LegacyItems
  import opened LegacyRecipe
  import opened Seqs

  /** `_PathStep`: a recipe run `cardinality` times. */
  datatype Step = Step(cardinality: real, recipe: Recipe)

  /** What every step's recipe satisfies. */
  predicate ValidSteps(path: seq<Step>)
  {
    forall i :: 0 <= i < |path| ==> path[i].recipe.Valid()
  }

  /** What a step contributes to the net: its cardinality and its recipe's
      two sides. */
  type Part = (real, Entries, Entries)

  function Parts(path: seq<Step>): (ps: seq<Part>)
    ensures |ps| == |path|
  {
    seq(|path|, i requires 0 <= i < |path| => (path[i].cardinality, path[i].recipe.src, path[i].recipe.dest))
  }

  /** What `Items` objects guarantee for both sides of every step. */
  predicate SidesWellFormed(ps: seq<Part>)
  {
    forall i :: 0 <= i < |ps| ==> WellFormed(ps[i].1) && WellFormed(ps[i].2)
  }

  lemma ValidParts(path: seq<Step>)
    requires ValidSteps(path)
    ensures SidesWellFormed(Parts(path))
  {
    forall i | 0 <= i < |path|
      ensures WellFormed(Parts(path)[i].1) && WellFormed(Parts(path)[i].2)
    {
      assert path[i].recipe.Valid();
    }
  }

  // ---------------------------------------------------------------------
  // `_calc_src_dest`

  /** `-cardinality`: the scale of a step's sources. */
  function Negated(c: real): real
  {
    -c
  }

  /** The net items of the steps: each subtracts its recipe's sources and
      adds its destinations, scaled by its cardinality, step after step. */
  function Net(ps: seq<Part>): Entries
  {
    if ps == [] then []
    else
      var p := ps[|ps| - 1];
      AddAllTo(AddAllTo(Net(ps[..|ps| - 1]), Negated(p.0), p.1), p.0, p.2)
  }

  /** The net count of `y` computed independently: the sum over the steps of
      cardinality times (produced minus consumed). */
  function Total(ps: seq<Part>, y: Item): real
  {
    if ps == [] then 0.0
    else
      var p := ps[|ps| - 1];
      Total(ps[..|ps| - 1], y) + Times(Negated(p.0), Count(p.1, y)) + Times(p.0, Count(p.2, y))
  }

  function NetOf(path: seq<Step>): Entries
  {
    Net(Parts(path))
  }

  /** The consumed and the produced side of a path. */
  function Src(path: seq<Step>): Entries
  {
    Side(NetOf(path), true)
  }

  function Dest(path: seq<Step>): Entries
  {
    Side(NetOf(path), false)
  }

  /** The net holds no zero and no repeated item, and each item's count is
      the sum over the steps of cardinality × (dest − src). */
  lemma {:induction false} NetCount(ps: seq<Part>, y: Item)
    requires SidesWellFormed(ps)
    ensures WellFormed(Net(ps))
    ensures Count(Net(ps), y) == Total(ps, y)
  {
    if ps != [] {
      var init := ps[..|ps| - 1];
      var p := ps[|ps| - 1];
      NetCount(init, y);
      StepCount(Net(init), p.0, p.1, p.2, y);
    }
  }

  /** Subtracting `c` times `src` and then adding `c` times `dest` keeps a
      net well-formed and changes the count of `y` accordingly. */
  lemma StepCount(es: Entries, c: real, src: Entries, dest: Entries, y: Item)
    requires WellFormed(es) && WellFormed(src) && WellFormed(dest)
    ensures WellFormed(AddAllTo(AddAllTo(es, Negated(c), src), c, dest))
    ensures Count(AddAllTo(AddAllTo(es, Negated(c), src), c, dest), y) == Count(es, y) + Times(Negated(c), Count(src, y)) + Times(c, Count(dest, y))
  {
    AddAllCount(es, Negated(c), src, y);
    AddAllCount(AddAllTo(es, Negated(c), src), c, dest, y);
  }

  /** The two sides of a path: well-formed, positive, never both holding an
      item, and their difference is the net count. */
  lemma PathSides(path: seq<Step>, y: Item)
    requires ValidSteps(path)
    ensures WellFormed(Src(path)) && WellFormed(Dest(path))
    ensures forall i :: 0 <= i < |Src(path)| ==> Src(path)[i].1 > 0.0
    ensures forall i :: 0 <= i < |Dest(path)| ==> Dest(path)[i].1 > 0.0
    ensures Count(Src(path), y) == 0.0 || Count(Dest(path), y) == 0.0
    ensures Count(Src(path), y) == Share(Total(Parts(path), y), true)
    ensures Count(Dest(path), y) == Share(Total(Parts(path), y), false)
    ensures Count(Dest(path), y) - Count(Src(path), y) == Total(Parts(path), y)
  {
    ValidParts(path);
    NetCount(Parts(path), y);
    SrcDestSplit(NetOf(path), y);
    SideSpec(NetOf(path), true, y);
    SideSpec(NetOf(path), false, y);
  }

  lemma PartsAppend(a: seq<Step>, b: seq<Step>)
    ensures Parts(a + b) == Parts(a) + Parts(b)
  {
  }

  /** A step in front of a path adds its own contribution to the total. */
  lemma PrependTotal(p: Part, ps: seq<Part>, y: Item)
    ensures Total([p] + ps, y) == Times(Negated(p.0), Count(p.1, y)) + Times(p.0, Count(p.2, y)) + Total(ps, y)
  {
    TotalAppend([p], ps, y);
    assert [p][..0] == [];
  }

  /** The net total of two step lists one after the other adds up. */
  lemma {:induction false} TotalAppend(a: seq<Part>, b: seq<Part>, y: Item)
    ensures Total(a + b, y) == Total(a, y) + Total(b, y)
    decreases |b|
  {
    if b != [] {
      var init := b[..|b| - 1];
      assert (a + b)[..|a + b| - 1] == a + init && (a + b)[|a + b| - 1] == b[|b| - 1];
      TotalAppend(a, init, y);
    } else {
      assert a + b == a;
    }
  }

  /** `_calc_src_dest`: adds every step's scaled recipe into one fresh
      `Items`, then splits it into two fresh frozen objects. */
  method CalcSrcDest(path: seq<Step>) returns (src: Items, dest: Items)
    ensures fresh(src) && fresh(dest) && src != dest
    ensures src.frozen && dest.frozen && src.Valid() && dest.Valid()
    ensures src.entries == Src(path) && dest.entries == Dest(path)
  {
    var items := new Items();
    ghost var ps := Parts(path);
    for i := 0 to |path|
      invariant fresh(items) && !items.frozen && items.Valid()
      invariant items.entries == Net(ps[..i])
    {
      var step := path[i];
      ghost var start := items.entries;
      for j := 0 to |step.recipe.src|
        invariant fresh(items) && !items.frozen && items.Valid()
        invariant AddAllTo(items.entries, Negated(step.cardinality), step.recipe.src[j..]) == AddAllTo(start, Negated(step.cardinality), step.recipe.src)
      {
        var item, itemCardinality := step.recipe.src[j].0, step.recipe.src[j].1;
        var _ := items.Add(Times(Negated(step.cardinality), itemCardinality), item);
        assert step.recipe.src[j..][1..] == step.recipe.src[j + 1..];
      }
      ghost var mid := items.entries;
      for j := 0 to |step.recipe.dest|
        invariant fresh(items) && !items.frozen && items.Valid()
        invariant AddAllTo(items.entries, step.cardinality, step.recipe.dest[j..]) == AddAllTo(mid, step.cardinality, step.recipe.dest)
      {
        var item, itemCardinality := step.recipe.dest[j].0, step.recipe.dest[j].1;
        var _ := items.Add(Times(step.cardinality, itemCardinality), item);
        assert step.recipe.dest[j..][1..] == step.recipe.dest[j + 1..];
      }
      assert ps[..i + 1][..i] == ps[..i] && ps[i] == (step.cardinality, step.recipe.src, step.recipe.dest);
    }
    assert ps[..|path|] == ps;
    src, dest := items.SrcDest();
  }

  // ---------------------------------------------------------------------
  // `apply_substitution_recipes`

  /** `recipe_produces`: how much of its one destination item a recipe
      yields; never zero, since a side holds no zero count. */
  function Produces(r: Recipe): (n: real)
    requires r.Valid()
    ensures n == r.dest[0].1 && n != 0.0
  {
    Count(r.dest, r.DestItem())
  }

  /** The step put in front for one substitution recipe: the recipe scaled
      to `Fraction(path_requires, recipe_produces)`, where `path_requires`
      is what `src` (the source side of the path being substituted) holds of
      the recipe's destination item. */
  function StepFor(src: Entries, r: Recipe): Step
    requires r.Valid()
  {
    Step(Count(src, r.DestItem()) / Produces(r), r)
  }

  /** Every chosen recipe is a constructed one. */
  predicate ValidChoices(recipes: seq<Option<Recipe>>)
  {
    forall i :: 0 <= i < |recipes| && recipes[i].Some? ==> recipes[i].value.Valid()
  }

  predicate NoneChosen(recipes: seq<Option<Recipe>>)
  {
    forall i :: 0 <= i < |recipes| ==> recipes[i].None?
  }

  predicate AllChosen(recipes: seq<Option<Recipe>>)
  {
    forall i :: 0 <= i < |recipes| ==> recipes[i].Some?
  }

  /** The steps of `apply_substitution_recipes(recipes)` on a path with
      steps `path` and source side `src`: each recipe in turn is put in
      front; a `None` among the recipes raises `AttributeError` on `.dest`. */
  function Applied(src: Entries, path: seq<Step>, recipes: seq<Option<Recipe>>): Result<seq<Step>>
    requires ValidChoices(recipes)
  {
    if recipes == [] then Ok(path)
    else
      var prev := Applied(src, path, recipes[..|recipes| - 1]);
      var r := recipes[|recipes| - 1];
      if prev.Err? then prev
      else if r.None? then Err(AttributeError("dest"))
      else Ok([StepFor(src, r.value)] + prev.value)
  }

  /** Applying succeeds exactly when no recipe is `None`; then the original
      steps stay at the end, unchanged, and in front of them stands one step
      per recipe, the last recipe first. Each new step is scaled against the
      original path's sources. */
  lemma {:induction false} AppliedShape(src: Entries, path: seq<Step>, recipes: seq<Option<Recipe>>)
    requires ValidChoices(recipes)
    ensures Applied(src, path, recipes).Ok? <==> AllChosen(recipes)
    ensures Applied(src, path, recipes).Err? ==> Applied(src, path, recipes).error == AttributeError("dest")
    ensures Applied(src, path, recipes).Ok? ==>
      var v := Applied(src, path, recipes).value;
      |v| == |recipes| + |path| && v[|recipes|..] == path &&
      forall k :: 0 <= k < |recipes| ==> v[|recipes| - 1 - k] == StepFor(src, recipes[k].value)
  {
    if recipes != [] {
      var init := recipes[..|recipes| - 1];
      AppliedShape(src, path, init);
      assert forall k :: 0 <= k < |init| ==> init[k] == recipes[k];
      var r := Applied(src, path, recipes);
      if r.Ok? {
        var v := r.value;
        var u := Applied(src, path, init).value;
        assert v == [StepFor(src, recipes[|recipes| - 1].value)] + u;
        assert v[|recipes|..] == u[|init|..];
        forall k | 0 <= k < |recipes|
          ensures v[|recipes| - 1 - k] == StepFor(src, recipes[k].value)
        {
          if k < |init| {
            assert v[|recipes| - 1 - k] == u[|init| - 1 - k];
          }
        }
      }
    }
  }

  /** Each new step yields exactly what the original path required of the
      recipe's item. */
  lemma ScaledToRequirement(src: Entries, r: Recipe)
    requires r.Valid()
    ensures Times(StepFor(src, r).cardinality, Produces(r)) == Count(src, r.DestItem())
  {
  }

  /** Substituting a producer whose own sources do not include its product:
      the new path no longer consumes that item, and yields of it what the
      old path yielded. */
  lemma SubstitutionBalances(path: seq<Step>, r: Recipe)
    requires ValidSteps(path) && r.Valid() && Count(r.src, r.DestItem()) == 0.0
    ensures Count(Src([StepFor(Src(path), r)] + path), r.DestItem()) == 0.0
    ensures Count(Dest([StepFor(Src(path), r)] + path), r.DestItem()) == Count(Dest(path), r.DestItem())
  {
    var x := r.DestItem();
    var step := StepFor(Src(path), r);
    var longer := [step] + path;
    assert ValidSteps(longer) by {
      assert forall i :: 0 < i < |longer| ==> longer[i] == path[i - 1];
    }
    PathSides(path, x);
    PathSides(longer, x);
    PartsAppend([step], path);
    assert Parts([step]) == [(step.cardinality, r.src, r.dest)];
    ScaledToRequirement(Src(path), r);
    PrependBalance((step.cardinality, r.src, r.dest), Parts(path), x, Count(Src(path), x));
  }

  lemma PrependBalance(p: Part, ps: seq<Part>, y: Item, required: real)
    requires Count(p.1, y) == 0.0 && Times(p.0, Count(p.2, y)) == required
    ensures Total([p] + ps, y) == required + Total(ps, y)
  {
    PrependTotal(p, ps, y);
  }

  // ---------------------------------------------------------------------
  // `substitutions`

  /** The recipe database's producer index: recipes by the key of the item
      they produce, in insertion order. */
  type Index = map<string, seq<Recipe>>

  /** `recipe_db.recipes_that_produce(item)`: the recipes indexed under the
      item, or none. */
  function ProducersOf(index: Index, x: Item): seq<Recipe>
  {
    if Key(x) in index then index[Key(x)] else []
  }

  /** Every indexed recipe is a constructed one. */
  predicate ValidIndex(index: Index)
  {
    forall k, i :: k in index && 0 <= i < |index[k]| ==> index[k][i].Valid()
  }

  function Options(rs: seq<Recipe>): (os: seq<Option<Recipe>>)
    ensures |os| == |rs| && forall k :: 0 <= k < |rs| ==> os[k] == Some(rs[k])
  {
    seq(|rs|, k requires 0 <= k < |rs| => Some(rs[k]))
  }

  /** `possible_substitution_recipes`: for each item of the source side, in
      order, that has producers, its producers followed by `None`. */
  function Choices(src: Entries, index: Index): seq<seq<Option<Recipe>>>
  {
    if src == [] then []
    else
      var ps := ProducersOf(index, src[|src| - 1].0);
      Choices(src[..|src| - 1], index) + (if |ps| > 0 then [Options(ps) + [None]] else [])
  }

  predicate ChoiceList(l: seq<Option<Recipe>>)
  {
    |l| >= 2 && l[0].Some? && l[|l| - 1] == None && ValidChoices(l)
  }

  /** Each list of choices starts with a producer, ends with `None`, and
      holds only constructed recipes. */
  lemma {:induction false} ChoicesShape(src: Entries, index: Index)
    requires ValidIndex(index)
    ensures forall j :: 0 <= j < |Choices(src, index)| ==> ChoiceList(Choices(src, index)[j])
  {
    if src != [] {
      var init := src[..|src| - 1];
      ChoicesShape(init, index);
      var x := src[|src| - 1].0;
      var ps := ProducersOf(index, x);
      if |ps| > 0 {
        assert Key(x) in index && ps == index[Key(x)];
        var l := Options(ps) + [None];
        forall k | 0 <= k < |l| && l[k].Some?
          ensures l[k].value.Valid()
        {
          assert l[k] == Some(ps[k]);
        }
        assert Choices(src, index) == Choices(init, index) + [l];
      } else {
        assert Choices(src, index) == Choices(init, index);
      }
    }
  }

  /** Two items of the source side with producers give two lists of
      choices. */
  lemma ChoicesOfTwo(src: Entries, index: Index, i: nat, j: nat)
    requires i < j < |src|
    requires |ProducersOf(index, src[i].0)| > 0 && |ProducersOf(index, src[j].0)| > 0
    ensures |Choices(src, index)| >= 2
  {
    ChoicesOfOne(src, index, i, j);
    ChoicesAfter(src, index, j);
  }

  /** A further item with producers after a list of choices makes two. */
  lemma ChoicesAfter(src: Entries, index: Index, j: nat)
    requires j < |src| && |Choices(src[..j], index)| >= 1 && |ProducersOf(index, src[j].0)| > 0
    ensures |Choices(src, index)| >= 2
  {
    ChoicesLast(src, index, j);
    ChoicesMonotone(src, index, j + 1);
  }

  lemma ChoicesOfOne(src: Entries, index: Index, i: nat, n: nat)
    requires i < n <= |src| && |ProducersOf(index, src[i].0)| > 0
    ensures |Choices(src[..n], index)| >= 1
  {
    ChoicesLast(src, index, i);
    ChoicesMonotone(src[..n], index, i + 1);
    assert src[..n][..i + 1] == src[..i + 1];
  }

  lemma ChoicesLast(src: Entries, index: Index, i: nat)
    requires i < |src|
    ensures |Choices(src[..i + 1], index)| == |Choices(src[..i], index)| + (if |ProducersOf(index, src[i].0)| > 0 then 1 else 0)
  {
    assert src[..i + 1][..i] == src[..i];
    assert src[..i + 1][i] == src[i];
  }

  lemma {:induction false} ChoicesMonotone(src: Entries, index: Index, n: nat)
    requires n <= |src|
    ensures |Choices(src[..n], index)| <= |Choices(src, index)|
    decreases |src| - n
  {
    if n < |src| {
      ChoicesMonotone(src, index, n + 1);
      ChoicesLast(src, index, n);
    } else {
      assert src[..n] == src;
    }
  }

  predicate ValidCombos(combos: seq<seq<Option<Recipe>>>)
  {
    forall j :: 0 <= j < |combos| ==> ValidChoices(combos[j])
  }

  /** Every combination `itertools.product` forms picks one of each list's
      choices, so only constructed recipes. */
  lemma CombosValid(src: Entries, index: Index)
    requires ValidIndex(index)
    ensures ValidCombos(Product(Choices(src, index)))
  {
    var cs := Choices(src, index);
    ChoicesShape(src, index);
    forall j | 0 <= j < |Product(cs)|
      ensures ValidChoices(Product(cs)[j])
    {
      var c := Product(cs)[j];
      ProductMembers(cs, c);
      forall i | 0 <= i < |c| && c[i].Some?
        ensures c[i].value.Valid()
      {
        assert c[i] in cs[i] && ChoiceList(cs[i]);
        var k :| 0 <= k < |cs[i]| && cs[i][k] == c[i];
      }
    }
  }

  /** What `substitutions` yields before it stops, and the exception that
      stops it, if any. */
  datatype Yield = Yield(paths: seq<seq<Step>>, error: Option<Error>)

  /** The loop of `substitutions` as written: each combination except the
      all-`None` one is passed whole, `None`s included, to
      `apply_substitution_recipes`; the first exception ends the generator. */
  function ApplyEach(src: Entries, path: seq<Step>, combos: seq<seq<Option<Recipe>>>): Yield
    requires ValidCombos(combos)
  {
    if combos == [] then Yield([], None)
    else
      var prev := ApplyEach(src, path, combos[..|combos| - 1]);
      var c := combos[|combos| - 1];
      if prev.error.Some? || NoneChosen(c) then prev
      else match Applied(src, path, c)
        case Err(e) => Yield(prev.paths, Some(e))
        case Ok(p) => Yield(prev.paths + [p], None)
  }

  /** `substitutions` as written: the path itself, then what the loop
      yields. */
  function SubstitutionsAsWritten(path: seq<Step>, index: Index): Yield
    requires ValidIndex(index)
  {
    CombosValid(Src(path), index);
    var rest := ApplyEach(Src(path), path, Product(Choices(Src(path), index)));
    Yield([path] + rest.paths, rest.error)
  }

  /** The loop stops only on a combination that mixes producers and `None`,
      and then with `AttributeError`. */
  lemma {:induction false} ApplyEachError(src: Entries, path: seq<Step>, combos: seq<seq<Option<Recipe>>>)
    requires ValidCombos(combos)
    ensures ApplyEach(src, path, combos).error.Some? ==> ApplyEach(src, path, combos).error == Some(AttributeError("dest"))
    ensures ApplyEach(src, path, combos).error.None? ==>
      forall j :: 0 <= j < |combos| ==> NoneChosen(combos[j]) || AllChosen(combos[j])
  {
    if combos != [] {
      var init := combos[..|combos| - 1];
      ApplyEachError(src, path, init);
      AppliedShape(src, path, combos[|combos| - 1]);
      assert forall j :: 0 <= j < |init| ==> init[j] == combos[j];
    }
  }

  /** The defect of `substitutions`: once two items of the source side have
      producers, some combination picks a producer for one and `None` for
      the other, and applying it raises `AttributeError`. */
  lemma AsWrittenFails(path: seq<Step>, index: Index)
    requires ValidIndex(index) && |Choices(Src(path), index)| >= 2
    ensures SubstitutionsAsWritten(path, index).error == Some(AttributeError("dest"))
  {
    var cs := Choices(Src(path), index);
    ChoicesShape(Src(path), index);
    var c := [cs[0][0]] + seq(|cs| - 1, k => None);
    assert c[0] in cs[0];
    assert ChoiceList(cs[0]);
    forall i | 1 <= i < |c|
      ensures c[i] in cs[i]
    {
      assert ChoiceList(cs[i]);
      assert cs[i][|cs[i]| - 1] == None;
    }
    ProductMembers(cs, c);
    var combos := Product(cs);
    var j :| 0 <= j < |combos| && combos[j] == c;
    assert !NoneChosen(c) && !AllChosen(c) by {
      assert c[0].Some? && c[1].None?;
    }
    CombosValid(Src(path), index);
    ApplyEachError(Src(path), path, combos);
  }

  /** The recipes a combination chooses, `None`s left out. */
  function Chosen(c: seq<Option<Recipe>>): (r: seq<Option<Recipe>>)
    ensures AllChosen(r) && |r| <= |c|
    ensures ValidChoices(c) ==> ValidChoices(r)
    ensures NoneChosen(c) <==> r == []
    ensures AllChosen(c) ==> r == c
  {
    if c == [] then []
    else
      var rest := Chosen(c[1..]);
      assert forall i :: 1 <= i < |c| ==> c[i] == c[1..][i - 1];
      if c[0].Some? then [c[0]] + rest else rest
  }

  /** The corrected application of one combination: only the chosen
      recipes are put in front of the path. */
  function Substitute(src: Entries, path: seq<Step>, c: seq<Option<Recipe>>): (r: seq<Step>)
    requires ValidChoices(c)
    ensures |r| == |Chosen(c)| + |path| && r[|Chosen(c)|..] == path
  {
    AppliedShape(src, path, Chosen(c));
    Applied(src, path, Chosen(c)).value
  }

  /** The corrected loop: one path per combination that chooses at least
      one producer, in `itertools.product` order. */
  function Substituted(src: Entries, path: seq<Step>, combos: seq<seq<Option<Recipe>>>): seq<seq<Step>>
    requires ValidCombos(combos)
  {
    if combos == [] then []
    else
      var prev := Substituted(src, path, combos[..|combos| - 1]);
      var c := combos[|combos| - 1];
      if NoneChosen(c) then prev else prev + [Substitute(src, path, c)]
  }

  /** The corrected `substitutions`: the path itself, then the paths of the
      corrected loop. */
  function SubstitutedPaths(path: seq<Step>, index: Index): seq<seq<Step>>
    requires ValidIndex(index)
  {
    CombosValid(Src(path), index);
    [path] + Substituted(Src(path), path, Product(Choices(Src(path), index)))
  }

  /** Where every combination chooses all or nothing, the code as written
      and the corrected one agree. */
  lemma {:induction false} ApplyEachAgrees(src: Entries, path: seq<Step>, combos: seq<seq<Option<Recipe>>>)
    requires ValidCombos(combos)
    requires forall j :: 0 <= j < |combos| ==> NoneChosen(combos[j]) || AllChosen(combos[j])
    ensures ApplyEach(src, path, combos) == Yield(Substituted(src, path, combos), None)
  {
    if combos != [] {
      var init := combos[..|combos| - 1];
      assert forall j :: 0 <= j < |init| ==> init[j] == combos[j];
      ApplyEachAgrees(src, path, init);
      AppliedShape(src, path, combos[|combos| - 1]);
    }
  }

  /** With at most one item of the source side having producers, the code
      as written yields exactly the corrected paths and raises nothing. */
  lemma AsWrittenWithOneChoice(path: seq<Step>, index: Index)
    requires ValidIndex(index) && |Choices(Src(path), index)| <= 1
    ensures SubstitutionsAsWritten(path, index) == Yield(SubstitutedPaths(path, index), None)
  {
    var cs := Choices(Src(path), index);
    var combos := Product(cs);
    forall j | 0 <= j < |combos|
      ensures NoneChosen(combos[j]) || AllChosen(combos[j])
    {
      ProductMembers(cs, combos[j]);
    }
    CombosValid(Src(path), index);
    ApplyEachAgrees(Src(path), path, combos);
  }

  /** The last combination's contribution to the corrected loop. */
  lemma SubstitutedLast(src: Entries, path: seq<Step>, combos: seq<seq<Option<Recipe>>>)
    requires ValidCombos(combos) && combos != []
    ensures ValidCombos(combos[..|combos| - 1])
    ensures var prev := Substituted(src, path, combos[..|combos| - 1]);
      var c := combos[|combos| - 1];
      Substituted(src, path, combos) == if NoneChosen(c) then prev else prev + [Substitute(src, path, c)]
  {
  }

  /** Every path the corrected loop yields comes from a combination that
      chooses at least one producer. */
  lemma {:induction false} SubstitutedSound(src: Entries, path: seq<Step>, combos: seq<seq<Option<Recipe>>>, q: seq<Step>)
    requires ValidCombos(combos) && q in Substituted(src, path, combos)
    ensures exists j :: 0 <= j < |combos| && !NoneChosen(combos[j]) && q == Substitute(src, path, combos[j])
  {
    var n := |combos| - 1;
    var init := combos[..n];
    SubstitutedLast(src, path, combos);
    if q in Substituted(src, path, init) {
      SubstitutedSound(src, path, init, q);
      var j :| 0 <= j < |init| && !NoneChosen(init[j]) && q == Substitute(src, path, init[j]);
      assert init[j] == combos[j];
    } else {
      assert !NoneChosen(combos[n]) && q == Substitute(src, path, combos[n]);
    }
  }

  /** Every combination that chooses a producer yields its path. */
  lemma {:induction false} SubstitutedComplete(src: Entries, path: seq<Step>, combos: seq<seq<Option<Recipe>>>, j: nat)
    requires ValidCombos(combos) && j < |combos| && !NoneChosen(combos[j])
    ensures Substitute(src, path, combos[j]) in Substituted(src, path, combos)
  {
    var n := |combos| - 1;
    var init := combos[..n];
    SubstitutedLast(src, path, combos);
    if j < n {
      assert init[j] == combos[j];
      SubstitutedComplete(src, path, init, j);
    }
  }

  /** The corrected loop yields a path exactly for the combinations that
      choose at least one producer. */
  lemma SubstitutedMembers(src: Entries, path: seq<Step>, combos: seq<seq<Option<Recipe>>>, q: seq<Step>)
    requires ValidCombos(combos)
    ensures q in Substituted(src, path, combos) <==>
      exists j :: 0 <= j < |combos| && !NoneChosen(combos[j]) && q == Substitute(src, path, combos[j])
  {
    if q in Substituted(src, path, combos) {
      SubstitutedSound(src, path, combos, q);
    }
    if exists j :: 0 <= j < |combos| && !NoneChosen(combos[j]) && q == Substitute(src, path, combos[j]) {
      var j :| 0 <= j < |combos| && !NoneChosen(combos[j]) && q == Substitute(src, path, combos[j]);
      SubstitutedComplete(src, path, combos, j);
    }
  }

  /** `substitutions` (corrected) yields the path itself first, and then
      exactly the paths of the combinations that pick one choice per
      producible source item and at least one producer. */
  lemma SubstitutionsSpec(path: seq<Step>, index: Index, q: seq<Step>)
    requires ValidIndex(index)
    ensures SubstitutedPaths(path, index)[0] == path
    ensures q in SubstitutedPaths(path, index)[1..] <==>
      exists c :: c in Product(Choices(Src(path), index)) && ValidChoices(c) && !NoneChosen(c) && q == Substitute(Src(path), path, c)
  {
    var cs := Choices(Src(path), index);
    CombosValid(Src(path), index);
    SubstitutedMembers(Src(path), path, Product(cs), q);
    assert SubstitutedPaths(path, index)[1..] == Substituted(Src(path), path, Product(cs));
  }

  /** Every path object of the sequence is valid. */
  ghost predicate PathsValid(paths: seq<RecipePath>)
    reads (set k | 0 <= k < |paths| :: paths[k].src), (set k | 0 <= k < |paths| :: paths[k].dest)
  {
    forall k :: 0 <= k < |paths| ==> paths[k].Valid()
  }

  /** Two sequences of valid path objects make one. */
  lemma PathsValidAppend(a: seq<RecipePath>, b: seq<RecipePath>)
    requires PathsValid(a) && PathsValid(b)
    ensures PathsValid(a + b)
  {
    forall k | 0 <= k < |a + b|
      ensures (a + b)[k].Valid()
    {
      if k < |a| {
        assert (a + b)[k] == a[k];
      } else {
        assert (a + b)[k] == b[k - |a|];
      }
    }
  }

  /** The steps of each of a sequence of path objects. */
  function StepsOf(paths: seq<RecipePath>): (ss: seq<seq<Step>>)
    ensures |ss| == |paths| && forall k :: 0 <= k < |paths| ==> ss[k] == paths[k].steps
  {
    seq(|paths|, k requires 0 <= k < |paths| => paths[k].steps)
  }

  lemma StepsOfAppend(a: seq<RecipePath>, b: seq<RecipePath>)
    ensures StepsOf(a + b) == StepsOf(a) + StepsOf(b)
  {
    assert forall k :: 0 <= k < |a| ==> (a + b)[k] == a[k];
    assert forall k :: |a| <= k < |a + b| ==> (a + b)[k] == b[k - |a|];
  }

  /** One more combination: the corrected loop yields one more path
      unless the combination chooses nothing. */
  lemma SubstitutedStep(src: Entries, path: seq<Step>, combos: seq<seq<Option<Recipe>>>, j: nat)
    requires ValidCombos(combos) && j < |combos|
    ensures ValidCombos(combos[..j]) && ValidCombos(combos[..j + 1])
    ensures Substituted(src, path, combos[..j + 1]) ==
      if NoneChosen(combos[j]) then Substituted(src, path, combos[..j])
      else Substituted(src, path, combos[..j]) + [Substitute(src, path, combos[j])]
  {
    assert combos[..j + 1][..j] == combos[..j];
  }

  /** The first loop of `substitutions`: `possible_substitution_recipes`. */
  method PossibleSubstitutionRecipes(src: Entries, index: Index) returns (possible: seq<seq<Option<Recipe>>>)
    ensures possible == Choices(src, index)
  {
    possible := [];
    for i := 0 to |src|
      invariant possible == Choices(src[..i], index)
    {
      var substitutionRecipes := ProducersOf(index, src[i].0);
      if |substitutionRecipes| > 0 {
        possible := possible + [Options(substitutionRecipes) + [None]];
      }
      assert src[..i + 1][..i] == src[..i];
    }
    assert src[..|src|] == src;
  }

  // ---------------------------------------------------------------------
  // The path object

  /** A `RecipePath`: its steps and the two frozen sides computed from them
      once, at construction. */
  class RecipePath {
    const steps: seq<Step>
    const src: Items
    const dest: Items

    predicate Valid()
      reads src, dest
    {
      src != dest && src.frozen && dest.frozen && src.entries == Src(steps) && dest.entries == Dest(steps)
    }

    /** `__init__`: keeps the steps and splits their net effect. */
    constructor(path: seq<Step>)
      ensures steps == path && fresh(src) && fresh(dest) && Valid()
    {
      steps := path;
      var s, d := CalcSrcDest(path);
      src, dest := s, d;
    }

    /** `cmpkey`: paths compare by their steps; a step's recipe compares by
        identity. */
    function CmpKey(): seq<Step>
    {
      steps
    }

    /** `apply_substitution_recipes`: a new path with one step per recipe
        put in front, each scaled against this path's sources; this path is
        left as it is. */
    method ApplySubstitutionRecipes(recipes: seq<Option<Recipe>>) returns (r: Result<RecipePath>)
      requires Valid() && ValidChoices(recipes)
      ensures r.Ok? <==> Applied(src.entries, steps, recipes).Ok?
      ensures r.Err? ==> r.error == Applied(src.entries, steps, recipes).error
      ensures r.Ok? ==> fresh(r.value) && r.value.Valid() && r.value.steps == Applied(src.entries, steps, recipes).value
    {
      var newPath := steps;
      for i := 0 to |recipes|
        invariant Applied(src.entries, steps, recipes[..i]) == Ok(newPath)
      {
        assert recipes[..i + 1][..i] == recipes[..i];
        if recipes[i].None? {
          AppliedShape(src.entries, steps, recipes);
          return Err(AttributeError("dest"));
        }
        var recipe := recipes[i].value;
        var pathRequires := src.Get(recipe.DestItem());
        var recipeProduces := Produces(recipe);
        var scaleFactor := pathRequires / recipeProduces;
        newPath := [Step(scaleFactor, recipe)] + newPath;
      }
      assert recipes[..|recipes|] == recipes;
      var p := new RecipePath(newPath);
      return Ok(p);
    }

    /** One turn of the corrected loop: the path for a combination that
        chooses at least one producer. */
    method SubstituteOne(selected: seq<Option<Recipe>>) returns (p: RecipePath)
      requires Valid() && ValidChoices(selected) && !NoneChosen(selected)
      ensures fresh(p) && p.Valid() && p.steps == Substitute(src.entries, steps, selected)
    {
      AppliedShape(src.entries, steps, Chosen(selected));
      var r := ApplySubstitutionRecipes(Chosen(selected));
      p := r.value;
    }

    /** `substitutions`, corrected to pass only the chosen recipes on: this
        path first, then one new path per combination that chooses at least
        one producer. */
    method Substitutions(index: Index) returns (paths: seq<RecipePath>)
      requires Valid() && ValidIndex(index)
      ensures StepsOf(paths) == SubstitutedPaths(steps, index) && paths[0] == this
      ensures PathsValid(paths)
      ensures forall k :: 1 <= k < |paths| ==> fresh(paths[k])
    {
      var possible := PossibleSubstitutionRecipes(src.entries, index);
      CombosValid(src.entries, index);
      var substituted := SubstituteEach(Product(possible));
      assert PathsValid([this]);
      PathsValidAppend([this], substituted);
      StepsOfAppend([this], substituted);
      paths := [this] + substituted;
      assert paths[1..] == substituted;
    }

    /** The loop of the corrected `substitutions` over the combinations. */
    method SubstituteEach(combos: seq<seq<Option<Recipe>>>) returns (paths: seq<RecipePath>)
      requires Valid() && ValidCombos(combos)
      ensures StepsOf(paths) == Substituted(src.entries, steps, combos)
      ensures PathsValid(paths) && forall k :: 0 <= k < |paths| ==> fresh(paths[k])
    {
      paths := [];
      for j := 0 to |combos|
        invariant StepsOf(paths) == Substituted(src.entries, steps, combos[..j])
        invariant PathsValid(paths) && forall k :: 0 <= k < |paths| ==> fresh(paths[k])
      {
        SubstitutedStep(src.entries, steps, combos, j);
        paths := PushSubstituted(paths, combos[j]);
      }
      assert combos[..|combos|] == combos;
    }

    /** One turn of the loop of `substitutions`: a combination that chooses
        a producer adds one new path. */
    method PushSubstituted(paths: seq<RecipePath>, selected: seq<Option<Recipe>>) returns (next: seq<RecipePath>)
      requires Valid() && ValidChoices(selected) && PathsValid(paths)
      ensures PathsValid(next) && |next| >= |paths| && next[..|paths|] == paths
      ensures forall k :: |paths| <= k < |next| ==> fresh(next[k])
      ensures StepsOf(next) == if NoneChosen(selected) then StepsOf(paths)
        else StepsOf(paths) + [Substitute(src.entries, steps, selected)]
    {
      next := paths;
      if !NoneChosen(selected) {
        var p := SubstituteOne(selected);
        StepsOfAppend(paths, [p]);
        PathsValidAppend(paths, [p]);
        next := paths + [p];
      }
    }
  }

  /** `create_with_one_recipe`: a path of one step (the default cardinality
      is 1). */
  method CreateWithOneRecipe(recipe: Recipe, cardinality: real := 1.0) returns (p: RecipePath)
    ensures fresh(p) && p.Valid() && p.steps == [Step(cardinality, recipe)]
  {
    p := new RecipePath([Step(cardinality, recipe)]);
  }

  /** A one-step path consumes and yields the split of `cardinality` times
      the recipe's net effect. */
  lemma OneStepSides(c: real, r: Recipe, y: Item)
    requires r.Valid()
    ensures Count(Src([Step(c, r)]), y) == Share(Times(c, Count(r.dest, y) - Count(r.src, y)), true)
    ensures Count(Dest([Step(c, r)]), y) == Share(Times(c, Count(r.dest, y) - Count(r.src, y)), false)
  {
    PathSides([Step(c, r)], y);
    assert Parts([Step(c, r)]) == [(c, r.src, r.dest)];
    OnePartTotal(c, r.src, r.dest, y);
  }

  lemma OnePartTotal(c: real, s: Entries, d: Entries, y: Item)
    ensures Total([(c, s, d)], y) == Times(c, Count(d, y) - Count(s, y))
  {
    PrependTotal((c, s, d), [], y);
    assert [(c, s, d)] + [] == [(c, s, d)];
    Distribute(c, Count(s, y), Count(d, y));
  }

  lemma Distribute(c: real, a: real, b: real)
    ensures Times(Negated(c), a) + Times(c, b) + 0.0 == Times(c, b - a)
  {
  }
}
