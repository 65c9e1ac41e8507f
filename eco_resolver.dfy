/** `ecocalc/RecipeResolver.py`: the recipes a computation may use, and the
    step that scales one recipe to produce an item at a target rate. */
module EcoResolver {

  import opened Common
  import opened Numbers
  import opened EcoParser
  import opened EcoProductionEntity
  import opened EcoRecipe
  import opened EcoEconomy
  import opened EcoProduction

  /** Whether amounts are counts or rates per unit of time. */
  datatype ComputationMode = Count | Rate

  /** The unit the target rates are given in. */
  datatype RateUnit = UnitsPerSecond | UnitsPerMinute

  /** `_filter_recipes`: cyclic recipes are dropped, and in rate mode also
      the recipes without an execution time. */
  function FilterRecipes(recipes: seq<Recipe>, mode: ComputationMode): (r: seq<Recipe>)
    ensures |r| <= |recipes|
  {
    if recipes == [] then []
    else
      var rest := FilterRecipes(recipes[1..], mode);
      var x := recipes[0];
      if x.IsCyclic() || (mode == Rate && !x.ProvidesRate()) then rest else [x] + rest
  }

  /** `xs` is `ys` with some elements left out, the others in the same order. */
  predicate Subsequence<T(==)>(xs: seq<T>, ys: seq<T>)
    decreases |ys|
  {
    if xs == [] then true
    else if ys == [] then false
    else if xs[0] == ys[0] then Subsequence(xs[1..], ys[1..])
    else Subsequence(xs, ys[1..])
  }

  lemma {:induction false} FilterIsSubsequence(recipes: seq<Recipe>, mode: ComputationMode)
    ensures Subsequence(FilterRecipes(recipes, mode), recipes)
  {
    if recipes != [] {
      FilterIsSubsequence(recipes[1..], mode);
      var rest := FilterRecipes(recipes[1..], mode);
      var x := recipes[0];
      if !(x.IsCyclic() || (mode == Rate && !x.ProvidesRate())) {
        assert ([x] + rest)[1..] == rest;
      } else if rest != [] && rest[0] == x {
        SubsequenceTail(rest, recipes[1..]);
      }
    }
  }

  lemma {:induction false} SubsequenceTail<T>(xs: seq<T>, ys: seq<T>)
    requires xs != [] && Subsequence(xs, ys)
    ensures Subsequence(xs[1..], ys)
    decreases |ys|, 1
  {
    if xs[0] != ys[0] {
      SubsequenceTail(xs, ys[1..]);
    }
    SubsequenceCons(xs[1..], ys);
  }

  lemma {:induction false} SubsequenceCons<T>(xs: seq<T>, ys: seq<T>)
    requires ys != [] && Subsequence(xs, ys[1..])
    ensures Subsequence(xs, ys)
    decreases |ys|, 0
  {
    if xs != [] && xs[0] == ys[0] {
      SubsequenceTail(xs, ys[1..]);
    }
  }

  /** A recipe survives exactly when it is one of the economy's, is not
      cyclic, and in rate mode provides a rate; so no cyclic recipe survives,
      in rate mode all survivors provide a rate, and in count mode every
      non-cyclic recipe is kept. */
  lemma {:induction false} FilterMembers(recipes: seq<Recipe>, mode: ComputationMode, x: Recipe)
    ensures x in FilterRecipes(recipes, mode) <==>
      x in recipes && !x.IsCyclic() && (mode == Rate ==> x.ProvidesRate())
  {
    if recipes != [] {
      FilterMembers(recipes[1..], mode, x);
      assert recipes == [recipes[0]] + recipes[1..];
    }
  }

  /** Rate mode keeps a selection of what count mode keeps, in the same order. */
  lemma {:induction false} RateFilterWithinCountFilter(recipes: seq<Recipe>)
    ensures Subsequence(FilterRecipes(recipes, Rate), FilterRecipes(recipes, Count))
  {
    if recipes != [] {
      RateFilterWithinCountFilter(recipes[1..]);
      var r, c := FilterRecipes(recipes[1..], Rate), FilterRecipes(recipes[1..], Count);
      var x := recipes[0];
      if !x.IsCyclic() {
        if x.ProvidesRate() {
          assert ([x] + r)[1..] == r && ([x] + c)[1..] == c;
        } else {
          assert ([x] + c)[1..] == c;
          if r != [] && r[0] == x {
            SubsequenceTail(r, c);
          }
          SubsequenceCons(r, [x] + c);
        }
      }
    }
  }

  /** The total count of `item` on one side of a recipe. */
  function SideCount(side: seq<Element>, item: string): real
  {
    if side == [] then 0.0
    else (if side[0].name == item then side[0].cardinality.Value() else 0.0) + SideCount(side[1..], item)
  }

  /** The rate of each element of a side when one unit of count flows at
      `perUnit` (for `cardinality` entities at `speed`, a cycle taking
      `time`, that is `cardinality * speed / time`). */
  function Flows(side: seq<Element>, perUnit: real): (fs: seq<(string, real)>)
    ensures |fs| == |side|
    ensures forall k :: 0 <= k < |side| ==> fs[k] == ElementFlow(side[k], perUnit)
  {
    seq(|side|, k requires 0 <= k < |side| => ElementFlow(side[k], perUnit))
  }

  function ElementFlow(e: Element, perUnit: real): (string, real)
  {
    (e.name, e.cardinality.Value() * perUnit)
  }

  /** The total rate of `item` among the flows. */
  function FlowOf(fs: seq<(string, real)>, item: string): real
  {
    if fs == [] then 0.0 else (if fs[0].0 == item then fs[0].1 else 0.0) + FlowOf(fs[1..], item)
  }

  lemma {:induction false} FlowOfFlows(side: seq<Element>, perUnit: real, item: string)
    ensures FlowOf(Flows(side, perUnit), item) == SideCount(side, item) * perUnit
  {
    if side != [] {
      FlowOfFlows(side[1..], perUnit, item);
      var fs := Flows(side, perUnit);
      assert fs[1..] == Flows(side[1..], perUnit);
      var v := side[0].cardinality.Value();
      var rest := SideCount(side[1..], item);
      assert (v + rest) * perUnit == v * perUnit + rest * perUnit;
    }
  }

  /** One recipe scaled to a target, with the resulting rate of every
      ingredient and product. */
  datatype ScaledProduction = ScaledProduction(
    production: Production,
    lhs: seq<(string, real)>,
    rhs: seq<(string, real)>)

  /** `cardinality` entities running `recipe`, a cycle taking `time`: one
      unit of count flows at `cardinality * speed / time`. */
  function Scaled(recipe: Recipe, entity: ProductionEntity, cardinality: real, time: real): (s: ScaledProduction)
    requires time != 0.0
    ensures s.production == NewProduction(recipe, entity, cardinality)
  {
    var perUnit := PerUnit(cardinality, entity.maxSpeedFactor, time);
    ScaledProduction(NewProduction(recipe, entity, cardinality), Flows(recipe.lhs, perUnit), Flows(recipe.rhs, perUnit))
  }

  /** The rate at which one unit of count of a recipe flows. */
  function PerUnit(cardinality: real, speed: real, time: real): real
    requires time != 0.0
  {
    cardinality * speed / time
  }

  /** The number of entities that deliver `target` of an item of which one
      cycle of `time` yields `count`, at `speed`. */
  function Cardinality(target: real, count: real, time: real, speed: real): real
    requires count != 0.0 && time != 0.0 && speed != 0.0
  {
    target / (count / time * speed)
  }

  /** The scaling step of `produce_item` (an empty stub in the code): one
      entity delivers `count / time * speed` of the item, so
      `target / (count / time * speed)` entities are needed; every element
      then flows at `cardinality * count * speed / time`. */
  function ProduceItem(recipe: Recipe, entity: ProductionEntity, item: string, target: real): (r: Result<ScaledProduction>)
    ensures r.Ok? <==> recipe.executionTime.Some? && SideCount(recipe.rhs, item) != 0.0
                       && recipe.executionTime.value != 0.0 && entity.maxSpeedFactor != 0.0
    ensures r.Ok? ==> r.value == Scaled(recipe, entity,
      Cardinality(target, SideCount(recipe.rhs, item), recipe.executionTime.value, entity.maxSpeedFactor),
      recipe.executionTime.value)
  {
    if recipe.executionTime.None? then Err(ValueError("recipe provides no rate"))
    else
      var time := recipe.executionTime.value;
      var count := SideCount(recipe.rhs, item);
      var speed := entity.maxSpeedFactor;
      if count == 0.0 then Err(KeyError(item))
      else if time == 0.0 || speed == 0.0 then Err(ZeroDivision)
      else Ok(Scaled(recipe, entity, Cardinality(target, count, time, speed), time))
  }

  /** Entities scaled to the target deliver exactly the target. */
  lemma CardinalityMeetsTarget(target: real, count: real, time: real, speed: real)
    requires count != 0.0 && time != 0.0 && speed != 0.0
    ensures count * PerUnit(Cardinality(target, count, time, speed), speed, time) == target
  {
    var u := count / time * speed;
    var c := target / u;
    assert u != 0.0;
    assert count * (c * speed / time) == u * c;
    assert u * c == target;
  }

  /** The scaled recipe yields the item at exactly the target rate. */
  lemma ProduceItemMeetsTarget(recipe: Recipe, entity: ProductionEntity, item: string, target: real)
    requires ProduceItem(recipe, entity, item, target).Ok?
    ensures FlowOf(ProduceItem(recipe, entity, item, target).value.rhs, item) == target
  {
    var time := recipe.executionTime.value;
    var count := SideCount(recipe.rhs, item);
    var speed := entity.maxSpeedFactor;
    var c := Cardinality(target, count, time, speed);
    var perUnit := PerUnit(c, speed, time);
    assert ProduceItem(recipe, entity, item, target).value.rhs == Flows(recipe.rhs, perUnit);
    FlowOfFlows(recipe.rhs, perUnit, item);
    CardinalityMeetsTarget(target, count, time, speed);
    assert count * perUnit == target;
  }

  /** The project's test: "12 a + 7 b -> 13 c" at `X` (speed 3/4), 9 time
      units per cycle, scaled to 15 c per second. */
  lemma FullBeltExample(recipe: Recipe, x: ProductionEntity)
    requires recipe.lhs == [Element(IntNum(12), "a"), Element(IntNum(7), "b")]
    requires recipe.rhs == [Element(IntNum(13), "c")]
    requires recipe.executionTime == Some(9.0)
    requires x.maxSpeedFactor == 0.75
    ensures var r := ProduceItem(recipe, x, "c", 15.0);
      r.Ok? && r.value.production.productionSpeed == 3.0 / 4.0
      && r.value.production.cardinality == 180.0 / 13.0
      && r.value.lhs == [("a", 180.0 / 13.0), ("b", 105.0 / 13.0)]
      && r.value.rhs == [("c", 15.0)]
  {
    assert SideCount(recipe.rhs, "c") == 13.0;
    assert Cardinality(15.0, 13.0, 9.0, 0.75) == 180.0 / 13.0;
    assert 180.0 / 13.0 * 0.75 / 9.0 == 15.0 / 13.0;
  }

  /** `get_recipe_which_produces` (an empty stub in the code): the first
      usable recipe that yields the item. */
  function RecipeWhichProduces(recipes: seq<Recipe>, item: string): (r: Option<Recipe>)
    ensures r.Some? ==> r.value in recipes && item in r.value.Products()
    ensures r.Some? ==>
      (exists k :: 0 <= k < |recipes| && recipes[k] == r.value &&
        forall j :: 0 <= j < k ==> item !in recipes[j].Products())
    ensures r.None? <==> forall k :: 0 <= k < |recipes| ==> item !in recipes[k].Products()
  {
    if recipes == [] then None
    else if item in recipes[0].Products() then Some(recipes[0])
    else
      var r := RecipeWhichProduces(recipes[1..], item);
      assert forall k :: 1 <= k < |recipes| ==> recipes[k] == recipes[1..][k - 1];
      r
  }

  /** `produce_production_specifier`: a specifier that names an item is
      accepted (the code only prints it); any other is not implemented. */
  function ProduceProductionSpecifier(referencesItem: bool): (r: Result<()>)
  {
    if referencesItem then Ok(()) else Err(NotImplemented("production specifier without item"))
  }

  class RecipeResolver {
    const economy: EconomyDefinition
    const mode: ComputationMode
    const rateUnit: RateUnit
    /** Filtered once, when the resolver is built. */
    const recipes: seq<Recipe>

    constructor(economy: EconomyDefinition, mode: ComputationMode, rateUnit: RateUnit)
      ensures this.economy == economy && this.mode == mode && this.rateUnit == rateUnit
      ensures recipes == FilterRecipes(economy.recipes, mode)
    {
      this.economy := economy;
      this.mode := mode;
      this.rateUnit := rateUnit;
      recipes := FilterRecipes(economy.recipes, mode);
    }

    /** `resolve`: each specifier in turn; the first one that names no item
        raises. Each specifier is given by whether it names an item. */
    method Resolve(referencesItem: seq<bool>) returns (r: Result<()>)
      ensures r.Ok? <==> forall k :: 0 <= k < |referencesItem| ==> referencesItem[k]
      ensures r.Err? ==> r == ProduceProductionSpecifier(false)
    {
      for i := 0 to |referencesItem|
        invariant forall k :: 0 <= k < i ==> referencesItem[k]
      {
        var step := ProduceProductionSpecifier(referencesItem[i]);
        if step.Err? {
          return step;
        }
      }
      return Ok(());
    }
  }
}
