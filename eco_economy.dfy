/** `ecocalc/EconomyDefinition.py`: the resources, production entities,
    entity groups, rate scalars and recipes of one game economy, checked
    for consistency when it is put together. */
module EcoEconomy {

  import opened Common
  import opened EcoResource
  import opened EcoProductionEntity
  import opened EcoEntityGroup
  import opened EcoRateScalar
  import opened EcoRecipe

  /** The display names carried by two different resources. */
  function DuplicateNames(resources: map<string, Resource>): set<string>
  {
    set a, b | a in resources && b in resources && a != b && resources[a].name == resources[b].name
      :: resources[a].name
  }

  /** The ingredients of the first recipe, in list order, that uses a
      resource the economy does not define, with those resources. */
  function FirstUnknown(recipes: seq<Recipe>, ids: set<string>): (r: Option<set<string>>)
    ensures r.Some? ==> r.value != {}
  {
    if recipes == [] then None
    else if recipes[0].Ingredients() - ids != {} then Some(recipes[0].Ingredients() - ids)
    else FirstUnknown(recipes[1..], ids)
  }

  /** `FirstUnknown` finds nothing exactly when every recipe's ingredients
      are known, and otherwise reports the first recipe that has unknown ones. */
  lemma {:induction false} FirstUnknownSpec(recipes: seq<Recipe>, ids: set<string>)
    ensures FirstUnknown(recipes, ids).None? <==> forall k :: 0 <= k < |recipes| ==> recipes[k].Ingredients() <= ids
    ensures FirstUnknown(recipes, ids).Some? ==>
      (exists k :: 0 <= k < |recipes|
        && FirstUnknown(recipes, ids).value == recipes[k].Ingredients() - ids
        && forall j :: 0 <= j < k ==> recipes[j].Ingredients() <= ids)
  {
    if recipes != [] && recipes[0].Ingredients() - ids == {} {
      var rest := recipes[1..];
      assert recipes[0].Ingredients() <= ids by {
        forall x | x in recipes[0].Ingredients() ensures x in ids {
          assert x !in recipes[0].Ingredients() - ids;
        }
      }
      FirstUnknownSpec(rest, ids);
      var r := FirstUnknown(rest, ids);
      if r.Some? {
        var k :| 0 <= k < |rest| && r.value == rest[k].Ingredients() - ids
          && forall j :: 0 <= j < k ==> rest[j].Ingredients() <= ids;
        assert recipes[k + 1] == rest[k];
        forall j | 0 <= j < k + 1 ensures recipes[j].Ingredients() <= ids {
          if j > 0 { assert recipes[j] == rest[j - 1]; }
        }
      } else {
        forall k | 0 <= k < |recipes| ensures recipes[k].Ingredients() <= ids {
          if k > 0 { assert recipes[k] == rest[k - 1]; }
        }
      }
    }
  }

  /** `_plausibility_check`: duplicate display names are reported first;
      then the first recipe with ingredients that are not resources. The
      products of a recipe are not checked. */
  function Plausibility(resources: map<string, Resource>, recipes: seq<Recipe>): (r: Option<Error>)
    ensures DuplicateNames(resources) != {} ==> r == Some(DuplicateResourceName(DuplicateNames(resources)))
    ensures r.Some? ==> r.value.DuplicateResourceName? || r.value.UnknownResource?
  {
    if DuplicateNames(resources) != {} then Some(DuplicateResourceName(DuplicateNames(resources)))
    else
      match FirstUnknown(recipes, resources.Keys)
      case None => None
      case Some(u) => Some(UnknownResource(u))
  }

  /** The definition is accepted exactly when display names are unique and
      every ingredient of every recipe is a resource; otherwise the first
      offending recipe's unknown ingredients are reported. */
  lemma PlausibilitySpec(resources: map<string, Resource>, recipes: seq<Recipe>)
    ensures Plausibility(resources, recipes).None? <==>
      (DuplicateNames(resources) == {}
       && forall k :: 0 <= k < |recipes| ==> recipes[k].Ingredients() <= resources.Keys)
    ensures var r := Plausibility(resources, recipes);
      r.Some? && r.value.UnknownResource? ==>
        r.value.names != {}
        && (exists k :: 0 <= k < |recipes|
             && r.value.names == recipes[k].Ingredients() - resources.Keys
             && forall j :: 0 <= j < k ==> recipes[j].Ingredients() <= resources.Keys)
  {
    FirstUnknownSpec(recipes, resources.Keys);
  }

  /** No names are reported exactly when different resources have different names. */
  lemma DuplicateNamesEmpty(resources: map<string, Resource>)
    ensures DuplicateNames(resources) == {} <==>
      forall a, b :: a in resources && b in resources && resources[a].name == resources[b].name ==> a == b
  {
    if exists a, b :: a in resources && b in resources && a != b && resources[a].name == resources[b].name {
      var a, b :| a in resources && b in resources && a != b && resources[a].name == resources[b].name;
      assert resources[a].name in DuplicateNames(resources);
    }
  }

  /** Every reported name is shared by two different resources. */
  lemma DuplicateNamesShared(resources: map<string, Resource>, n: string)
    requires n in DuplicateNames(resources)
    ensures exists a, b ::
      a in resources && b in resources && a != b && resources[a].name == n && resources[b].name == n
  {
  }

  /** The check looks at ingredients only: recipes with the same ingredients
      at every position pass or fail alike, whatever they produce. */
  lemma ProductsNotChecked(resources: map<string, Resource>, xs: seq<Recipe>, ys: seq<Recipe>)
    requires |xs| == |ys| && forall k :: 0 <= k < |xs| ==> xs[k].Ingredients() == ys[k].Ingredients()
    ensures Plausibility(resources, xs) == Plausibility(resources, ys)
  {
    FirstUnknownIngredientsOnly(xs, ys, resources.Keys);
  }

  lemma {:induction false} FirstUnknownIngredientsOnly(xs: seq<Recipe>, ys: seq<Recipe>, ids: set<string>)
    requires |xs| == |ys| && forall k :: 0 <= k < |xs| ==> xs[k].Ingredients() == ys[k].Ingredients()
    ensures FirstUnknown(xs, ids) == FirstUnknown(ys, ids)
  {
    if xs != [] {
      assert xs[0].Ingredients() == ys[0].Ingredients();
      FirstUnknownIngredientsOnly(xs[1..], ys[1..], ids);
    }
  }

  class EconomyDefinition {
    const resources: map<string, Resource>
    const productionEntities: map<string, ProductionEntity>
    const productionEntityGroups: map<string, ProductionEntityGroup>
    const rateScalars: map<string, RateScalar>
    /** Also what the `recipes` property yields, in this order. */
    const recipes: seq<Recipe>

    /** The constructor up to the plausibility check: stores the maps and
        registers itself with every recipe (`_register_economy`). */
    constructor(resources: map<string, Resource>, productionEntities: map<string, ProductionEntity>,
                productionEntityGroups: map<string, ProductionEntityGroup>,
                rateScalars: map<string, RateScalar>, recipes: seq<Recipe>)
      modifies set k | 0 <= k < |recipes| :: recipes[k]
      ensures this.resources == resources && this.productionEntities == productionEntities
      ensures this.productionEntityGroups == productionEntityGroups
      ensures this.rateScalars == rateScalars && this.recipes == recipes
      ensures forall k :: 0 <= k < |recipes| ==> recipes[k].economy == this
    {
      this.resources := resources;
      this.productionEntities := productionEntities;
      this.productionEntityGroups := productionEntityGroups;
      this.rateScalars := rateScalars;
      this.recipes := recipes;
      new;
      for i := 0 to |recipes|
        invariant forall k :: 0 <= k < i ==> recipes[k].economy == this
      {
        recipes[i].economy := this;
      }
    }

    /** The full constructor: the definition, or the exception its
        plausibility check raises. Either way the recipes were registered
        first, with one new definition that the caller never sees when the
        check fails. */
    static method Create(resources: map<string, Resource>, productionEntities: map<string, ProductionEntity>,
                         productionEntityGroups: map<string, ProductionEntityGroup>,
                         rateScalars: map<string, RateScalar>, recipes: seq<Recipe>)
      returns (r: Result<EconomyDefinition>)
      modifies set k | 0 <= k < |recipes| :: recipes[k]
      ensures r.Ok? <==> Plausibility(resources, recipes).None?
      ensures r.Err? ==> r.error == Plausibility(resources, recipes).value
      ensures r.Ok? ==> fresh(r.value) && r.value.resources == resources && r.value.recipes == recipes
      ensures r.Ok? ==> r.value.productionEntities == productionEntities
      ensures r.Ok? ==> r.value.productionEntityGroups == productionEntityGroups
      ensures r.Ok? ==> r.value.rateScalars == rateScalars
      ensures forall k :: 0 <= k < |recipes| ==>
        recipes[k].economy != null && fresh(recipes[k].economy) && recipes[k].economy == recipes[0].economy
      ensures r.Ok? ==> forall k :: 0 <= k < |recipes| ==> recipes[k].economy == r.value
    {
      var e := new EconomyDefinition(resources, productionEntities, productionEntityGroups, rateScalars, recipes);
      match Plausibility(resources, recipes)
      case None => r := Ok(e);
      case Some(err) => r := Err(err);
    }

    /** `get_resource_name`: the display name of a known resource, otherwise the identifier itself. */
    function GetResourceName(id: string): (n: string)
      ensures id !in resources ==> n == id
      ensures id in resources ==> n == resources[id].name
    {
      if !HasResource(id) then id else GetResource(id).value.name
    }

    predicate HasResource(id: string) { id in resources }

    function GetResource(id: string): (r: Result<Resource>)
      ensures r.Ok? <==> HasResource(id)
      ensures r.Ok? ==> r.value == resources[id]
      ensures r.Err? ==> r.error == KeyError(id)
    {
      if id in resources then Ok(resources[id]) else Err(KeyError(id))
    }

    /** `has_production_entity` as written reads the misspelt attribute
        `_production_entitys`, which does not exist. */
    function HasProductionEntityAsWritten(id: string): (r: Result<bool>)
      ensures r == Err(AttributeError("_production_entitys"))
    {
      Err(AttributeError("_production_entitys"))
    }

    /** `has_production_entity` reading the attribute the constructor sets. */
    predicate HasProductionEntity(id: string) { id in productionEntities }

    function GetProductionEntity(id: string): (r: Result<ProductionEntity>)
      ensures r.Ok? <==> HasProductionEntity(id)
      ensures r.Ok? ==> r.value == productionEntities[id]
      ensures r.Err? ==> r.error == KeyError(id)
    {
      if id in productionEntities then Ok(productionEntities[id]) else Err(KeyError(id))
    }

    predicate HasRateScalar(id: string) { id in rateScalars }

    function GetRateScalar(id: string): (r: Result<RateScalar>)
      ensures r.Ok? <==> HasRateScalar(id)
      ensures r.Ok? ==> r.value == rateScalars[id]
      ensures r.Err? ==> r.error == KeyError(id)
    {
      if id in rateScalars then Ok(rateScalars[id]) else Err(KeyError(id))
    }

    predicate HasProductionEntityGroup(id: string) { id in productionEntityGroups }

    function GetProductionEntityGroup(id: string): (r: Result<ProductionEntityGroup>)
      ensures r.Ok? <==> HasProductionEntityGroup(id)
      ensures r.Ok? ==> r.value == productionEntityGroups[id]
      ensures r.Err? ==> r.error == KeyError(id)
    {
      if id in productionEntityGroups then Ok(productionEntityGroups[id]) else Err(KeyError(id))
    }

    /** As written, asking for an entity fails even where fetching it succeeds. */
    lemma HasProductionEntityFails(id: string)
      requires id in productionEntities
      ensures HasProductionEntityAsWritten(id).Err? && GetProductionEntity(id).Ok?
      ensures HasProductionEntity(id)
    {
    }

    /** Once the check has passed, display names tell the known resources apart. */
    lemma NamesIdentifyResources(a: string, b: string)
      requires Plausibility(resources, recipes).None?
      requires a in resources && b in resources && GetResourceName(a) == GetResourceName(b)
      ensures a == b
    {
      PlausibilitySpec(resources, recipes);
      DuplicateNamesEmpty(resources);
    }
  }
}
