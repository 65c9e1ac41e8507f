/** `ecocalc/Production.py`: a number of production entities running one
    recipe. */
module EcoProduction {

  import opened Common
  import opened Json
  import opened EcoProductionEntity
  import opened EcoRecipe

  datatype Production = Production(
    recipe: Recipe,
    entity: ProductionEntity,
    productionSpeed: real,
    cardinality: real)

  /** The constructor: the entity always runs at its maximum speed factor. */
  function NewProduction(recipe: Recipe, entity: ProductionEntity, cardinality: real): (p: Production)
    ensures p.recipe == recipe && p.entity == entity && p.cardinality == cardinality
    ensures p.productionSpeed == entity.maxSpeedFactor
  {
    Production(recipe, entity, entity.maxSpeedFactor, cardinality)
  }

  /** A production as the constructor builds it. */
  predicate Valid(p: Production)
  {
    p.productionSpeed == p.entity.maxSpeedFactor
  }

  /** `__mul__`: a new production with the cardinality scaled. */
  function Scale(p: Production, scalar: real): (q: Production)
    ensures Valid(q)
    ensures q.recipe == p.recipe && q.entity == p.entity && q.cardinality == p.cardinality * scalar
  {
    NewProduction(p.recipe, p.entity, p.cardinality * scalar)
  }

  /** Scaling keeps the speed of every production the constructor built. */
  lemma ScaleKeepsSpeed(p: Production, scalar: real)
    requires Valid(p)
    ensures Scale(p, scalar).productionSpeed == p.productionSpeed
  {
  }

  lemma ScaleByOne(p: Production)
    requires Valid(p)
    ensures Scale(p, 1.0) == p
  {
  }

  lemma ScaleTwice(p: Production, a: real, b: real)
    ensures Scale(Scale(p, a), b) == Scale(p, a * b)
  {
    assert p.cardinality * a * b == p.cardinality * (a * b);
  }

  /** The test economy's machine `X`, with `speed_factor` 0.75, runs at 3/4. */
  lemma ThreeQuarterSpeed(recipe: Recipe, cardinality: real)
    ensures var x := FromDict("X", map["name" := JStr("X"), "speed_factor" := JFloat(0.75)]);
      x.Ok? && NewProduction(recipe, x.value, cardinality).productionSpeed == 3.0 / 4.0
  {
    ThreeQuarterSpeedEntity();
  }
}
