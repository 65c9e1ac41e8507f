/** `ecocalc/ProductionEntity.py`: a machine that runs recipes, with the
    range of speed factors it can run at. */
module EcoProductionEntity {

  import opened Common
  import opened Json

  datatype ProductionEntity = ProductionEntity(
    identifier: string,
    name: string,
    minSpeedFactor: real,
    maxSpeedFactor: real,
    tag: Option<string>)
  {
    /** `single_speed`. */
    predicate SingleSpeed()
    {
      minSpeedFactor == maxSpeedFactor
    }
  }

  /** The constructor; Python's defaults are a name equal to the identifier
      and both speed factors 1. */
  function NewEntity(identifier: string, name: Option<string>, minSpeed: real, maxSpeed: real, tag: Option<string>): (e: ProductionEntity)
    ensures e.identifier == identifier && e.tag == tag
    ensures e.name == if name.Some? then name.value else identifier
    ensures e.minSpeedFactor == minSpeed && e.maxSpeedFactor == maxSpeed
  {
    ProductionEntity(identifier, if name.Some? then name.value else identifier, minSpeed, maxSpeed, tag)
  }

  /** The speed factors `from_dict` reads: `"speed_factor"` sets both and wins
      over the others; otherwise both `"min_speed_factor"` and
      `"max_speed_factor"` must be present to count; otherwise both stay 1. */
  function SpeedFactors(obj: map<string, Json>): (r: Result<(real, real)>)
  {
    if "speed_factor" in obj then
      match FractionOf(obj["speed_factor"])
      case Err(e) => Err(e)
      case Ok(f) => Ok((f, f))
    else if "min_speed_factor" in obj && "max_speed_factor" in obj then
      match FractionOf(obj["min_speed_factor"])
      case Err(e) => Err(e)
      case Ok(lo) =>
        match FractionOf(obj["max_speed_factor"])
        case Err(e) => Err(e)
        case Ok(hi) => Ok((lo, hi))
    else Ok((1.0, 1.0))
  }

  /** `from_dict`: `"name"` is mandatory (`null` counts as no name), `"tag"`
      optional. A name or tag that is not a JSON string is refused. */
  function FromDict(identifier: string, obj: map<string, Json>): (r: Result<ProductionEntity>)
    ensures "name" !in obj ==> r == Err(KeyError("name"))
    ensures r.Ok? ==> r.value.identifier == identifier
    ensures r.Ok? ==> SpeedFactors(obj).Ok?
    ensures r.Ok? ==> r.value.minSpeedFactor == SpeedFactors(obj).value.0
    ensures r.Ok? ==> r.value.maxSpeedFactor == SpeedFactors(obj).value.1
    ensures r.Ok? ==> obj["name"] == JNull || obj["name"] == JStr(r.value.name)
    ensures r.Ok? && obj["name"] == JNull ==> r.value.name == identifier
    ensures r.Ok? && GetOptional(obj, "tag").None? ==> r.value.tag.None?
    ensures r.Ok? && GetOptional(obj, "tag").Some? ==> r.value.tag.Some? && obj["tag"] == JStr(r.value.tag.value)
  {
    if "name" !in obj then Err(KeyError("name"))
    else
      var name := if obj["name"] == JNull then Ok(None) else
        match AsString(obj["name"]) case Ok(s) => Ok(Some(s)) case Err(e) => Err(e);
      var tag := match GetOptional(obj, "tag") case None => Ok(None) case Some(v) =>
        match AsString(v) case Ok(s) => Ok(Some(s)) case Err(e) => Err(e);
      if name.Err? then Err(name.error)
      else if tag.Err? then Err(tag.error)
      else
        match SpeedFactors(obj)
        case Err(e) => Err(e)
        case Ok((lo, hi)) => Ok(NewEntity(identifier, name.value, lo, hi, tag.value))
  }

  /** With `"speed_factor"`, both factors are that value: the entity has a single speed. */
  lemma SpeedFactorGivesSingleSpeed(identifier: string, obj: map<string, Json>)
    requires "speed_factor" in obj
    requires FromDict(identifier, obj).Ok?
    ensures FromDict(identifier, obj).value.SingleSpeed()
    ensures FromDict(identifier, obj).value.maxSpeedFactor == FractionOf(obj["speed_factor"]).value
  {
  }

  /** `"speed_factor"` takes precedence over the min/max keys. */
  lemma SpeedFactorWins(obj: map<string, Json>, lo: Json, hi: Json)
    requires "speed_factor" in obj
    ensures SpeedFactors(obj["min_speed_factor" := lo]["max_speed_factor" := hi]) == SpeedFactors(obj)
  {
    var obj' := obj["min_speed_factor" := lo]["max_speed_factor" := hi];
    assert "speed_factor" in obj' && obj'["speed_factor"] == obj["speed_factor"];
  }

  /** Only one of min/max present: both factors stay at 1. */
  lemma HalfRangeIgnored(obj: map<string, Json>)
    requires "speed_factor" !in obj
    requires ("min_speed_factor" in obj) != ("max_speed_factor" in obj)
    ensures SpeedFactors(obj) == Ok((1.0, 1.0))
  {
  }

  /** Both min and max present: they are taken as given. */
  lemma RangeTaken(obj: map<string, Json>, lo: real, hi: real)
    requires "speed_factor" !in obj && "min_speed_factor" in obj && "max_speed_factor" in obj
    requires FractionOf(obj["min_speed_factor"]) == Ok(lo) && FractionOf(obj["max_speed_factor"]) == Ok(hi)
    ensures SpeedFactors(obj) == Ok((lo, hi))
    ensures lo != hi ==> FromDict("x", obj).Ok? ==> !FromDict("x", obj).value.SingleSpeed()
  {
  }

  /** No `"name"` key: `from_dict` fails whatever else the object holds. */
  lemma NameIsMandatory(identifier: string, obj: map<string, Json>)
    requires "name" !in obj
    ensures FromDict(identifier, obj) == Err(KeyError("name"))
  {
  }

  /** The machine `X` of the project's test economy: `speed_factor` 0.75 is 3/4 exactly. */
  lemma ThreeQuarterSpeedEntity()
    ensures FromDict("X", map["name" := JStr("X"), "speed_factor" := JFloat(0.75)])
         == Ok(ProductionEntity("X", "X", 0.75, 0.75, None))
  {
    var obj := map["name" := JStr("X"), "speed_factor" := JFloat(0.75)];
    assert "tag" !in obj;
    assert SpeedFactors(obj) == Ok((0.75, 0.75));
  }
}
