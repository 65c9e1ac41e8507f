/** `ecocalc/RateScalar.py`: a named conversion factor for rates, stored in
    units per minute.

    As written, the constructor assigns its argument to a local variable
    instead of `self._scalar_upm`, so the factor is lost and every read of
    `scalar_upm` (and `__repr__`, which reads a non-existent `upm`) raises
    `AttributeError`. `RateScalarAsWritten` models that; `RateScalar` is the
    evidently intended class that keeps the factor. */
module EcoRateScalar {

  import opened Common
  import opened Json

  /** The object as written: it stores nothing. */
  datatype RateScalarAsWritten = RateScalarAsWritten

  /** `scalar_upm` as written: the attribute was never set. */
  function ScalarUpmAsWritten(r: RateScalarAsWritten): (v: Result<real>)
    ensures v == Err(AttributeError("_scalar_upm"))
  {
    Err(AttributeError("_scalar_upm"))
  }

  /** `__repr__` as written reads `self.upm`, which no code sets. */
  function ReprAsWritten(r: RateScalarAsWritten): (v: Result<string>)
    ensures v == Err(AttributeError("upm"))
  {
    Err(AttributeError("upm"))
  }

  /** The name Python's `NotImplementedError(unit)` carries. */
  function UnitText(unit: Json): string
  {
    if unit.JStr? then unit.s else "<non-string unit>"
  }

  /** `60 * value` in Python fails only on `None` and dictionaries
      (strings and lists are repeated, numbers multiplied). */
  predicate Multipliable(v: Json)
  {
    !v.JNull? && !v.JObject?
  }

  /** `from_dict` as written: it checks the unit and the value, then discards the value. */
  function FromDictAsWritten(obj: map<string, Json>): (r: Result<RateScalarAsWritten>)
    ensures "unit" !in obj ==> r == Err(KeyError("unit"))
    ensures "unit" in obj && obj["unit"] != JStr("upm") && obj["unit"] != JStr("ups")
            ==> r == Err(NotImplemented(UnitText(obj["unit"])))
  {
    if "unit" !in obj then Err(KeyError("unit"))
    else if obj["unit"] == JStr("upm") then
      if "value" in obj then Ok(RateScalarAsWritten) else Err(KeyError("value"))
    else if obj["unit"] == JStr("ups") then
      if "value" !in obj then Err(KeyError("value"))
      else if Multipliable(obj["value"]) then Ok(RateScalarAsWritten)
      else Err(TypeError("unsupported operand type(s) for *"))
    else Err(NotImplemented(UnitText(obj["unit"])))
  }

  /** Whatever the serialised rate, in either unit, the scalar built from it
      cannot be read back. */
  lemma AsWrittenScalarIsLost(obj: map<string, Json>)
    requires "unit" in obj && "value" in obj
    requires obj["unit"] == JStr("upm") || (obj["unit"] == JStr("ups") && Multipliable(obj["value"]))
    ensures FromDictAsWritten(obj).Ok?
    ensures ScalarUpmAsWritten(FromDictAsWritten(obj).value).Err?
    ensures ReprAsWritten(FromDictAsWritten(obj).value).Err?
  {
  }

  /** The evidently intended class: it keeps the factor, in units per minute. */
  datatype RateScalar = RateScalar(scalarUpm: real)

  /** `from_dict` with the factor kept: `"upm"` as given, `"ups"` times 60,
      any other unit `NotImplementedError`. The value must be a number. */
  function FromDict(obj: map<string, Json>): (r: Result<RateScalar>)
    ensures "unit" !in obj ==> r == Err(KeyError("unit"))
    ensures "unit" in obj && obj["unit"] != JStr("upm") && obj["unit"] != JStr("ups")
            ==> r == Err(NotImplemented(UnitText(obj["unit"])))
    ensures r.Ok? ==> "value" in obj && AsNumber(obj["value"]).Ok?
    ensures r.Ok? && obj["unit"] == JStr("upm") ==> r.value.scalarUpm == AsNumber(obj["value"]).value
    ensures r.Ok? && obj["unit"] == JStr("ups") ==> r.value.scalarUpm == 60.0 * AsNumber(obj["value"]).value
  {
    if "unit" !in obj then Err(KeyError("unit"))
    else if obj["unit"] != JStr("upm") && obj["unit"] != JStr("ups") then
      Err(NotImplemented(UnitText(obj["unit"])))
    else if "value" !in obj then Err(KeyError("value"))
    else
      match AsNumber(obj["value"])
      case Err(e) => Err(e)
      case Ok(v) => Ok(RateScalar(if obj["unit"] == JStr("ups") then 60.0 * v else v))
  }

  /** The intended `scalar_upm` reads back what `from_dict` stored. */
  function ScalarUpm(r: RateScalar): real
  {
    r.scalarUpm
  }

  /** The corrected class fails exactly where the one as written fails. */
  lemma SameErrorsAsWritten(obj: map<string, Json>)
    requires "value" in obj ==> AsNumber(obj["value"]).Ok?
    ensures FromDict(obj).Ok? <==> FromDictAsWritten(obj).Ok?
    ensures FromDict(obj).Err? ==> FromDict(obj).error == FromDictAsWritten(obj).error
  {
  }

  /** Where the two differ: a text value is kept as written (Python stores
      it, or repeats it sixty times for `"ups"`) but refused by the
      corrected class, which stores a number. */
  lemma TextValueRefused(obj: map<string, Json>, t: string)
    requires "unit" in obj && (obj["unit"] == JStr("upm") || obj["unit"] == JStr("ups"))
    requires "value" in obj && obj["value"] == JStr(t)
    ensures FromDictAsWritten(obj).Ok?
    ensures FromDict(obj) == Err(TypeError("not a number"))
  {
  }

  /** A rate per second is sixty times the same rate per minute. */
  lemma UpsIsSixtyUpm(x: real)
    ensures FromDict(map["unit" := JStr("ups"), "value" := JFloat(x)])
         == FromDict(map["unit" := JStr("upm"), "value" := JFloat(60.0 * x)])
    ensures ScalarUpm(FromDict(map["unit" := JStr("ups"), "value" := JFloat(x)]).value) == 60.0 * x
  {
    var ups := map["unit" := JStr("ups"), "value" := JFloat(x)];
    var upm := map["unit" := JStr("upm"), "value" := JFloat(60.0 * x)];
    assert ups["unit"] == JStr("ups") && ups["value"] == JFloat(x);
    assert upm["unit"] == JStr("upm") && upm["value"] == JFloat(60.0 * x);
  }
}
