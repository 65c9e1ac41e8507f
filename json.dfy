/** The deserialised JSON values the calculator is configured with, and
    Python's `fractions.Fraction(value)` on each kind of value. */
module Json {

  import opened Common
  import opened Text
  import opened Numbers

  /** A JSON value as `json.load` returns it. A JSON float is carried by the
      exact binary value of the Python `float` it denotes. */
  datatype Json =
    | JNull
    | JBool(b: bool)
    | JInt(i: int)
    | JFloat(x: real)
    | JStr(s: string)
    | JList(items: seq<Json>)
    | JObject(fields: map<string, Json>)

  /** Python's `d[key]`. */
  function Get(d: map<string, Json>, key: string): (r: Result<Json>)
    ensures r.Ok? <==> key in d
    ensures r.Ok? ==> r.value == d[key]
    ensures r.Err? ==> r.error == KeyError(key)
  {
    if key in d then Ok(d[key]) else Err(KeyError(key))
  }

  /** Python's `d.get(key)`: `None` (or a stored `null`) when absent. */
  function GetOptional(d: map<string, Json>, key: string): (r: Option<Json>)
    ensures r.None? <==> key !in d || d[key] == JNull
    ensures r.Some? ==> r.value == d[key]
  {
    if key in d && d[key] != JNull then Some(d[key]) else None
  }

  /** `fractions.Fraction(value)`: exact for integers, booleans and floats,
      parsed for strings, a `TypeError` for anything else. */
  function FractionOf(v: Json): (r: Result<real>)
    ensures v.JInt? ==> r == Ok(v.i as real)
    ensures v.JFloat? ==> r == Ok(v.x)
    ensures v.JStr? ==> r == ParseFraction(v.s)
    ensures (v.JNull? || v.JList? || v.JObject?) ==> r.Err? && r.error.TypeError?
  {
    match v
    case JBool(b) => Ok(if b then 1.0 else 0.0)
    case JInt(i) => Ok(i as real)
    case JFloat(x) => Ok(x)
    case JStr(s) => ParseFraction(s)
    case _ => Err(TypeError("argument should be a string or a Rational instance"))
  }

  /** A JSON number (or boolean, which Python treats as 0 or 1) as an exact value. */
  function AsNumber(v: Json): (r: Result<real>)
    ensures r.Ok? <==> v.JInt? || v.JFloat? || v.JBool?
    ensures r.Ok? ==> FractionOf(v) == r
  {
    match v
    case JInt(i) => Ok(i as real)
    case JFloat(x) => Ok(x)
    case JBool(b) => Ok(if b then 1.0 else 0.0)
    case _ => Err(TypeError("not a number"))
  }

  /** Python's `key in container` for a text key: a key of an object, an
      element equal to the text in a list, a substring of a string. Numbers,
      booleans and `null` are not containers and raise `TypeError`. */
  function Contains(container: Json, key: string): (r: Result<bool>)
    ensures container.JObject? ==> r == Ok(key in container.fields)
    ensures container.JList? ==> r == Ok(JStr(key) in container.items)
    ensures container.JStr? ==> (r == Ok(true) <==> exists j :: 0 <= j <= |container.s| && OccursAt(container.s, key, j))
    ensures r.Err? <==> container.JNull? || container.JBool? || container.JInt? || container.JFloat?
    ensures r.Err? ==> r.error.TypeError?
  {
    match container
    case JObject(fields) => Ok(key in fields)
    case JList(items) => Ok(JStr(key) in items)
    case JStr(s) => Ok(Find(s, key).Some?)
    case _ => Err(TypeError("argument is not iterable"))
  }

  /** A JSON string, as the fields that hold names and identifiers need. */
  function AsString(v: Json): (r: Result<string>)
    ensures r.Ok? <==> v.JStr?
  {
    if v.JStr? then Ok(v.s) else Err(TypeError("not a string"))
  }
}
