/** `ecocalc/Resource.py`: a resource of the economy, its display name
    defaulting to its identifier. */
module EcoResource {

  import opened Common
  import opened Json

  datatype Resource = Resource(identifier: string, name: string)

  /** The constructor: the display name is the identifier unless one is given. */
  function NewResource(identifier: string, name: Option<string>): (r: Resource)
    ensures r.identifier == identifier
    ensures r.name == if name.Some? then name.value else identifier
  {
    Resource(identifier, if name.Some? then name.value else identifier)
  }

  /** `from_dict`: the optional `"name"` key of the serialised object. A name
      that is not a JSON string is refused (the Python code would keep it). */
  function FromDict(identifier: string, obj: map<string, Json>): (r: Result<Resource>)
    ensures GetOptional(obj, "name").None? ==> r == Ok(NewResource(identifier, None))
  {
    match GetOptional(obj, "name")
    case None => Ok(NewResource(identifier, None))
    case Some(v) =>
      match AsString(v)
      case Ok(s) => Ok(NewResource(identifier, Some(s)))
      case Err(e) => Err(e)
  }

  /** `__repr__`. */
  function Repr(r: Resource): string
  {
    r.name
  }

  /** Without a `"name"` key, the resource is displayed by its identifier. */
  lemma FromDictWithoutName(identifier: string, obj: map<string, Json>)
    requires "name" !in obj
    ensures FromDict(identifier, obj).Ok?
    ensures FromDict(identifier, obj).value.name == identifier
    ensures Repr(FromDict(identifier, obj).value) == identifier
  {
  }

  /** A given name is kept unchanged, and it is what the resource displays as. */
  lemma FromDictWithName(identifier: string, obj: map<string, Json>, name: string)
    requires "name" in obj && obj["name"] == JStr(name)
    ensures FromDict(identifier, obj) == Ok(Resource(identifier, name))
    ensures Repr(FromDict(identifier, obj).value) == name
  {
  }
}
