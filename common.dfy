/** Failure-carrying wrappers shared by every generation of the calculator,
    and the kinds of exception the Python code raises. */
module Common {

  datatype Option<+T> = None | Some(value: T)

  /** The exceptions the modelled code raises, by kind. */
  datatype Error =
    | KeyError(key: string)
    | ValueError(what: string)
    | IndexError
    | AttributeError(attribute: string)
    | TypeError(what: string)
    | NotImplemented(what: string)
    | ZeroDivision
    | AssertionFailed
    | ParseError(what: string)
    | DuplicateResourceName(names: set<string>)
    | UnknownResource(names: set<string>)
    | UnknownProductionEntity(identifier: string)
    | FloatValue(text: string)   // a path that leaves exact arithmetic for a Python float

  datatype Result<+T> = Ok(value: T) | Err(error: Error)

  /** Python's `seq[i]` for a list of length `len`: negative indices count from the end. */
  function PyIndex(len: nat, i: int): (r: Option<nat>)
    ensures r.Some? <==> -(len as int) <= i < len
    ensures r.Some? ==> r.value < len && (r.value == i || r.value == len + i)
  {
    if 0 <= i < len then Some(i)
    else if -(len as int) <= i < 0 then Some(len + i)
    else None
  }
}
