/** `ecocalc/ProductionEntityGroup.py`: a named group of interchangeable
    production entities ("aliases"). */
module EcoEntityGroup {

  import opened Common
  import opened Text
  import opened Numbers

  datatype ProductionEntityGroup = ProductionEntityGroup(identifier: string, members: seq<string>)

  /** `from_list`: the serialised list is the member list, in its order. */
  function FromList(identifier: string, serialized: seq<string>): (g: ProductionEntityGroup)
    ensures g.identifier == identifier
    ensures |g.members| == |serialized| && forall k :: 0 <= k < |serialized| ==> g.members[k] == serialized[k]
  {
    ProductionEntityGroup(identifier, serialized)
  }

  /** `__repr__`: the identifier and the number of aliases. */
  function Repr(g: ProductionEntityGroup): string
  {
    g.identifier + " (" + IntText(|g.members|) + " aliases)"
  }

  /** The representation starts with the identifier, and the number written
      between the parenthesis and " aliases)" reads back as the group's size. */
  lemma ReprReportsAliasCount(g: ProductionEntityGroup)
    ensures var r := Repr(g);
      |g.identifier| + 2 <= |r| - 9
      && r[..|g.identifier|] == g.identifier
      && ParseInt(r[|g.identifier| + 2..|r| - 9]) == Ok(|g.members|)
  {
    var r := Repr(g);
    var n := IntText(|g.members|);
    assert r == g.identifier + " (" + n + " aliases)";
    assert r[|g.identifier| + 2..|r| - 9] == n;
    IntTextRoundTrip(|g.members|);
  }
}
