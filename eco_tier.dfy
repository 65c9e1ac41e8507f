/** `ecocalc/Tier.py`: a progress tier, given by the set of production entity
    tags it enables, with a back-reference to the economy it belongs to. */
module EcoTier {

  import opened Text

  class Tier {
    const enabledTags: set<string>
    /** The economy the tier is attached to, `None` until set. */
    var economy: object?

    constructor(enabledTags: set<string>)
      ensures this.enabledTags == enabledTags && economy == null
    {
      this.enabledTags := enabledTags;
      economy := null;
    }

    /** The `economy` property setter. */
    method SetEconomy(value: object?)
      modifies this
      ensures economy == value
    {
      economy := value;
    }

    /** `from_dict`: the tier spelled "tag1 + tag2 + ...". */
    static method FromDict(serialized: string) returns (t: Tier)
      ensures fresh(t) && t.enabledTags == TagsOf(serialized) && t.economy == null
    {
      t := new Tier(TagsOf(serialized));
    }
  }

  /** The set of images of the pieces under `f`: Python's `set(f(p) for p in parts)`. */
  function ImageSet(parts: seq<string>, f: string -> string): set<string>
  {
    if parts == [] then {} else {f(parts[0])} + ImageSet(parts[1..], f)
  }

  /** The tags of a serialised tier: every `+`-separated piece, stripped. */
  function TagsOf(serialized: string): set<string>
  {
    ImageSet(Split(serialized, '+'), Strip)
  }

  lemma {:induction false} ImageSetMembers(parts: seq<string>, f: string -> string)
    ensures forall t :: t in ImageSet(parts, f) <==> exists k :: 0 <= k < |parts| && f(parts[k]) == t
    ensures |ImageSet(parts, f)| <= |parts|
  {
    if parts != [] {
      var rest := parts[1..];
      ImageSetMembers(rest, f);
      forall t | t in ImageSet(rest, f)
        ensures exists k :: 0 <= k < |parts| && f(parts[k]) == t
      {
        var k :| 0 <= k < |rest| && f(rest[k]) == t;
        assert parts[k + 1] == rest[k];
      }
      forall t | (exists k :: 0 <= k < |parts| && f(parts[k]) == t) && t != f(parts[0])
        ensures t in ImageSet(rest, f)
      {
        var k :| 0 <= k < |parts| && f(parts[k]) == t;
        assert k > 0 && rest[k - 1] == parts[k];
      }
    }
  }

  /** A tag is enabled exactly when it is one of the stripped `+`-separated
      pieces, and there are at most as many tags as `+` signs plus one. */
  lemma TagsOfMembers(serialized: string)
    ensures forall t :: t in TagsOf(serialized) <==>
      exists k :: 0 <= k < |Split(serialized, '+')| && Strip(Split(serialized, '+')[k]) == t
    ensures |TagsOf(serialized)| <= Count(serialized, '+') + 1
  {
    ImageSetMembers(Split(serialized, '+'), Strip);
    SplitCount(serialized, '+');
  }

  /** A tier without `+` enables exactly its one stripped tag. */
  lemma SingleTag(serialized: string)
    requires '+' !in serialized
    ensures TagsOf(serialized) == {Strip(serialized)}
  {
    SplitWithoutSeparator(serialized, '+');
    var parts := Split(serialized, '+');
    assert parts == [serialized];
    assert ImageSet(parts[1..], Strip) == {};
  }

  lemma ImageSetPair(x: string, y: string, f: string -> string)
    ensures ImageSet([x, y], f) == {f(x), f(y)}
  {
    assert [x, y][1..] == [y];
    assert [y][1..] == [];
    assert ImageSet([y], f) == {f(y)} + ImageSet([], f);
  }

  /** Repeating a tag, or spacing it differently, enables nothing more. */
  lemma RepeatedTag(a: string, b: string)
    requires '+' !in a && '+' !in b && Strip(a) == Strip(b)
    ensures TagsOf(a + "+" + b) == {Strip(a)}
  {
    SplitOnce(a, b, '+');
    ImageSetPair(a, b, Strip);
  }
}
