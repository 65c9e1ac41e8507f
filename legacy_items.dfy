/** `legacy/Items.py`: a signed multiset of items. Items compare by their
    lower-cased name; the counts live in a dictionary that keeps insertion
    order, never holds a zero count, and can be frozen against change. */
module LegacyItems {

  import opened Common
  import opened Seqs
  import Text

  /** An item; its `cmpkey` is its lower-cased name. */
  datatype Item = Item(name: string)

  /** The comparison key of an item. */
  function Key(x: Item): string
  {
    Text.Lower(x.name)
  }

  /** Two items are the same dictionary key exactly when their names agree
      letter for letter up to ASCII case. */
  lemma SameKey(x: Item, y: Item)
    requires |x.name| == |y.name|
    requires forall i :: 0 <= i < |x.name| ==> Text.LowerChar(x.name[i]) == Text.LowerChar(y.name[i])
    ensures Key(x) == Key(y)
  {
  }

  /** The counts dictionary's entries in insertion order. An entry keeps the
      item object under which its key was first added. */
  type Entries = seq<(Item, real)>

  function Keys(es: Entries): (ks: seq<string>)
    ensures |ks| == |es| && forall i :: 0 <= i < |es| ==> ks[i] == Key(es[i].0)
  {
    seq(|es|, i requires 0 <= i < |es| => Key(es[i].0))
  }

  /** What the dictionary guarantees: one entry per key, and no zero count. */
  predicate WellFormed(es: Entries)
  {
    Distinct(Keys(es)) && forall i :: 0 <= i < |es| ==> es[i].1 != 0.0
  }

  /** `__getitem__`: the count of an item, 0 when it has no entry. */
  function Count(es: Entries, x: Item): real
  {
    if es == [] then 0.0
    else if Key(es[0].0) == Key(x) then es[0].1
    else Count(es[1..], x)
  }

  /** `add` on the dictionary: the item's count grows by `c`; an entry whose
      count reaches 0 is deleted, and a key seen for the first time is
      appended. */
  function AddTo(es: Entries, c: real, x: Item): Entries
  {
    if es == [] then (if c == 0.0 then [] else [(x, c)])
    else if Key(es[0].0) == Key(x) then
      if es[0].1 + c == 0.0 then es[1..] else [(es[0].0, es[0].1 + c)] + es[1..]
    else [es[0]] + AddTo(es[1..], c, x)
  }

  /** `add_all` on the dictionary: `AddTo` with `c` times each count of
      `other`, in `other`'s order. */
  function AddAllTo(es: Entries, c: real, other: Entries): Entries
    decreases other
  {
    if other == [] then es
    else AddAllTo(AddTo(es, Times(c, other[0].1), other[0].0), c, other[1..])
  }

  /** The product `cardinality * item_cardinality`. */
  function Times(c: real, k: real): real
  {
    c * k
  }

  /** One half of `src_dest`: for the source side the negative counts,
      negated; for the destination side the other counts. */
  function Side(es: Entries, source: bool): Entries
  {
    if es == [] then [] else SideOf(es[0], source) + Side(es[1..], source)
  }

  function SideOf(e: (Item, real), source: bool): Entries
  {
    if source && e.1 < 0.0 then [(e.0, -e.1)]
    else if !source && e.1 >= 0.0 then [e]
    else []
  }

  lemma KeysTail(es: Entries)
    requires es != []
    ensures Keys(es) == [Key(es[0].0)] + Keys(es[1..])
  {
  }

  lemma DistinctTail(es: Entries)
    requires es != [] && Distinct(Keys(es))
    ensures Distinct(Keys(es[1..])) && Key(es[0].0) !in Keys(es[1..])
  {
    KeysTail(es);
  }

  lemma DistinctCons(e: (Item, real), es: Entries)
    requires Distinct(Keys(es)) && Key(e.0) !in Keys(es)
    ensures Distinct(Keys([e] + es))
  {
    KeysTail([e] + es);
    assert ([e] + es)[1..] == es;
  }

  /** An item without an entry has count 0. */
  lemma {:induction false} CountAbsent(es: Entries, x: Item)
    requires Key(x) !in Keys(es)
    ensures Count(es, x) == 0.0
  {
    if es != [] {
      KeysTail(es);
      CountAbsent(es[1..], x);
    }
  }

  /** The count of an item is the count stored at its entry. */
  lemma {:induction false} CountAt(es: Entries, i: nat, y: Item)
    requires Distinct(Keys(es)) && i < |es| && Key(es[i].0) == Key(y)
    ensures Count(es, y) == es[i].1
  {
    if i > 0 {
      DistinctTail(es);
      assert Keys(es)[0] != Keys(es)[i];
      CountAt(es[1..], i - 1, y);
    }
  }

  /** Every key after `add` is an old key or the added one. */
  lemma {:induction false} AddToKeys(es: Entries, c: real, x: Item)
    ensures forall k :: k in Keys(AddTo(es, c, x)) ==> k in Keys(es) || k == Key(x)
  {
    if es != [] {
      KeysTail(es);
      if Key(es[0].0) == Key(x) {
        if es[0].1 + c != 0.0 {
          KeysTail(AddTo(es, c, x));
        }
      } else {
        AddToKeys(es[1..], c, x);
        KeysTail(AddTo(es, c, x));
      }
    }
  }

  /** `add` keeps the dictionary well formed: one entry per key and no zero
      count. */
  lemma {:induction false} AddToWellFormed(es: Entries, c: real, x: Item)
    requires WellFormed(es)
    ensures WellFormed(AddTo(es, c, x))
  {
    if es != [] {
      DistinctTail(es);
      if Key(es[0].0) == Key(x) {
        if es[0].1 + c != 0.0 {
          DistinctCons((es[0].0, es[0].1 + c), es[1..]);
        }
      } else {
        AddToWellFormed(es[1..], c, x);
        AddToKeys(es[1..], c, x);
        DistinctCons(es[0], AddTo(es[1..], c, x));
      }
    }
  }

  /** `add` changes the count of the given item by exactly `c`, and no other
      count. */
  lemma {:induction false} AddToCount(es: Entries, c: real, x: Item, y: Item)
    requires Distinct(Keys(es))
    ensures Count(AddTo(es, c, x), y) == Count(es, y) + (if Key(y) == Key(x) then c else 0.0)
  {
    if es != [] {
      DistinctTail(es);
      if Key(es[0].0) != Key(x) {
        AddToCount(es[1..], c, x, y);
      } else if es[0].1 + c == 0.0 && Key(y) == Key(x) {
        CountAbsent(es[1..], y);
      }
    }
  }

  /** A key seen for the first time with a nonzero count is appended. */
  lemma {:induction false} AddToAbsent(es: Entries, c: real, x: Item)
    requires Key(x) !in Keys(es) && c != 0.0
    ensures AddTo(es, c, x) == es + [(x, c)]
  {
    if es != [] {
      KeysTail(es);
      AddToAbsent(es[1..], c, x);
      assert es == [es[0]] + es[1..];
    }
  }

  /** `add_all(c, other)` adds `c` times each of `other`'s counts. */
  lemma {:induction false} AddAllCount(es: Entries, c: real, other: Entries, y: Item)
    requires WellFormed(es) && Distinct(Keys(other))
    ensures WellFormed(AddAllTo(es, c, other))
    ensures Count(AddAllTo(es, c, other), y) == Count(es, y) + Times(c, Count(other, y))
    decreases other
  {
    if other != [] {
      var x, k := other[0].0, Times(c, other[0].1);
      var next := AddTo(es, k, x);
      AddToWellFormed(es, k, x);
      AddToCount(es, k, x, y);
      DistinctTail(other);
      AddAllCount(next, c, other[1..], y);
      if Key(x) == Key(y) {
        CountAbsent(other[1..], y);
        assert Count(other, y) == other[0].1;
      } else {
        assert Count(other, y) == Count(other[1..], y);
      }
    }
  }

  lemma {:induction false} SideAppend(a: Entries, b: Entries, source: bool)
    ensures Side(a + b, source) == Side(a, source) + Side(b, source)
  {
    if a != [] {
      assert (a + b)[0] == a[0] && (a + b)[1..] == a[1..] + b;
      SideAppend(a[1..], b, source);
      calc {
        Side(a + b, source);
        SideOf(a[0], source) + Side(a[1..] + b, source);
        SideOf(a[0], source) + (Side(a[1..], source) + Side(b, source));
        (SideOf(a[0], source) + Side(a[1..], source)) + Side(b, source);
      }
    } else {
      assert a + b == b;
    }
  }

  /** Every key of a side is a key of the whole. */
  lemma {:induction false} SideKeys(es: Entries, source: bool)
    ensures forall k :: k in Keys(Side(es, source)) ==> k in Keys(es)
  {
    if es != [] {
      KeysTail(es);
      SideKeys(es[1..], source);
      if SideOf(es[0], source) != [] {
        KeysTail(Side(es, source));
      }
    }
  }

  /** The share of a count that goes to one side of `src_dest`. */
  function Share(c: real, source: bool): real
  {
    if source then (if c < 0.0 then -c else 0.0) else (if c > 0.0 then c else 0.0)
  }

  /** Each side is well formed, holds positive counts only, and holds for
      every item its share of the item's count. */
  lemma SideSpec(es: Entries, source: bool, y: Item)
    requires WellFormed(es)
    ensures WellFormed(Side(es, source))
    ensures forall i :: 0 <= i < |Side(es, source)| ==> Side(es, source)[i].1 > 0.0
    ensures Count(Side(es, source), y) == Share(Count(es, y), source)
  {
    SideWellFormed(es, source);
    SideCount(es, source, y);
  }

  lemma {:induction false} SideWellFormed(es: Entries, source: bool)
    requires WellFormed(es)
    ensures WellFormed(Side(es, source))
    ensures forall i :: 0 <= i < |Side(es, source)| ==> Side(es, source)[i].1 > 0.0
  {
    if es != [] {
      var e := es[0];
      DistinctTail(es);
      assert WellFormed(es[1..]);
      SideWellFormed(es[1..], source);
      SideKeys(es[1..], source);
      var rest := Side(es[1..], source);
      if SideOf(e, source) != [] {
        DistinctCons(SideOf(e, source)[0], rest);
        assert Side(es, source)[0] == SideOf(e, source)[0] && Side(es, source)[1..] == rest;
      } else {
        assert Side(es, source) == rest;
      }
    }
  }

  lemma {:induction false} SideCount(es: Entries, source: bool, y: Item)
    requires WellFormed(es)
    ensures Count(Side(es, source), y) == Share(Count(es, y), source)
  {
    if es != [] {
      var e := es[0];
      DistinctTail(es);
      SideCount(es[1..], source, y);
      var rest := Side(es[1..], source);
      if SideOf(e, source) != [] {
        assert Side(es, source)[0] == SideOf(e, source)[0] && Side(es, source)[1..] == rest;
      } else {
        assert Side(es, source) == rest;
      }
      if Key(e.0) == Key(y) {
        CountAbsent(es[1..], y);
      }
    }
  }

  /** `src_dest`: the source side holds exactly the negated negative counts
      and the destination side exactly the positive counts; both are well
      formed with positive counts, no item is on both sides, and
      `dest - src` gives back every original count. */
  lemma SrcDestSplit(es: Entries, y: Item)
    requires WellFormed(es)
    ensures WellFormed(Side(es, true)) && WellFormed(Side(es, false))
    ensures forall i :: 0 <= i < |Side(es, true)| ==> Side(es, true)[i].1 > 0.0
    ensures forall i :: 0 <= i < |Side(es, false)| ==> Side(es, false)[i].1 > 0.0
    ensures Count(Side(es, true), y) == 0.0 || Count(Side(es, false), y) == 0.0
    ensures Count(Side(es, false), y) - Count(Side(es, true), y) == Count(es, y)
  {
    SideSpec(es, true, y);
    SideSpec(es, false, y);
  }

  /** One more entry of a well-formed dictionary extends each side by that
      entry's share, under a key the side does not hold yet. */
  lemma SideStep(es: Entries, i: nat, source: bool)
    requires WellFormed(es) && i < |es|
    ensures Side(es[..i + 1], source) == Side(es[..i], source) + SideOf(es[i], source)
    ensures Key(es[i].0) !in Keys(Side(es[..i], source))
  {
    assert es[..i + 1] == es[..i] + [es[i]];
    SideAppend(es[..i], [es[i]], source);
    SideKeys(es[..i], source);
    assert Keys(es[..i]) == Keys(es)[..i];
  }

  /** What one more entry does to the two sides: a negative count goes,
      negated, to the source side and any other count to the destination
      side. */
  lemma SplitStep(es: Entries, i: nat)
    requires WellFormed(es) && i < |es|
    ensures es[i].1 < 0.0 ==> Side(es[..i + 1], true) == AddTo(Side(es[..i], true), -es[i].1, es[i].0)
    ensures es[i].1 < 0.0 ==> Side(es[..i + 1], false) == Side(es[..i], false)
    ensures es[i].1 >= 0.0 ==> Side(es[..i + 1], true) == Side(es[..i], true)
    ensures es[i].1 >= 0.0 ==> Side(es[..i + 1], false) == AddTo(Side(es[..i], false), es[i].1, es[i].0)
  {
    SideStep(es, i, true);
    SideStep(es, i, false);
    AddToAbsent(Side(es[..i], true), -es[i].1, es[i].0);
    AddToAbsent(Side(es[..i], false), es[i].1, es[i].0);
  }

  /** The loop of `src_dest`: adds each negative entry, negated, to a new
      source object and every other entry to a new destination object. */
  method Split(es: Entries) returns (src: Items, dest: Items)
    requires WellFormed(es)
    ensures fresh(src) && fresh(dest) && src != dest && !src.frozen && !dest.frozen
    ensures src.entries == Side(es, true) && dest.entries == Side(es, false)
  {
    src := new Items();
    dest := new Items();
    for i := 0 to |es|
      invariant !src.frozen && !dest.frozen
      invariant src.entries == Side(es[..i], true) && dest.entries == Side(es[..i], false)
    {
      SplitStep(es, i);
      var x, c := es[i].0, es[i].1;
      var err;
      if c < 0.0 {
        err := src.Add(-c, x);
      } else {
        err := dest.Add(c, x);
      }
    }
    assert es[..|es|] == es;
  }

  /** The `Items` object: its counts and whether it is frozen. */
  class Items {
    var entries: Entries
    var frozen: bool

    predicate Valid()
      reads this
    {
      WellFormed(entries)
    }

    constructor()
      ensures entries == [] && !frozen && Valid()
    {
      entries := [];
      frozen := false;
    }

    /** `__getitem__`. */
    function Get(x: Item): real
      reads this
    {
      Count(entries, x)
    }

    /** `__len__`: the number of entries; zero exactly when every count is 0. */
    function Len(): (n: nat)
      reads this
      ensures Valid() ==> (n == 0 <==> forall y :: Get(y) == 0.0)
    {
      if entries != [] then
        assert Valid() ==> Get(entries[0].0) != 0.0;
        |entries|
      else 0
    }

    /** `add`: fails on a frozen object and otherwise changes one count. */
    method Add(c: real, x: Item) returns (err: Option<Error>)
      modifies this
      ensures frozen == old(frozen)
      ensures old(frozen) ==> err == Some(AssertionFailed) && entries == old(entries)
      ensures !old(frozen) ==> err == None && entries == AddTo(old(entries), c, x)
      ensures old(Valid()) ==> Valid()
    {
      if frozen {
        return Some(AssertionFailed);
      }
      if Valid() {
        AddToWellFormed(entries, c, x);
      }
      entries := AddTo(entries, c, x);
      return None;
    }

    /** `add_all`: `add` of `c` times each of `other`'s counts, stopping at
        the first failure. */
    method AddAll(c: real, other: Items) returns (err: Option<Error>)
      requires other != this
      modifies this
      ensures frozen == old(frozen)
      ensures old(frozen) && other.entries != [] ==> err == Some(AssertionFailed) && entries == old(entries)
      ensures !old(frozen) || other.entries == [] ==> err == None && entries == AddAllTo(old(entries), c, other.entries)
    {
      var i := 0;
      while i < |other.entries|
        invariant 0 <= i <= |other.entries| && frozen == old(frozen)
        invariant frozen ==> i == 0 && entries == old(entries)
        invariant AddAllTo(entries, c, other.entries[i..]) == AddAllTo(old(entries), c, other.entries)
      {
        ghost var before := entries;
        err := Add(Times(c, other.entries[i].1), other.entries[i].0);
        if err.Some? {
          return;
        }
        assert other.entries[i..][0] == other.entries[i] && other.entries[i..][1..] == other.entries[i + 1..];
        i := i + 1;
      }
      return None;
    }

    method Freeze()
      modifies this
      ensures frozen && entries == old(entries)
    {
      frozen := true;
    }

    /** `item`: the single item of an object with exactly one entry. */
    function TheItem(): (r: Result<Item>)
      reads this
      ensures r.Ok? <==> |entries| == 1
      ensures r.Err? ==> r.error == AssertionFailed
      ensures r.Ok? ==> Keys(entries) == [Key(r.value)]
    {
      if |entries| == 1 then Ok(entries[0].0) else Err(AssertionFailed)
    }

    /** `src_dest`: two fresh, frozen objects holding the two sides. */
    method SrcDest() returns (src: Items, dest: Items)
      requires Valid()
      ensures fresh(src) && fresh(dest) && src != dest
      ensures src.frozen && dest.frozen && src.Valid() && dest.Valid()
      ensures src.entries == Side(entries, true) && dest.entries == Side(entries, false)
    {
      src, dest := Split(entries);
      SrcDestSplit(entries, Item([]));
      src.Freeze();
      dest.Freeze();
    }
  }
}
