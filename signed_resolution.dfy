/** `RecipeResolution.py` of the top-level generation: a sum recipe together
    with how much of each of the economy's recipes was substituted into it.
    Applying a substitution copies the record; `recurse` walks every way of
    substituting producing recipes for ingredients, depth first. */
module SignedResolution {

  import opened Common
  import opened Seqs
  import opened SignedRecipe
  import opened SignedResolver

  /** The sum recipe and the substitutions dictionary's items, in the order
      the indices were first inserted. */
  datatype Resolution = Resolution(sumRecipe: Recipe, substitutions: seq<(int, real)>)

  /** The keys of a dictionary's items. */
  function Keys(items: seq<(int, real)>): (ks: seq<int>)
    ensures |ks| == |items| && forall j :: 0 <= j < |items| ==> ks[j] == items[j].0
  {
    seq(|items|, j requires 0 <= j < |items| => items[j].0)
  }

  /** `dict.get(index, 0)`. */
  function Get(items: seq<(int, real)>, index: int): real
  {
    if items == [] then 0.0
    else if items[0].0 == index then items[0].1
    else Get(items[1..], index)
  }

  /** `dict[index] = value`: replaces the value of a present key in place,
      otherwise inserts the key at the end. */
  function Put(items: seq<(int, real)>, index: int, value: real): seq<(int, real)>
  {
    if items == [] then [(index, value)]
    else if items[0].0 == index then [(index, value)] + items[1..]
    else [items[0]] + Put(items[1..], index, value)
  }

  /** The keys of one item followed by more items. */
  lemma KeysCons(x: (int, real), rest: seq<(int, real)>)
    ensures Keys([x] + rest) == [x.0] + Keys(rest)
  {
    assert Keys([x] + rest)[1..] == Keys(rest);
  }

  /** `dict[index] = value` keeps the keys in place and appends a new key. */
  lemma {:induction false} PutKeys(items: seq<(int, real)>, index: int, value: real)
    ensures Keys(Put(items, index, value)) == if index in Keys(items) then Keys(items) else Keys(items) + [index]
  {
    if items != [] {
      assert items == [items[0]] + items[1..];
      KeysCons(items[0], items[1..]);
      if items[0].0 != index {
        PutKeys(items[1..], index, value);
        KeysCons(items[0], Put(items[1..], index, value));
      } else {
        KeysCons((index, value), items[1..]);
      }
    }
  }

  /** After `dict[index] = value` the key maps to `value` and every other key
      keeps its value. */
  lemma {:induction false} PutGet(items: seq<(int, real)>, index: int, value: real, other: int)
    ensures Get(Put(items, index, value), index) == value
    ensures other != index ==> Get(Put(items, index, value), other) == Get(items, other)
  {
    if items != [] && items[0].0 != index {
      PutGet(items[1..], index, value, other);
    }
  }

  /** `dict[index] = value` keeps the keys distinct. */
  lemma PutDistinct(items: seq<(int, real)>, index: int, value: real)
    requires Distinct(Keys(items))
    ensures Distinct(Keys(Put(items, index, value)))
  {
    PutKeys(items, index, value);
  }

  /** `substitutions[index] = substitutions.get(index, 0) + scalar`. */
  function Substitute(items: seq<(int, real)>, index: int, scalar: real): seq<(int, real)>
  {
    Put(items, index, Get(items, index) + scalar)
  }

  lemma SubstituteSpec(items: seq<(int, real)>, index: int, scalar: real, other: int)
    requires Distinct(Keys(items))
    ensures var s := Substitute(items, index, scalar);
      && Distinct(Keys(s))
      && Get(s, index) == Get(items, index) + scalar
      && (other != index ==> Get(s, other) == Get(items, other))
  {
    var v := Get(items, index) + scalar;
    PutGet(items, index, v, other);
    PutDistinct(items, index, v);
  }

  /** Substituting an index other than the first key leaves the first item. */
  lemma SubstituteTail(items: seq<(int, real)>, index: int, scalar: real)
    requires items != [] && items[0].0 != index
    ensures Substitute(items, index, scalar) == [items[0]] + Substitute(items[1..], index, scalar)
  {
    assert Get(items, index) == Get(items[1..], index);
  }

  /** `__init__`: a recipe with nothing substituted yet. */
  function Start(recipe: Recipe): (r: Resolution)
    ensures r.sumRecipe == recipe && |r.substitutions| == 0
  {
    Resolution(recipe, [])
  }

  /** `clone`: a record with the same sum recipe and a copy of the
      substitutions; being a value, it shares nothing with the original that a
      later change to either could reach. */
  function Clone(r: Resolution): (c: Resolution)
    ensures c.sumRecipe == r.sumRecipe && Keys(c.substitutions) == Keys(r.substitutions)
    ensures forall k :: Get(c.substitutions, k) == Get(r.substitutions, k)
  {
    Resolution(r.sumRecipe, r.substitutions[..])
  }

  /** `apply`: a copy in which the reference's recipe, scaled so that it makes
      `sourceScalar` over its count, is added to the sum recipe and to the
      substitution of its index. A zero count divides by zero; a recipe whose
      rate flag differs from the sum's fails the addition's assertion. */
  function Apply(r: Resolution, ref: RecipeRef, sourceScalar: real): (res: Result<Resolution>)
    ensures ref.count == 0.0 ==> res == Err(ZeroDivision)
    ensures ref.count != 0.0 ==> (res.Err? <==> r.sumRecipe.isRate != ref.recipe.isRate)
    ensures res.Err? ==> res.error == ZeroDivision || res.error == AssertionFailed
    ensures res.Ok? ==> forall k :: k in Keys(r.substitutions) ==> k in Keys(res.value.substitutions)
    ensures res.Ok? ==> ref.index in Keys(res.value.substitutions)
    ensures res.Ok? ==> res.value.substitutions == Substitute(r.substitutions, ref.index, sourceScalar / ref.count)
  {
    if ref.count == 0.0 then Err(ZeroDivision)
    else
      var scalar := sourceScalar / ref.count;
      PutKeys(r.substitutions, ref.index, Get(r.substitutions, ref.index) + scalar);
      var scaled := Mul(ref.recipe, scalar);
      assert scaled.isRate == ref.recipe.isRate;
      var sum := Add(r.sumRecipe, scaled);
      assert sum.Err? <==> r.sumRecipe.isRate != ref.recipe.isRate;
      if sum.Err? then Err(sum.error)
      else Ok(Resolution(sum.value, Substitute(r.substitutions, ref.index, scalar)))
  }

  /** What an application does to the substitutions: the reference's index
      grows by `sourceScalar / count`, every other index keeps its
      substitution, and the keys stay distinct. */
  lemma ApplySubstitutions(r: Resolution, ref: RecipeRef, sourceScalar: real, other: int)
    requires Distinct(Keys(r.substitutions)) && Apply(r, ref, sourceScalar).Ok?
    ensures var s := Apply(r, ref, sourceScalar).value.substitutions;
      && Distinct(Keys(s))
      && Get(s, ref.index) == Get(r.substitutions, ref.index) + sourceScalar / ref.count
      && (other != ref.index ==> Get(s, other) == Get(r.substitutions, other))
  {
    SubstituteSpec(r.substitutions, ref.index, sourceScalar / ref.count, other);
  }

  /** What an application does to the sum recipe: it nets out to the old sum
      plus the reference's recipe scaled by `sourceScalar / count`. */
  lemma ApplyNet(r: Resolution, ref: RecipeRef, sourceScalar: real, n: string)
    requires Apply(r, ref, sourceScalar).Ok?
    ensures Net(Apply(r, ref, sourceScalar).value.sumRecipe, n)
      == Net(r.sumRecipe, n) + Net(Mul(ref.recipe, sourceScalar / ref.count), n)
  {
    AddNet(r.sumRecipe, Mul(ref.recipe, sourceScalar / ref.count), n);
  }

  /** When the reference's count is what its recipe yields of `item`, the
      application yields exactly `sourceScalar` of `item`: applying with an
      ingredient's count cancels that ingredient. */
  lemma ApplyCancels(ref: RecipeRef, sourceScalar: real, item: string)
    requires ref.count != 0.0 && ref.count == Net(ref.recipe, item)
    ensures Net(Mul(ref.recipe, sourceScalar / ref.count), item) == sourceScalar
  {
    MulNet(ref.recipe, sourceScalar / ref.count, item);
    Quotient(sourceScalar, ref.count);
  }

  lemma Quotient(a: real, c: real)
    requires c != 0.0
    ensures (a / c) * c == a
  {
  }

  /** Strictly ascending, stated between neighbours. */
  predicate Ascending(s: seq<int>)
  {
    forall i :: 0 < i < |s| ==> s[i - 1] < s[i]
  }

  /** Neighbourwise ascending is ascending between any two positions. */
  lemma {:induction false} AscendingAll(s: seq<int>, i: int, j: int)
    requires Ascending(s) && 0 <= i < j < |s|
    ensures s[i] < s[j]
    decreases j - i
  {
    if i + 1 < j {
      AscendingAll(s, i + 1, j);
    }
  }

  /** Inserts a key into an ascending list, before the first larger key. */
  function Insert(x: int, sorted: seq<int>): (r: seq<int>)
    requires Ascending(sorted) && x !in sorted
    ensures Ascending(r) && |r| == |sorted| + 1
    ensures forall k :: k in r <==> k == x || k in sorted
    ensures r != [] && (r[0] == x || (sorted != [] && r[0] == sorted[0]))
  {
    if sorted == [] then [x]
    else if x < sorted[0] then [x] + sorted
    else
      var rest := Insert(x, sorted[1..]);
      assert sorted[0] < rest[0] by {
        if rest[0] != x {
          AscendingAll(sorted, 0, 1);
        }
      }
      assert sorted == [sorted[0]] + sorted[1..];
      [sorted[0]] + rest
  }

  /** `sorted(dict.items())`, by key: the keys in ascending order. */
  function SortKeys(ks: seq<int>): (r: seq<int>)
    requires Distinct(ks)
    ensures Ascending(r) && |r| == |ks|
    ensures forall k :: k in r <==> k in ks
  {
    if ks == [] then []
    else
      var m := |ks| - 1;
      assert ks == ks[..m] + [ks[m]];
      Insert(ks[m], SortKeys(ks[..m]))
  }

  /** `__iter__`: the economy's recipe of every substituted index, scaled by
      its substitution, in ascending index order. `recipeAt` stands for
      `eco[index]`, an indexing that Economy.py does not define. */
  function Iter(r: Resolution, recipeAt: int -> Recipe): (rs: seq<Recipe>)
    requires Distinct(Keys(r.substitutions))
  {
    var sorted := SortKeys(Keys(r.substitutions));
    seq(|sorted|, j requires 0 <= j < |sorted| => Mul(recipeAt(sorted[j]), Get(r.substitutions, sorted[j])))
  }

  /** The iteration visits every substituted index once, in ascending order,
      each recipe scaled by its own substitution. */
  lemma IterSpec(r: Resolution, recipeAt: int -> Recipe, i: int, j: int)
    requires Distinct(Keys(r.substitutions))
    ensures var sorted := SortKeys(Keys(r.substitutions));
      && |Iter(r, recipeAt)| == |r.substitutions|
      && (forall k :: k in sorted <==> k in Keys(r.substitutions))
      && (0 <= i < j < |sorted| ==> sorted[i] < sorted[j])
      && (0 <= i < |sorted| ==> Iter(r, recipeAt)[i] == Mul(recipeAt(sorted[i]), Get(r.substitutions, sorted[i])))
  {
    var sorted := SortKeys(Keys(r.substitutions));
    if 0 <= i < j < |sorted| {
      AscendingAll(sorted, i, j);
    }
  }

  /** `recurse`, up to `fuel` levels of substitution: yields `r` itself, then,
      for every ingredient of its sum recipe in order and every candidate
      recipe producing it in order, everything the application of that
      candidate recurses into. An application that fails ends the walk with
      its error after what was yielded so far. `candidates` stands for
      `eco.get_recipes_that_produce`, which Economy.py does not define. */
  function Recurse(r: Resolution, candidates: string -> seq<RecipeRef>, fuel: nat): (out: (seq<Resolution>, Option<Error>))
    ensures |out.0| >= 1 && out.0[0] == r
    ensures forall y, k :: y in out.0 && k in Keys(r.substitutions) ==> k in Keys(y.substitutions)
    decreases fuel, 0, 0
  {
    if fuel == 0 then ([r], None)
    else
      var rest := RecurseItems(r, r.sumRecipe.inputs, candidates, fuel - 1);
      ([r] + rest.0, rest.1)
  }

  /** The walk over the ingredients `items` of `r`'s sum recipe. */
  function RecurseItems(r: Resolution, items: seq<Resource>, candidates: string -> seq<RecipeRef>, fuel: nat): (out: (seq<Resolution>, Option<Error>))
    ensures forall y, k :: y in out.0 && k in Keys(r.substitutions) ==> k in Keys(y.substitutions)
    decreases fuel, 2, |items|
  {
    if items == [] then ([], None)
    else
      var first := RecurseRefs(r, items[0], candidates(items[0].name), candidates, fuel);
      if first.1.Some? then first
      else
        var rest := RecurseItems(r, items[1..], candidates, fuel);
        (first.0 + rest.0, rest.1)
  }

  /** The walk over the candidate recipes `refs` producing ingredient `item`. */
  function RecurseRefs(r: Resolution, item: Resource, refs: seq<RecipeRef>, candidates: string -> seq<RecipeRef>, fuel: nat): (out: (seq<Resolution>, Option<Error>))
    ensures forall y, k :: y in out.0 && k in Keys(r.substitutions) ==> k in Keys(y.substitutions)
    decreases fuel, 1, |refs|
  {
    if refs == [] then ([], None)
    else
      match Apply(r, refs[0], item.count)
      case Err(e) => ([], Some(e))
      case Ok(substituted) =>
        var first := Recurse(substituted, candidates, fuel);
        if first.1.Some? then first
        else
          var rest := RecurseRefs(r, item, refs[1..], candidates, fuel);
          (first.0 + rest.0, rest.1)
  }

  /** What the substitutions contribute to the sum recipe's net amount of
      `n`: every substituted index's recipe scaled by its substitution, in
      insertion order. `recipeAt` stands for `eco[index]`. */
  function SubstitutedNet(items: seq<(int, real)>, recipeAt: int -> Recipe, n: string): real
  {
    if items == [] then 0.0
    else Net(Mul(recipeAt(items[0].0), items[0].1), n) + SubstitutedNet(items[1..], recipeAt, n)
  }

  /** Scaling by a sum nets out to the sum of the scalings. */
  lemma MulSplit(r: Recipe, a: real, b: real, n: string)
    ensures Net(Mul(r, a + b), n) == Net(Mul(r, a), n) + Net(Mul(r, b), n)
  {
    MulNet(r, a + b, n);
    MulNet(r, a, n);
    MulNet(r, b, n);
    Distributes(a, b, Net(r, n));
  }

  lemma Distributes(a: real, b: real, x: real)
    ensures (a + b) * x == a * x + b * x
  {
  }

  /** Adding `scalar` to the substitution of `index` adds that index's recipe
      scaled by `scalar` to what the substitutions contribute. */
  lemma {:induction false} SubstituteNet(items: seq<(int, real)>, index: int, scalar: real, recipeAt: int -> Recipe, n: string)
    ensures SubstitutedNet(Substitute(items, index, scalar), recipeAt, n)
      == SubstitutedNet(items, recipeAt, n) + Net(Mul(recipeAt(index), scalar), n)
  {
    if items == [] {
      assert Substitute(items, index, scalar) == [(index, 0.0 + scalar)];
    } else if items[0].0 == index {
      SubstituteFirst(items, index, scalar, recipeAt, n);
    } else {
      SubstituteNet(items[1..], index, scalar, recipeAt, n);
      SubstituteLater(items, index, scalar, recipeAt, n);
    }
  }

  /** `SubstituteNet` when the index is the first key. */
  lemma SubstituteFirst(items: seq<(int, real)>, index: int, scalar: real, recipeAt: int -> Recipe, n: string)
    requires items != [] && items[0].0 == index
    ensures SubstitutedNet(Substitute(items, index, scalar), recipeAt, n)
      == SubstitutedNet(items, recipeAt, n) + Net(Mul(recipeAt(index), scalar), n)
  {
    var t := [(index, items[0].1 + scalar)] + items[1..];
    assert Substitute(items, index, scalar) == t;
    assert t[1..] == items[1..];
    MulSplit(recipeAt(index), items[0].1, scalar, n);
  }

  /** `SubstituteNet` when the index is not the first key, from the claim on
      the remaining keys. */
  lemma SubstituteLater(items: seq<(int, real)>, index: int, scalar: real, recipeAt: int -> Recipe, n: string)
    requires items != [] && items[0].0 != index
    requires SubstitutedNet(Substitute(items[1..], index, scalar), recipeAt, n)
      == SubstitutedNet(items[1..], recipeAt, n) + Net(Mul(recipeAt(index), scalar), n)
    ensures SubstitutedNet(Substitute(items, index, scalar), recipeAt, n)
      == SubstitutedNet(items, recipeAt, n) + Net(Mul(recipeAt(index), scalar), n)
  {
    var rest := Substitute(items[1..], index, scalar);
    var t := [items[0]] + rest;
    SubstituteTail(items, index, scalar);
    assert t[1..] == rest;
    var first := Net(Mul(recipeAt(items[0].0), items[0].1), n);
    assert SubstitutedNet(items, recipeAt, n) == first + SubstitutedNet(items[1..], recipeAt, n);
    assert SubstitutedNet(t, recipeAt, n) == first + SubstitutedNet(rest, recipeAt, n);
  }

  /** The sum recipe nets out, resource by resource, to the recipe the
      resolution started from plus what the substitutions contribute. */
  ghost predicate Accounts(r: Resolution, start: Recipe, recipeAt: int -> Recipe)
  {
    forall n :: Net(r.sumRecipe, n) == Net(start, n) + SubstitutedNet(r.substitutions, recipeAt, n)
  }

  /** Every candidate producer refers to the recipe at its own index. */
  ghost predicate Consistent(candidates: string -> seq<RecipeRef>, recipeAt: int -> Recipe)
  {
    forall name, j :: 0 <= j < |candidates(name)| ==> recipeAt(candidates(name)[j].index) == candidates(name)[j].recipe
  }

  /** A fresh resolution accounts for its recipe. */
  lemma StartAccounts(recipe: Recipe, recipeAt: int -> Recipe)
    ensures Accounts(Start(recipe), recipe, recipeAt)
  {
  }

  /** An application of a reference to the recipe at its own index keeps the
      account. */
  lemma ApplyAccounts(r: Resolution, start: Recipe, recipeAt: int -> Recipe, ref: RecipeRef, sourceScalar: real)
    requires Accounts(r, start, recipeAt) && recipeAt(ref.index) == ref.recipe
    requires Apply(r, ref, sourceScalar).Ok?
    ensures Accounts(Apply(r, ref, sourceScalar).value, start, recipeAt)
  {
    var s := Apply(r, ref, sourceScalar).value;
    var scalar := sourceScalar / ref.count;
    forall n
      ensures Net(s.sumRecipe, n) == Net(start, n) + SubstitutedNet(s.substitutions, recipeAt, n)
    {
      ApplyNet(r, ref, sourceScalar, n);
      SubstituteNet(r.substitutions, ref.index, scalar, recipeAt, n);
    }
  }

  /** Every resolution `recurse` yields accounts for the recipe it started
      from: its sum recipe is that recipe plus the economy's recipes scaled by
      their substitutions. */
  lemma {:induction false} RecurseAccounts(r: Resolution, start: Recipe, candidates: string -> seq<RecipeRef>, recipeAt: int -> Recipe, fuel: nat)
    requires Accounts(r, start, recipeAt) && Consistent(candidates, recipeAt)
    ensures forall y :: y in Recurse(r, candidates, fuel).0 ==> Accounts(y, start, recipeAt)
    decreases fuel, 0, 0
  {
    if fuel > 0 {
      RecurseItemsAccounts(r, r.sumRecipe.inputs, start, candidates, recipeAt, fuel - 1);
    }
  }

  lemma {:induction false} RecurseItemsAccounts(r: Resolution, items: seq<Resource>, start: Recipe, candidates: string -> seq<RecipeRef>, recipeAt: int -> Recipe, fuel: nat)
    requires Accounts(r, start, recipeAt) && Consistent(candidates, recipeAt)
    ensures forall y :: y in RecurseItems(r, items, candidates, fuel).0 ==> Accounts(y, start, recipeAt)
    decreases fuel, 2, |items|
  {
    if items != [] {
      RecurseRefsAccounts(r, items[0], candidates(items[0].name), start, candidates, recipeAt, fuel);
      RecurseItemsAccounts(r, items[1..], start, candidates, recipeAt, fuel);
    }
  }

  lemma {:induction false} RecurseRefsAccounts(r: Resolution, item: Resource, refs: seq<RecipeRef>, start: Recipe, candidates: string -> seq<RecipeRef>, recipeAt: int -> Recipe, fuel: nat)
    requires Accounts(r, start, recipeAt) && Consistent(candidates, recipeAt)
    requires forall j :: 0 <= j < |refs| ==> recipeAt(refs[j].index) == refs[j].recipe
    ensures forall y :: y in RecurseRefs(r, item, refs, candidates, fuel).0 ==> Accounts(y, start, recipeAt)
    decreases fuel, 1, |refs|
  {
    if refs != [] {
      var applied := Apply(r, refs[0], item.count);
      if applied.Ok? {
        ApplyAccounts(r, start, recipeAt, refs[0], item.count);
        RecurseAccounts(applied.value, start, candidates, recipeAt, fuel);
      }
      RecurseRefsAccounts(r, item, refs[1..], start, candidates, recipeAt, fuel);
    }
  }
}
