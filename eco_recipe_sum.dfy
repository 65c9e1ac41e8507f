/** `ecocalc/RecipeSum.py`: an accumulating list of productions that can be
    scaled as a whole and merged so that each recipe appears once. */
module EcoRecipeSum {

  import opened Common
  import opened Seqs
  import opened EcoRecipe
  import opened EcoProduction

  /** The recipe of each production, in order. */
  function RecipesOf(ps: seq<Production>): (rs: seq<Recipe>)
    ensures |rs| == |ps| && forall k :: 0 <= k < |ps| ==> rs[k] == ps[k].recipe
  {
    if ps == [] then [] else RecipesOf(ps[..|ps| - 1]) + [ps[|ps| - 1].recipe]
  }

  /** Every production scaled by the same factor. */
  function ScaleAll(ps: seq<Production>, scalar: real): (qs: seq<Production>)
  {
    seq(|ps|, k requires 0 <= k < |ps| => Scale(ps[k], scalar))
  }

  /** The productions of recipe `r` added up left to right with `combine`;
      `None` when no production runs `r`. */
  function Combined(ps: seq<Production>, r: Recipe, combine: (Production, Production) -> Production): (c: Option<Production>)
  {
    if ps == [] then None
    else
      var p := ps[|ps| - 1];
      var c := Combined(ps[..|ps| - 1], r, combine);
      if p.recipe != r then c
      else if c.None? then Some(p)
      else Some(combine(c.value, p))
  }

  lemma {:induction false} CombinedSome(ps: seq<Production>, r: Recipe, combine: (Production, Production) -> Production)
    ensures Combined(ps, r, combine).Some? <==> r in RecipesOf(ps)
  {
    if ps != [] {
      var init := ps[..|ps| - 1];
      CombinedSome(init, r, combine);
      RecipesOfPrefix(ps, |ps| - 1);
      assert RecipesOf(ps) == RecipesOf(init) + [ps[|ps| - 1].recipe];
    }
  }

  /** What `merge_recipes` leaves: for each recipe, in the order recipes are
      first seen, its productions added up in list order. */
  function Merged(ps: seq<Production>, combine: (Production, Production) -> Production): (m: seq<Production>)
    ensures |m| == |Dedup(RecipesOf(ps))|
  {
    var d := Dedup(RecipesOf(ps));
    MergedKeysCombined(ps, combine);
    seq(|d|, k requires 0 <= k < |d| && Combined(ps, d[k], combine).Some? => Combined(ps, d[k], combine).value)
  }

  lemma MergedKeysCombined(ps: seq<Production>, combine: (Production, Production) -> Production)
    ensures forall k :: 0 <= k < |Dedup(RecipesOf(ps))| ==> Combined(ps, Dedup(RecipesOf(ps))[k], combine).Some?
  {
    var d := Dedup(RecipesOf(ps));
    DedupElements(RecipesOf(ps));
    forall k | 0 <= k < |d| ensures Combined(ps, d[k], combine).Some? {
      assert d[k] in d;
      CombinedSome(ps, d[k], combine);
    }
  }

  lemma RecipesOfPrefix(ps: seq<Production>, i: nat)
    requires i <= |ps|
    ensures RecipesOf(ps[..i]) == RecipesOf(ps)[..i]
  {
  }

  lemma {:induction false} CombinedRecipe(ps: seq<Production>, r: Recipe, combine: (Production, Production) -> Production)
    requires forall a: Production, b: Production :: a.recipe == b.recipe ==> combine(a, b).recipe == a.recipe
    ensures Combined(ps, r, combine).Some? ==> Combined(ps, r, combine).value.recipe == r
  {
    if ps != [] {
      CombinedRecipe(ps[..|ps| - 1], r, combine);
    }
  }

  /** Merging never lengthens the list. */
  lemma MergedLength(ps: seq<Production>, combine: (Production, Production) -> Production)
    ensures |Merged(ps, combine)| <= |ps|
  {
    DedupElements(RecipesOf(ps));
  }

  /** Each entry of the merged list is a production of the recipe it was
      keyed by, so the merged list runs one entry per recipe, in the order
      recipes were first seen. */
  lemma MergedRecipes(ps: seq<Production>, combine: (Production, Production) -> Production)
    requires forall a: Production, b: Production :: a.recipe == b.recipe ==> combine(a, b).recipe == a.recipe
    ensures RecipesOf(Merged(ps, combine)) == Dedup(RecipesOf(ps))
  {
    var d := Dedup(RecipesOf(ps));
    forall k | 0 <= k < |d| ensures Merged(ps, combine)[k].recipe == d[k] {
      CombinedRecipe(ps, d[k], combine);
    }
  }

  /** No recipe occurs twice after merging; exactly the recipes present
      before remain, in first-seen order. */
  lemma MergedProperties(ps: seq<Production>, combine: (Production, Production) -> Production)
    requires forall a: Production, b: Production :: a.recipe == b.recipe ==> combine(a, b).recipe == a.recipe
    ensures Distinct(RecipesOf(Merged(ps, combine)))
    ensures forall r :: r in RecipesOf(Merged(ps, combine)) <==> r in RecipesOf(ps)
    ensures forall i, j :: 0 <= i < j < |Merged(ps, combine)| ==>
      var rs := RecipesOf(ps);
      Merged(ps, combine)[i].recipe in rs && Merged(ps, combine)[j].recipe in rs
      && FirstIndex(rs, Merged(ps, combine)[i].recipe) < FirstIndex(rs, Merged(ps, combine)[j].recipe)
  {
    MergedRecipes(ps, combine);
    DedupElements(RecipesOf(ps));
    DedupFirstSeenOrder(RecipesOf(ps));
  }

  /** With all recipes different, each recipe's sum is its one production. */
  lemma {:induction false} CombinedOfDistinct(ps: seq<Production>, k: nat, combine: (Production, Production) -> Production)
    requires Distinct(RecipesOf(ps)) && k < |ps|
    ensures Combined(ps, ps[k].recipe, combine) == Some(ps[k])
  {
    var init := ps[..|ps| - 1];
    RecipesOfPrefix(ps, |ps| - 1);
    assert Distinct(RecipesOf(init));
    if k < |ps| - 1 {
      assert ps[|ps| - 1].recipe != ps[k].recipe by {
        assert RecipesOf(ps)[|ps| - 1] != RecipesOf(ps)[k];
      }
      CombinedOfDistinct(init, k, combine);
      assert init[k] == ps[k];
    } else {
      CombinedSome(init, ps[k].recipe, combine);
      assert ps[k].recipe !in RecipesOf(init);
    }
  }

  /** Merging a list whose recipes are all different changes nothing. */
  lemma MergedOfDistinct(ps: seq<Production>, combine: (Production, Production) -> Production)
    requires Distinct(RecipesOf(ps))
    ensures Merged(ps, combine) == ps
  {
    DedupOfDistinct(RecipesOf(ps));
    forall k | 0 <= k < |ps| ensures Merged(ps, combine)[k] == ps[k] {
      CombinedOfDistinct(ps, k, combine);
    }
  }

  /** Merging twice is merging once. */
  lemma MergeIdempotent(ps: seq<Production>, combine: (Production, Production) -> Production)
    requires forall a: Production, b: Production :: a.recipe == b.recipe ==> combine(a, b).recipe == a.recipe
    ensures Merged(Merged(ps, combine), combine) == Merged(ps, combine)
  {
    MergedProperties(ps, combine);
    MergedOfDistinct(Merged(ps, combine), combine);
  }

  /** One more production: its recipe's sum takes it in, the other sums stay. */
  lemma CombinedSnoc(ps: seq<Production>, i: nat, r: Recipe, combine: (Production, Production) -> Production)
    requires i < |ps|
    ensures Combined(ps[..i + 1], r, combine)
         == if ps[i].recipe != r then Combined(ps[..i], r, combine)
            else if Combined(ps[..i], r, combine).None? then Some(ps[i])
            else Some(combine(Combined(ps[..i], r, combine).value, ps[i]))
  {
    assert ps[..i + 1][..i] == ps[..i];
  }

  /** Scaling keeps the recipes and their order, and scaling twice is scaling by the product. */
  lemma ScaleAllProperties(ps: seq<Production>, a: real, b: real)
    ensures RecipesOf(ScaleAll(ps, a)) == RecipesOf(ps)
    ensures ScaleAll(ScaleAll(ps, a), b) == ScaleAll(ps, a * b)
  {
    forall k | 0 <= k < |ps| ensures ScaleAll(ScaleAll(ps, a), b)[k] == ScaleAll(ps, a * b)[k] {
      ScaleTwice(ps[k], a, b);
    }
  }

  /** The state of `merge_recipes` after the first `i` productions: the
      keys of the ordered dictionary, in order, and its entries. */
  ghost predicate MergeState(ps: seq<Production>, i: nat, keys: seq<Recipe>, merged: map<Recipe, Production>,
                             combine: (Production, Production) -> Production)
    requires i <= |ps|
  {
    && keys == Dedup(RecipesOf(ps[..i]))
    && (forall r :: r in merged ==> r in keys)
    && (forall k :: 0 <= k < |keys| ==> keys[k] in merged)
    && (forall r :: r in merged ==> Combined(ps[..i], r, combine) == Some(merged[r]))
  }

  /** One iteration of the loop of `merge_recipes` keeps its state right:
      a recipe not seen before gets a new key with the production itself... */
  lemma MergeStateNewKey(ps: seq<Production>, i: nat, keys: seq<Recipe>, merged: map<Recipe, Production>,
                         combine: (Production, Production) -> Production)
    requires i < |ps| && MergeState(ps, i, keys, merged, combine) && ps[i].recipe !in merged
    ensures MergeState(ps, i + 1, keys + [ps[i].recipe], merged[ps[i].recipe := ps[i]], combine)
  {
    var p := ps[i];
    var rs := RecipesOf(ps);
    assert p.recipe !in keys;
    assert Dedup(RecipesOf(ps[..i + 1])) == keys + [p.recipe] by {
      RecipesOfPrefix(ps, i);
      RecipesOfPrefix(ps, i + 1);
      DedupSnoc(rs, i);
      assert rs[i] == p.recipe;
    }
    assert Combined(ps[..i], p.recipe, combine).None? by {
      DedupElements(RecipesOf(ps[..i]));
      CombinedSome(ps[..i], p.recipe, combine);
    }
    var merged' := merged[p.recipe := p];
    CombinedSnoc(ps, i, p.recipe, combine);
    forall r | r in merged && r != p.recipe ensures Combined(ps[..i + 1], r, combine) == Some(merged'[r]) {
      CombinedSnoc(ps, i, r, combine);
    }
  }

  /** ... and a recipe seen before gets the sum of its entry and the production. */
  lemma MergeStateOldKey(ps: seq<Production>, i: nat, keys: seq<Recipe>, merged: map<Recipe, Production>,
                         combine: (Production, Production) -> Production)
    requires i < |ps| && MergeState(ps, i, keys, merged, combine) && ps[i].recipe in merged
    ensures MergeState(ps, i + 1, keys, merged[ps[i].recipe := combine(merged[ps[i].recipe], ps[i])], combine)
  {
    var p := ps[i];
    RecipesOfPrefix(ps, i);
    RecipesOfPrefix(ps, i + 1);
    DedupSnoc(RecipesOf(ps), i);
    assert p.recipe in keys;
    var merged' := merged[p.recipe := combine(merged[p.recipe], p)];
    forall r | r in merged' ensures Combined(ps[..i + 1], r, combine) == Some(merged'[r]) {
      CombinedSnoc(ps, i, r, combine);
    }
  }

  class RecipeSum {
    var production: seq<Production>

    constructor()
      ensures production == []
    {
      production := [];
    }

    /** `+=`: one more production at the end, the earlier ones untouched. */
    method Add(p: Production)
      modifies this
      ensures production == old(production) + [p]
    {
      production := production + [p];
    }

    /** `*=`: every production scaled, in the same order. */
    method Scale(scalar: real)
      modifies this
      ensures production == ScaleAll(old(production), scalar)
      ensures |production| == |old(production)|
      ensures forall k :: 0 <= k < |production| ==>
        production[k].recipe == old(production)[k].recipe && production[k].entity == old(production)[k].entity
        && production[k].cardinality == old(production)[k].cardinality * scalar
    {
      production := ScaleAll(production, scalar);
    }

    /** `merge_recipes`, with the addition of two productions (which the
        production class does not define) passed in as `combine`. */
    method MergeRecipes(combine: (Production, Production) -> Production)
      modifies this
      ensures production == Merged(old(production), combine)
    {
      var ps := production;
      var keys: seq<Recipe> := [];
      var merged: map<Recipe, Production> := map[];
      for i := 0 to |ps|
        invariant MergeState(ps, i, keys, merged, combine)
      {
        var p := ps[i];
        if p.recipe !in merged {
          MergeStateNewKey(ps, i, keys, merged, combine);
          keys := keys + [p.recipe];
          merged := merged[p.recipe := p];
        } else {
          MergeStateOldKey(ps, i, keys, merged, combine);
          merged := merged[p.recipe := combine(merged[p.recipe], p)];
        }
      }
      assert ps[..|ps|] == ps;
      production := seq(|keys|, k requires 0 <= k < |keys| => merged[keys[k]]);
    }
  }
}
