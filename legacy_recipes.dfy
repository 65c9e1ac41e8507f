/** `legacy/Recipes.py`: the recipe database, with an index of the recipes
    that produce each item, and the enumeration of recipe paths built by
    repeated substitution. */
module LegacyRecipes {

  import opened Common
  import opened Seqs
  import opened LegacyItems
  import opened LegacyRecipe
  import opened LegacyRecipePath

  predicate AllValid(rs: seq<Recipe>)
  {
    forall i :: 0 <= i < |rs| ==> rs[i].Valid()
  }

  /** The recipes whose one destination item has key `k`, in order. */
  function Producing(rs: seq<Recipe>, k: string): seq<Recipe>
    requires AllValid(rs)
  {
    if rs == [] then []
    else
      var r := rs[|rs| - 1];
      Producing(rs[..|rs| - 1], k) + (if Key(r.DestItem()) == k then [r] else [])
  }

  /** A recipe is listed under `k` exactly when it is in the database and
      produces an item with key `k`. */
  lemma {:induction false} ProducingMembers(rs: seq<Recipe>, k: string, r: Recipe)
    requires AllValid(rs)
    ensures r in Producing(rs, k) <==> r in rs && r.Valid() && Key(r.DestItem()) == k
  {
    if rs != [] {
      var init := rs[..|rs| - 1];
      ProducingMembers(init, k, r);
      assert rs == init + [rs[|rs| - 1]];
    }
  }

  /** One more recipe is listed under its own item's key and nowhere else. */
  lemma ProducingPush(rs: seq<Recipe>, r: Recipe, k: string)
    requires AllValid(rs) && r.Valid()
    ensures AllValid(rs + [r])
    ensures Producing(rs + [r], k) == Producing(rs, k) + (if Key(r.DestItem()) == k then [r] else [])
  {
    assert (rs + [r])[..|rs|] == rs;
  }

  /** `substitutions` over a fixed producer index, as a function of the
      path. */
  function SubstitutionsBy(index: Index): seq<Step> -> seq<seq<Step>>
    requires ValidIndex(index)
  {
    p => SubstitutedPaths(p, index)
  }

  /** The paths of `_paths(length)` for a given start and substitution
      function: the start for length 1, and for a greater length the
      substitutions of each path of the length before, one after the
      other. */
  function Enumerated(start: seq<seq<Step>>, f: seq<Step> -> seq<seq<Step>>, n: nat): seq<seq<Step>>
    requires n >= 1
    decreases n
  {
    if n == 1 then start else FlatMap(Enumerated(start, f, n - 1), f)
  }

  /** The paths of `_paths(length)`: one single-step path per recipe
      (cardinality 1) to begin with, then repeated substitution. */
  function PathsOf(recipes: seq<Recipe>, index: Index, n: nat): seq<seq<Step>>
    requires n >= 1 && ValidIndex(index)
  {
    Enumerated(SinglePaths(recipes), SubstitutionsBy(index), n)
  }

  /** `create_with_one_recipe` of each recipe, in order. */
  function SinglePaths(recipes: seq<Recipe>): (ps: seq<seq<Step>>)
    ensures |ps| == |recipes| && forall i :: 0 <= i < |recipes| ==> ps[i] == [Step(1.0, recipes[i])]
  {
    seq(|recipes|, i requires 0 <= i < |recipes| => [Step(1.0, recipes[i])])
  }

  /** Under a substitution function that keeps tails, every enumerated
      path has a start path as its tail. */
  lemma {:induction false} StartOf(start: seq<seq<Step>>, f: seq<Step> -> seq<seq<Step>>, n: nat, q: seq<Step>)
      returns (p: seq<Step>)
    requires n >= 1 && forall x, y :: y in f(x) ==> IsTail(x, y)
    requires q in Enumerated(start, f, n)
    ensures p in start && IsTail(p, q)
    decreases n
  {
    if n == 1 {
      p := q;
    } else {
      var prev := Enumerated(start, f, n - 1);
      FlatMapMembers(prev, f, q);
      var i :| 0 <= i < |prev| && q in f(prev[i]);
      var r := prev[i];
      assert IsTail(r, q);
      p := StartOf(start, f, n - 1, r);
      TailOfTail(q, r, p);
    }
  }

  /** Under a substitution function that keeps its argument, every path of
      one length is again a path of the next. */
  lemma EnumeratedGrows(start: seq<seq<Step>>, f: seq<Step> -> seq<seq<Step>>, n: nat, q: seq<Step>)
    requires n >= 1 && forall x :: x in f(x)
    requires q in Enumerated(start, f, n)
    ensures q in Enumerated(start, f, n + 1)
  {
    var prev := Enumerated(start, f, n);
    var i :| 0 <= i < |prev| && prev[i] == q;
    FlatMapMembers(prev, f, q);
  }

  /** A substitution of `p` keeps `p` as its tail: substitution only puts
      steps in front. */
  lemma SuffixKept(p: seq<Step>, index: Index, q: seq<Step>)
    requires ValidIndex(index) && q in SubstitutedPaths(p, index)
    ensures |p| <= |q| && q[|q| - |p|..] == p
  {
    var all := SubstitutedPaths(p, index);
    var k :| 0 <= k < |all| && all[k] == q;
    SubstitutionsSpec(p, index, q);
    if k > 0 {
      assert q in all[1..] by {
        assert all[1..][k - 1] == q;
      }
      var c :| c in Product(Choices(Src(p), index)) && ValidChoices(c) && !NoneChosen(c) && q == Substitute(Src(p), p, c);
      assert q[|Chosen(c)|..] == p;
    }
  }

  /** `substitutions` keeps the path as the tail of every path it yields,
      and yields the path itself. */
  lemma SubstitutionsKeep(index: Index)
    requires ValidIndex(index)
    ensures forall p, q :: q in SubstitutionsBy(index)(p) ==> IsTail(p, q)
    ensures forall p :: p in SubstitutionsBy(index)(p)
  {
    forall p, q | q in SubstitutedPaths(p, index)
      ensures IsTail(p, q)
    {
      SuffixKept(p, index, q);
    }
    forall p
      ensures p in SubstitutedPaths(p, index)
    {
      SubstitutionsSpec(p, index, p);
    }
  }

  /** The path ends with a step of cardinality 1 running one of the
      recipes. */
  predicate EndsWithRecipe(recipes: seq<Recipe>, q: seq<Step>)
  {
    |q| >= 1 && exists i :: 0 <= i < |recipes| && q[|q| - 1] == Step(1.0, recipes[i])
  }

  /** Every enumerated path ends with a step of cardinality 1 running one of
      the database's recipes: substitution only ever puts steps in front. */
  lemma PathsEndWithRecipe(recipes: seq<Recipe>, index: Index, n: nat, q: seq<Step>)
    requires n >= 1 && ValidIndex(index) && q in PathsOf(recipes, index, n)
    ensures EndsWithRecipe(recipes, q)
  {
    SubstitutionsKeep(index);
    var p := StartOf(SinglePaths(recipes), SubstitutionsBy(index), n, q);
    var i :| 0 <= i < |recipes| && SinglePaths(recipes)[i] == p;
    assert q[|q| - 1] == q[|q| - |p|..][0];
  }

  /** Every path of one length is again a path of the next: `substitutions`
      yields the path itself first. */
  lemma PathsGrow(recipes: seq<Recipe>, index: Index, n: nat, q: seq<Step>)
    requires n >= 1 && ValidIndex(index) && q in PathsOf(recipes, index, n)
    ensures q in PathsOf(recipes, index, n + 1)
  {
    SubstitutionsKeep(index);
    EnumeratedGrows(SinglePaths(recipes), SubstitutionsBy(index), n, q);
  }

  /** The first branch of `_paths`: a one-step path per recipe. */
  method SinglePathObjects(recipes: seq<Recipe>) returns (paths: seq<RecipePath>)
    ensures StepsOf(paths) == SinglePaths(recipes)
    ensures PathsValid(paths)
  {
    paths := [];
    for i := 0 to |recipes|
      invariant |paths| == i && forall k :: 0 <= k < i ==> paths[k].steps == [Step(1.0, recipes[k])]
      invariant PathsValid(paths)
    {
      var p := CreateWithOneRecipe(recipes[i]);
      PathsValidAppend(paths, [p]);
      paths := paths + [p];
    }
    assert StepsOf(paths) == SinglePaths(recipes);
  }

  /** `step` gives each of the paths `ps` exactly its substitutions over
      `index`. The fact is triggered only where `SubstitutedPaths` itself is
      mentioned, so that reasoning about whole rounds of paths can treat
      `step` as an unknown function. */
  ghost predicate AgreesOn(step: seq<Step> -> seq<seq<Step>>, index: Index, ps: seq<seq<Step>>)
    requires ValidIndex(index)
  {
    forall i {:trigger SubstitutedPaths(ps[i], index)} :: 0 <= i < |ps| ==> step(ps[i]) == SubstitutedPaths(ps[i], index)
  }

  /** `step` agrees with `substitutions` on every round of `_paths` before
      length `n`. */
  ghost predicate AgreesBefore(step: seq<Step> -> seq<seq<Step>>, index: Index, recipes: seq<Recipe>, n: nat)
    requires ValidIndex(index)
  {
    forall k :: 1 <= k < n ==> AgreesOn(step, index, Enumerated(SinglePaths(recipes), step, k))
  }

  /** `SubstitutionsBy(index)` is such a function. */
  lemma SubstitutionsAgree(recipes: seq<Recipe>, index: Index, n: nat)
    requires ValidIndex(index)
    ensures AgreesBefore(SubstitutionsBy(index), index, recipes, n)
  {
  }

  /** The second branch of `_paths`: the substitutions of each path, one
      path after the other. */
  method SubstituteAll(prev: seq<RecipePath>, index: Index, ghost step: seq<Step> -> seq<seq<Step>>)
      returns (paths: seq<RecipePath>)
    requires ValidIndex(index) && PathsValid(prev) && AgreesOn(step, index, StepsOf(prev))
    ensures StepsOf(paths) == FlatMap(StepsOf(prev), step)
    ensures PathsValid(paths)
  {
    ghost var steps := StepsOf(prev);
    paths := [];
    for i := 0 to |prev|
      invariant StepsOf(paths) == FlatMap(steps[..i], step)
      invariant PathsValid(paths)
    {
      var more := prev[i].Substitutions(index);
      assert steps[..i + 1][..i] == steps[..i];
      StepsOfAppend(paths, more);
      PathsValidAppend(paths, more);
      paths := paths + more;
    }
    assert steps[..|prev|] == steps;
  }

  /** The recursion of `_paths`, over the database's recipes and index;
      `step` stands for `SubstitutionsBy(index)`. */
  method PathObjects(recipes: seq<Recipe>, index: Index, n: nat, ghost step: seq<Step> -> seq<seq<Step>>)
      returns (paths: seq<RecipePath>)
    requires ValidIndex(index) && n >= 1 && AgreesBefore(step, index, recipes, n)
    ensures StepsOf(paths) == Enumerated(SinglePaths(recipes), step, n)
    ensures PathsValid(paths)
    decreases n
  {
    if n == 1 {
      paths := SinglePathObjects(recipes);
    } else {
      var prev := PathObjects(recipes, index, n - 1, step);
      paths := SubstituteAll(prev, index, step);
    }
  }

  /** One more path object adds its steps at the end. */
  lemma StepsOfPush(a: seq<RecipePath>, p: RecipePath)
    ensures StepsOf(a + [p]) == StepsOf(a) + [p.steps]
  {
    StepsOfAppend(a, [p]);
  }

  /** The loop of `unique_paths`: keeps each path whose steps were not seen
      before, remembering the steps in a set. */
  method UniqueOf(paths: seq<RecipePath>) returns (unique: seq<RecipePath>)
    ensures StepsOf(unique) == Dedup(StepsOf(paths))
    ensures forall k :: 0 <= k < |unique| ==> unique[k] in paths
  {
    var seen: set<seq<Step>> := {};
    unique := [];
    for i := 0 to |paths|
      invariant StepsOf(unique) == Dedup(StepsOf(paths)[..i])
      invariant forall q :: q in seen <==> q in StepsOf(unique)
      invariant forall k :: 0 <= k < |unique| ==> unique[k] in paths
    {
      var p := paths[i];
      assert StepsOf(paths)[i] == p.steps;
      DedupSnoc(StepsOf(paths), i);
      if p.steps !in seen {
        StepsOfPush(unique, p);
        unique := unique + [p];
        seen := seen + {p.steps};
      }
    }
    assert StepsOf(paths)[..|paths|] == StepsOf(paths);
  }

  /** The recipe database: the recipes in insertion order and the producer
      index, a `defaultdict(list)` keyed by the item. */
  class Recipes {
    var recipes: seq<Recipe>
    var produces: Index

    /** Every recipe is a constructed one, and under each key the index holds
        (or, for a key never looked up, stands for) exactly the recipes that
        produce that item, in insertion order. */
    ghost predicate Valid()
      reads this
    {
      AllValid(recipes) &&
      forall k {:trigger Producing(recipes, k)} :: (if k in produces then produces[k] else []) == Producing(recipes, k)
    }

    constructor()
      ensures recipes == [] && produces == map[] && Valid()
    {
      recipes := [];
      produces := map[];
    }

    /** `add`: appends the recipe, and appends it to the index under its
        destination item. */
    method Add(recipe: Recipe)
      requires Valid() && recipe.Valid()
      modifies this
      ensures Valid()
      ensures recipes == old(recipes) + [recipe]
      ensures produces == old(produces)[Key(recipe.DestItem()) := ProducersOf(old(produces), recipe.DestItem()) + [recipe]]
    {
      var item := recipe.DestItem();
      forall k {
        ProducingPush(recipes, recipe, k);
      }
      produces := produces[Key(item) := ProducersOf(produces, item) + [recipe]];
      recipes := recipes + [recipe];
    }

    /** `recipes_that_produce`: a copy of the item's producers in insertion
        order, or none; looking up an absent item stores an empty list
        under it, which changes no answer. */
    method RecipesThatProduce(item: Item) returns (rs: seq<Recipe>)
      requires Valid()
      modifies this
      ensures Valid() && recipes == old(recipes)
      ensures rs == Producing(recipes, Key(item))
      ensures produces == if Key(item) in old(produces) then old(produces) else old(produces)[Key(item) := []]
      ensures forall x :: ProducersOf(produces, x) == ProducersOf(old(produces), x)
    {
      if Key(item) !in produces {
        produces := produces[Key(item) := []];
      }
      rs := produces[Key(item)];
    }

    /** `_paths`: the recipe paths of the given length, as path objects. */
    method Paths(n: nat) returns (paths: seq<RecipePath>)
      requires Valid() && n >= 1
      ensures ValidIndex(produces)
      ensures StepsOf(paths) == PathsOf(recipes, produces, n)
      ensures PathsValid(paths)
    {
      IndexValid();
      SubstitutionsAgree(recipes, produces, n);
      paths := PathObjects(recipes, produces, n, SubstitutionsBy(produces));
    }

    /** `unique_paths`: the paths of the given length, each distinct path
        once, at its first occurrence. */
    method UniquePaths(n: nat) returns (unique: seq<RecipePath>)
      requires Valid() && n >= 1
      ensures ValidIndex(produces)
      ensures StepsOf(unique) == Dedup(PathsOf(recipes, produces, n))
      ensures PathsValid(unique)
    {
      var paths := Paths(n);
      unique := UniqueOf(paths);
    }

    /** Every indexed recipe is a constructed one. */
    lemma IndexValid()
      requires Valid()
      ensures ValidIndex(produces)
    {
      forall k, i | k in produces && 0 <= i < |produces[k]|
        ensures produces[k][i].Valid()
      {
        assert produces[k] == Producing(recipes, k);
        ProducingMembers(recipes, k, produces[k][i]);
      }
    }
  }

  /** `unique_paths` never yields a path twice, yields every path `_paths`
      yields, and keeps their first-seen order. */
  lemma UniquePathsSpec(recipes: seq<Recipe>, index: Index, n: nat)
    requires n >= 1 && ValidIndex(index)
    ensures Distinct(Dedup(PathsOf(recipes, index, n)))
    ensures forall q :: q in Dedup(PathsOf(recipes, index, n)) <==> q in PathsOf(recipes, index, n)
    ensures forall i, j :: 0 <= i < j < |Dedup(PathsOf(recipes, index, n))| ==>
      FirstIndex(PathsOf(recipes, index, n), Dedup(PathsOf(recipes, index, n))[i]) < FirstIndex(PathsOf(recipes, index, n), Dedup(PathsOf(recipes, index, n))[j])
  {
    DedupElements(PathsOf(recipes, index, n));
    DedupFirstSeenOrder(PathsOf(recipes, index, n));
  }
}
