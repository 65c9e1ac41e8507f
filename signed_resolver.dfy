/** `RecipeResolver.py` of the top-level generation: a resolved recipe is a
    running sum recipe together with the list of recipe applications that
    produced it; the resolver replaces every ingredient that has a producing
    recipe by that recipe, recursively, caching each ingredient's resolution. */
module SignedResolver {

  import opened Common
  import opened Seqs
  import opened SignedRecipe

  /** One application: the index of the economy's recipe (none for a pseudo
      recipe), the recipe, the scalar it was applied with and a display name. */
  datatype Application = Application(recipeIndex: Option<int>, recipe: Recipe, scalar: real, pseudoName: Option<string>)

  /** What the economy's producer lookup returns: the recipe's index, the
      recipe, and how many units of the asked-for resource it yields. */
  datatype RecipeRef = RecipeRef(index: int, recipe: Recipe, count: real)

  /** The net amount of `n` one application contributes. */
  function AppNet(a: Application, n: string): real
  {
    Net(Mul(a.recipe, a.scalar), n)
  }

  function AppNets(apps: seq<Application>, n: string): (xs: seq<real>)
    ensures |xs| == |apps| && forall k :: 0 <= k < |apps| ==> xs[k] == AppNet(apps[k], n)
  {
    seq(|apps|, k requires 0 <= k < |apps| => AppNet(apps[k], n))
  }

  /** The net amount of `n` all applications contribute together. */
  function AppliedNet(apps: seq<Application>, n: string): real
  {
    Sum(AppNets(apps, n))
  }

  lemma AppliedNetAppend(a: seq<Application>, b: seq<Application>, n: string)
    ensures AppliedNet(a + b, n) == AppliedNet(a, n) + AppliedNet(b, n)
  {
    assert AppNets(a + b, n) == AppNets(a, n) + AppNets(b, n);
    SumAppend(AppNets(a, n), AppNets(b, n));
  }

  /** The applications of a merged resolution: the same, with every scalar
      multiplied by the merge factor. */
  function ScaledApps(apps: seq<Application>, c: real): (r: seq<Application>)
    ensures |r| == |apps|
    ensures forall k :: 0 <= k < |apps| ==> r[k] == apps[k].(scalar := apps[k].scalar * c)
  {
    seq(|apps|, k requires 0 <= k < |apps| => apps[k].(scalar := apps[k].scalar * c))
  }

  lemma ScaledAppsPush(apps: seq<Application>, a: Application, c: real)
    ensures ScaledApps(apps + [a], c) == ScaledApps(apps, c) + [a.(scalar := a.scalar * c)]
  {
    var l, r := ScaledApps(apps + [a], c), ScaledApps(apps, c) + [a.(scalar := a.scalar * c)];
    assert |l| == |r|;
    forall k | 0 <= k < |l| ensures l[k] == r[k] {
      if k < |apps| {
        assert (apps + [a])[k] == apps[k];
      } else {
        assert (apps + [a])[k] == a;
      }
    }
  }

  /** Scaling one application's scalar by `c` scales its contribution by `c`. */
  lemma AppNetScaled(a: Application, c: real, n: string)
    ensures AppNet(a.(scalar := a.scalar * c), n) == c * AppNet(a, n)
  {
    MulCompose(a.recipe, a.scalar, c);
    MulNet(Mul(a.recipe, a.scalar), c, n);
  }

  /** Scaling every application by `c` scales what they contribute by `c`. */
  lemma AppliedNetScaled(apps: seq<Application>, c: real, n: string)
    ensures AppliedNet(ScaledApps(apps, c), n) == c * AppliedNet(apps, n)
  {
    var xs := AppNets(apps, n);
    var ys := AppNets(ScaledApps(apps, c), n);
    forall k | 0 <= k < |apps| ensures ys[k] == c * xs[k] {
      AppNetScaled(apps[k], c, n);
    }
    assert Sum(ys) == c * Sum(xs) by { SumScaled(xs, ys, c); }
  }

  /** One more application adds its contribution. */
  lemma AppliedNetPush(apps: seq<Application>, a: Application, n: string)
    ensures AppliedNet(apps + [a], n) == AppliedNet(apps, n) + AppNet(a, n)
  {
    AppliedNetAppend(apps, [a], n);
    assert AppNets([a], n) == [AppNet(a, n)];
    assert Sum([AppNet(a, n)]) == Sum([]) + AppNet(a, n);
  }

  /** A resolution merged with factor `c` contributes `c` times its running sum. */
  lemma MergedNet(apps: seq<Application>, r: Recipe, c: real, n: string)
    requires Net(r, n) == AppliedNet(apps, n)
    ensures Net(Mul(r, c), n) == AppliedNet(ScaledApps(apps, c), n)
  {
    MulNet(r, c, n);
    AppliedNetScaled(apps, c, n);
    ScaledEqual(Net(Mul(r, c), n), AppliedNet(ScaledApps(apps, c), n), c, Net(r, n), AppliedNet(apps, n));
  }

  lemma ScaledEqual(a: real, b: real, c: real, x: real, y: real)
    requires a == c * x && b == c * y && x == y
    ensures a == b
  {
  }

  /** Merging keeps the running sum equal to what the applications contribute. */
  lemma MergeStep(r0: Recipe, apps0: seq<Application>, r1: Recipe, other: Recipe, others: seq<Application>, c: real, n: string)
    requires Net(r0, n) == AppliedNet(apps0, n) && Net(other, n) == AppliedNet(others, n)
    requires Net(r1, n) == Net(r0, n) + Net(Mul(other, c), n)
    ensures Net(r1, n) == AppliedNet(apps0 + ScaledApps(others, c), n)
  {
    AppliedNetAppend(apps0, ScaledApps(others, c), n);
    MergedNet(others, other, c, n);
  }

  /** Appending keeps the running sum equal to what the applications contribute. */
  lemma AppendStep(r0: Recipe, apps0: seq<Application>, r1: Recipe, a: Application, n: string)
    requires Net(r0, n) == AppliedNet(apps0, n)
    requires Net(r1, n) == Net(r0, n) + AppNet(a, n)
    ensures Net(r1, n) == AppliedNet(apps0 + [a], n)
  {
    AppliedNetPush(apps0, a, n);
  }

  /** The recipe index of every application, in order. */
  function Indices(apps: seq<Application>): (ix: seq<Option<int>>)
    ensures |ix| == |apps| && forall k :: 0 <= k < |apps| ==> ix[k] == apps[k].recipeIndex
  {
    seq(|apps|, k requires 0 <= k < |apps| => apps[k].recipeIndex)
  }

  /** The keys of `grouped_applications`' ordered dictionary: the recipe
      indices in the order a walk from the last application to the first
      meets them for the first time. */
  function KeysFromBack(apps: seq<Application>): seq<int>
  {
    if apps == [] then []
    else
      var ks := KeysFromBack(apps[1..]);
      if apps[0].recipeIndex.Some? && apps[0].recipeIndex.value !in ks then ks + [apps[0].recipeIndex.value] else ks
  }

  /** What that walk leaves in the reference dictionary: for every index,
      the application met last, which is the earliest one. */
  function Earliest(apps: seq<Application>): map<int, Application>
  {
    if apps == [] then map[]
    else
      var m := Earliest(apps[1..]);
      if apps[0].recipeIndex.Some? then m[apps[0].recipeIndex.value := apps[0]] else m
  }

  /** The scalars of all applications of recipe index `i`, added up in the order of the walk. */
  function ScalarSum(apps: seq<Application>, i: int): real
  {
    if apps == [] then 0.0
    else ScalarSum(apps[1..], i) + (if apps[0].recipeIndex == Some(i) then apps[0].scalar else 0.0)
  }

  /** The pseudo applications (no recipe index) in the order of the walk. */
  function PseudosFromBack(apps: seq<Application>): seq<Application>
  {
    if apps == [] then []
    else PseudosFromBack(apps[1..]) + (if apps[0].recipeIndex.None? then [apps[0]] else [])
  }

  lemma {:induction false} KeysFromBackSpec(apps: seq<Application>)
    ensures Distinct(KeysFromBack(apps))
    ensures forall i :: i in KeysFromBack(apps) <==> Some(i) in Indices(apps)
    ensures forall i :: i in Earliest(apps) <==> Some(i) in Indices(apps)
    ensures forall j :: 0 <= j < |KeysFromBack(apps)| ==>
      KeysFromBack(apps)[j] in Earliest(apps) && Some(KeysFromBack(apps)[j]) in Indices(apps)
  {
    if apps != [] {
      KeysFromBackSpec(apps[1..]);
      assert Indices(apps) == [apps[0].recipeIndex] + Indices(apps[1..]);
    }
    var ks := KeysFromBack(apps);
    forall j | 0 <= j < |ks| ensures ks[j] in Earliest(apps) && Some(ks[j]) in Indices(apps) {
      assert ks[j] in ks;
    }
  }

  /** The reference kept for an index is its earliest application. */
  lemma {:induction false} EarliestSpec(apps: seq<Application>, i: int)
    requires Some(i) in Indices(apps)
    ensures i in Earliest(apps)
    ensures Earliest(apps)[i] == apps[FirstIndex(Indices(apps), Some(i))]
  {
    KeysFromBackSpec(apps);
    if apps[0].recipeIndex != Some(i) {
      assert Indices(apps)[1..] == Indices(apps[1..]);
      EarliestSpec(apps[1..], i);
    }
  }

  /** Index sums add up over consecutive runs of applications, and an index
      with no application sums to zero. */
  lemma {:induction false} ScalarSumAppend(a: seq<Application>, b: seq<Application>, i: int)
    ensures ScalarSum(a + b, i) == ScalarSum(a, i) + ScalarSum(b, i)
    ensures Some(i) !in Indices(a) ==> ScalarSum(a, i) == 0.0
  {
    if a != [] {
      assert (a + b)[0] == a[0] && (a + b)[1..] == a[1..] + b;
      assert Indices(a) == [a[0].recipeIndex] + Indices(a[1..]);
      ScalarSumAppend(a[1..], b, i);
    } else {
      assert a + b == b;
    }
  }

  /** Pseudo applications come out in reverse order: those of a later run first. */
  lemma {:induction false} PseudosAppend(a: seq<Application>, b: seq<Application>)
    ensures PseudosFromBack(a + b) == PseudosFromBack(b) + PseudosFromBack(a)
  {
    if a != [] {
      assert (a + b)[0] == a[0] && (a + b)[1..] == a[1..] + b;
      PseudosAppend(a[1..], b);
      var e := if a[0].recipeIndex.None? then [a[0]] else [];
      assert PseudosFromBack(b) + PseudosFromBack(a[1..]) + e == PseudosFromBack(b) + (PseudosFromBack(a[1..]) + e);
    } else {
      assert a + b == b;
    }
  }

  lemma {:induction false} PseudosMembers(apps: seq<Application>)
    ensures forall x :: x in PseudosFromBack(apps) <==> x in apps && x.recipeIndex.None?
  {
    if apps != [] {
      PseudosMembers(apps[1..]);
      assert apps == [apps[0]] + apps[1..];
    }
  }

  /** `grouped_applications`: one application per recipe index, carrying
      the earliest application's recipe and name and the sum of the index's
      scalars, followed by the pseudo applications. */
  function Grouped(apps: seq<Application>): (g: seq<Application>)
  {
    var ks := KeysFromBack(apps);
    var refs := Earliest(apps);
    KeysFromBackSpec(apps);
    seq(|ks|, j requires 0 <= j < |ks| => Application(Some(ks[j]), refs[ks[j]].recipe, ScalarSum(apps, ks[j]), refs[ks[j]].pseudoName))
      + PseudosFromBack(apps)
  }

  /** What `grouped_applications` yields, entry by entry: the grouped entries
      carry distinct indices, exactly the indices present, each with its
      earliest application's recipe and name and its summed scalar; the
      pseudo applications follow. */
  lemma GroupedSpec(apps: seq<Application>)
    ensures var g := Grouped(apps); var ks := KeysFromBack(apps);
      && |g| == |ks| + |PseudosFromBack(apps)|
      && Distinct(ks)
      && (forall i :: i in ks <==> Some(i) in Indices(apps))
      && (forall j :: 0 <= j < |ks| ==>
            var first := apps[FirstIndex(Indices(apps), Some(ks[j]))];
            g[j] == Application(Some(ks[j]), first.recipe, ScalarSum(apps, ks[j]), first.pseudoName))
      && g[|ks|..] == PseudosFromBack(apps)
  {
    KeysFromBackSpec(apps);
    var ks := KeysFromBack(apps);
    forall j | 0 <= j < |ks| ensures Earliest(apps)[ks[j]] == apps[FirstIndex(Indices(apps), Some(ks[j]))] {
      assert ks[j] in ks;
      EarliestSpec(apps, ks[j]);
    }
  }

  /** The shape every sum of recipes has: not a rate, scalar one, only
      positive counts, and an ingredient is a name whose net amount is negative. */
  ghost predicate Normal(r: Recipe)
  {
    && !r.isRate
    && r.scalar == 1.0
    && (forall k :: 0 <= k < |r.inputs| ==> r.inputs[k].count > 0.0)
    && (forall k :: 0 <= k < |r.outputs| ==> r.outputs[k].count > 0.0)
    && (forall k :: 0 <= k < |r.inputs| ==> Net(r, r.inputs[k].name) < 0.0)
  }

  /** The first loop of `grouped_applications`: from the last application
      to the first, records each recipe index when first met, keeps the
      application met last for it (the earliest one) and sums its scalars. */
  method Tally(apps: seq<Application>) returns (keys: seq<int>, refs: map<int, Application>, sums: map<int, real>)
    ensures keys == KeysFromBack(apps)
    ensures refs == Earliest(apps)
    ensures forall k :: k in sums <==> k in keys
    ensures forall k :: k in sums ==> sums[k] == ScalarSum(apps, k)
  {
    refs, keys, sums := map[], [], map[];
    var i := |apps|;
    while i > 0
      invariant 0 <= i <= |apps|
      invariant keys == KeysFromBack(apps[i..])
      invariant refs == Earliest(apps[i..])
      invariant forall k :: k in sums <==> k in keys
      invariant forall k :: k in sums ==> sums[k] == ScalarSum(apps[i..], k)
    {
      i := i - 1;
      var a := apps[i];
      assert apps[i..][0] == a && apps[i..][1..] == apps[i + 1..];
      if a.recipeIndex.Some? {
        var idx := a.recipeIndex.value;
        refs := refs[idx := a];
        if idx !in sums {
          KeysFromBackSpec(apps[i + 1..]);
          ScalarSumAppend(apps[i + 1..], [], idx);
          keys := keys + [idx];
          sums := sums[idx := 0.0 + a.scalar];
        } else {
          sums := sums[idx := sums[idx] + a.scalar];
        }
      }
    }
    assert apps[i..] == apps;
  }

  /** `ResolvedRecipe`: the running sum and the applications that built it. */
  class ResolvedRecipe {
    var recipe: Recipe
    var applications: seq<Application>

    /** The running sum is never a rate and nets out to what the
        applications contribute together. */
    ghost predicate Valid()
      reads this
    {
      && Normal(recipe)
      && (forall n :: Net(recipe, n) == AppliedNet(applications, n))
    }

    /** `__init__`: the empty non-rate recipe and no applications. */
    constructor ()
      ensures recipe == EmptyRecipe(None, false) && applications == []
      ensures Valid()
    {
      recipe := EmptyRecipe(None, false);
      applications := [];
    }

    /** `__len__`: the number of applications. */
    function Len(): nat
      reads this
    {
      |applications|
    }

    /** `grouped_applications`: walks the applications from the last to the
        first, summing the scalars per recipe index and keeping the
        application met last for each, then yields one entry per index in
        the order first met, then the pseudo applications in the order met. */
    method GroupedApplications() returns (g: seq<Application>)
      ensures g == Grouped(applications)
    {
      var keys, refs, sums := Tally(applications);
      KeysFromBackSpec(applications);
      g := [];
      var j := 0;
      while j < |keys|
        invariant 0 <= j <= |keys|
        invariant g == Grouped(applications)[..j]
      {
        var a := refs[keys[j]];
        g := g + [Application(Some(keys[j]), a.recipe, sums[keys[j]], a.pseudoName)];
        j := j + 1;
      }
      var i := |applications|;
      while i > 0
        invariant 0 <= i <= |applications|
        invariant g == Grouped(applications)[..|keys|] + PseudosFromBack(applications[i..])
      {
        i := i - 1;
        var a := applications[i];
        assert applications[i..][0] == a && applications[i..][1..] == applications[i + 1..];
        if a.recipeIndex.None? {
          g := g + [a];
        }
      }
    }

    /** Adds `b * c` to the running sum; fails on a rate recipe, whose
        `is_rate` differs from the running sum's. */
    method AddToRecipe(b: Recipe, c: real) returns (err: Option<Error>)
      requires Valid()
      modifies this
      ensures err.None? <==> !b.isRate
      ensures err.Some? ==> err.value == AssertionFailed && recipe == old(recipe)
      ensures err.None? ==> recipe == Add(old(recipe), Mul(b, c)).value
      ensures err.None? ==> forall n :: Net(recipe, n) == Net(old(recipe), n) + Net(Mul(b, c), n)
      ensures err.None? ==> Normal(recipe)
      ensures applications == old(applications)
    {
      var sum := Add(recipe, Mul(b, c));
      if sum.Err? {
        return Some(sum.error);
      }
      forall n ensures Net(sum.value, n) == Net(recipe, n) + Net(Mul(b, c), n) {
        AddNet(recipe, Mul(b, c), n);
      }
      forall k | 0 <= k < |sum.value.inputs| ensures Net(sum.value, sum.value.inputs[k].name) < 0.0 {
        var n := sum.value.inputs[k].name;
        AddNet(recipe, Mul(b, c), n);
        assert Names(sum.value.inputs)[k] == n;
      }
      AddNet(recipe, Mul(b, c), "");
      recipe := sum.value;
      return None;
    }

    /** The common step of `append` and `append_pseudo_recipe`: adds
        `a.recipe * a.scalar` to the running sum and records `a` at the end. */
    method Push(a: Application) returns (err: Option<Error>)
      requires Valid()
      modifies this
      ensures Valid()
      ensures err.None? <==> !a.recipe.isRate
      ensures err.Some? ==> err.value == AssertionFailed && recipe == old(recipe) && applications == old(applications)
      ensures err.None? ==> recipe == Add(old(recipe), Mul(a.recipe, a.scalar)).value
      ensures err.None? ==> applications == old(applications) + [a]
      ensures err.None? ==> forall n :: Net(recipe, n) == Net(old(recipe), n) + Net(Mul(a.recipe, a.scalar), n)
    {
      err := AddToRecipe(a.recipe, a.scalar);
      if err.None? {
        forall n ensures Net(recipe, n) == AppliedNet(applications + [a], n) {
          AppendStep(old(recipe), applications, recipe, a, n);
        }
        applications := applications + [a];
      }
    }

    /** `append`: applies the economy's recipe `ref` with `scalar`, adding one
        application at the end. */
    method Append(ref: RecipeRef, scalar: real) returns (err: Option<Error>)
      requires Valid()
      modifies this
      ensures Valid()
      ensures err.None? <==> !ref.recipe.isRate
      ensures err.Some? ==> err.value == AssertionFailed && recipe == old(recipe) && applications == old(applications)
      ensures err.None? ==> recipe == Add(old(recipe), Mul(ref.recipe, scalar)).value
      ensures err.None? ==> applications == old(applications) + [Application(Some(ref.index), ref.recipe, scalar, None)]
      ensures err.None? ==> forall n :: Net(recipe, n) == Net(old(recipe), n) + Net(Mul(ref.recipe, scalar), n)
    {
      err := Push(Application(Some(ref.index), ref.recipe, scalar, None));
    }

    /** `append_pseudo_recipe`: applies a recipe that is not the economy's,
        under an optional name, adding one application at the end. */
    method AppendPseudoRecipe(r: Recipe, scalar: real, name: Option<string>) returns (err: Option<Error>)
      requires Valid()
      modifies this
      ensures Valid()
      ensures err.None? <==> !r.isRate
      ensures err.Some? ==> err.value == AssertionFailed && recipe == old(recipe) && applications == old(applications)
      ensures err.None? ==> recipe == Add(old(recipe), Mul(r, scalar)).value
      ensures err.None? ==> applications == old(applications) + [Application(None, r, scalar, name)]
      ensures err.None? ==> forall n :: Net(recipe, n) == Net(old(recipe), n) + Net(Mul(r, scalar), n)
    {
      err := Push(Application(None, r, scalar, name));
    }

    /** The loop of `merge`: appends every application of `apps` in order,
        its scalar multiplied by `c`; the running sum is left alone. */
    method AppendScaled(apps: seq<Application>, c: real)
      modifies this
      ensures recipe == old(recipe)
      ensures applications == old(applications) + ScaledApps(apps, c)
    {
      var i := 0;
      while i < |apps|
        invariant 0 <= i <= |apps|
        invariant recipe == old(recipe)
        invariant applications == old(applications) + ScaledApps(apps[..i], c)
      {
        var a := apps[i];
        applications := applications + [a.(scalar := a.scalar * c)];
        assert apps[..i + 1] == apps[..i] + [a];
        ScaledAppsPush(apps[..i], a, c);
        i := i + 1;
      }
      assert apps[..i] == apps;
    }

    /** `merge`: adds `other` times `scalar` to the running sum and appends
        all of `other`'s applications in order, their scalars multiplied. */
    method Merge(other: ResolvedRecipe, scalar: real)
      requires other != this && Valid() && other.Valid()
      modifies this
      ensures Valid()
      ensures recipe == Add(old(recipe), Mul(other.recipe, scalar)).value
      ensures applications == old(applications) + ScaledApps(other.applications, scalar)
      ensures forall n :: Net(recipe, n) == Net(old(recipe), n) + Net(Mul(other.recipe, scalar), n)
    {
      var err := AddToRecipe(other.recipe, scalar);
      ghost var start := applications;
      AppendScaled(other.applications, scalar);
      forall n ensures Net(recipe, n) == AppliedNet(applications, n) {
        MergeStep(old(recipe), start, recipe, other.recipe, other.applications, scalar, n);
      }
    }
  }

  /** A total of positive counts is never negative. */
  lemma {:induction false} TotalNonneg(items: seq<Resource>, n: string)
    requires forall k :: 0 <= k < |items| ==> items[k].count > 0.0
    ensures Total(items, n) >= 0.0
  {
    if items != [] {
      TotalNonneg(items[..|items| - 1], n);
    }
  }

  /** A ranking of the resources under which every producing recipe uses and
      yields only lower-ranked resources besides the one it is looked up for,
      and whose reported count is the net amount of that resource it yields. */
  ghost predicate Ranked(producer: string -> Option<RecipeRef>, rank: string -> nat)
  {
    forall x :: producer(x).Some? ==>
      && producer(x).value.count == Net(producer(x).value.recipe, x)
      && (forall z :: z in Resources(producer(x).value.recipe) && z != x ==> rank(z) < rank(x))
  }

  /** A resolution of `x`: yields one unit of `x`, uses or yields besides `x`
      only lower-ranked resources, and consumes no producible resource. */
  ghost predicate Unit(producer: string -> Option<RecipeRef>, rank: string -> nat, r: Recipe, x: string)
  {
    && Net(r, x) == 1.0
    && (forall z :: Net(r, z) != 0.0 ==> z == x || rank(z) < rank(x))
    && (forall z :: producer(z).Some? ==> Net(r, z) >= 0.0)
  }

  /** The state of `_resolve_recipe` after the first `k` ingredients `ins` of
      `start`: only resources ranked below `bound` changed, and no producible
      resource is consumed beyond what the remaining ingredients still cover. */
  ghost predicate Covered(producer: string -> Option<RecipeRef>, rank: string -> nat, t: Recipe, start: Recipe, ins: seq<Resource>, k: nat, bound: nat)
    requires k <= |ins|
  {
    && (forall z :: Net(t, z) != Net(start, z) ==> rank(z) < bound)
    && (forall z :: producer(z).Some? ==> Net(t, z) + (Total(ins, z) - Total(ins[..k], z)) >= 0.0)
  }

  /** Before the walk: the ingredients still cover everything the sum consumes. */
  lemma CoveredStart(producer: string -> Option<RecipeRef>, rank: string -> nat, start: Recipe, bound: nat)
    requires Normal(start)
    ensures Covered(producer, rank, start, start, start.inputs, 0, bound)
  {
    assert start.inputs[..0] == [];
    forall z ensures Net(start, z) + Total(start.inputs, z) >= 0.0 {
      TotalNonneg(start.outputs, z);
    }
  }

  /** Merging the resolution `r` of ingredient `ins[k]`, scaled by its count. */
  lemma CoveredMerge(producer: string -> Option<RecipeRef>, rank: string -> nat, t0: Recipe, t1: Recipe, r: Recipe,
                     start: Recipe, ins: seq<Resource>, k: nat, bound: nat)
    requires k < |ins| && ins[k].count > 0.0 && rank(ins[k].name) < bound
    requires Covered(producer, rank, t0, start, ins, k, bound)
    requires Unit(producer, rank, r, ins[k].name)
    requires forall n :: Net(t1, n) == Net(t0, n) + Net(Mul(r, ins[k].count), n)
    ensures Covered(producer, rank, t1, start, ins, k + 1, bound)
  {
    var y, c := ins[k].name, ins[k].count;
    assert ins[..k + 1][..k] == ins[..k];
    forall z | producer(z).Some?
      ensures Net(t1, z) + (Total(ins, z) - Total(ins[..k + 1], z)) >= 0.0
    {
      MulNet(r, c, z);
      ResolveStep(Net(t0, z), Net(t1, z), Net(r, z), c, Total(ins, z) - Total(ins[..k], z), Total(ins, z) - Total(ins[..k + 1], z), z == y);
    }
    forall z | Net(t1, z) != Net(start, z) ensures rank(z) < bound {
      MulNet(r, c, z);
      if Net(r, z) == 0.0 {
        ZeroTimes(c, Net(r, z));
      }
    }
  }

  /** Skipping an ingredient that no recipe produces. */
  lemma CoveredSkip(producer: string -> Option<RecipeRef>, rank: string -> nat, t: Recipe, start: Recipe, ins: seq<Resource>, k: nat, bound: nat)
    requires k < |ins| && producer(ins[k].name).None?
    requires Covered(producer, rank, t, start, ins, k, bound)
    ensures Covered(producer, rank, t, start, ins, k + 1, bound)
  {
    assert ins[..k + 1][..k] == ins[..k];
  }

  /** At any point only resources ranked below the bound changed; once the
      walk is done no producible resource is consumed. */
  lemma CoveredEnd(producer: string -> Option<RecipeRef>, rank: string -> nat, t: Recipe, start: Recipe, ins: seq<Resource>, k: nat, bound: nat)
    requires k <= |ins| && Covered(producer, rank, t, start, ins, k, bound)
    ensures forall z :: Net(t, z) != Net(start, z) ==> rank(z) < bound
    ensures k == |ins| ==> forall z :: producer(z).Some? ==> Net(t, z) >= 0.0
  {
    assert ins[..|ins|] == ins;
  }

  /** One step of that walk for one resource: merging with count `c` keeps
      "net amount plus what is still to be resolved" non-negative. `own` says
      whether the resource is the ingredient itself, of which the resolution
      yields exactly one unit. */
  lemma ResolveStep(before: real, after: real, share: real, c: real, rem0: real, rem1: real, own: bool)
    requires c > 0.0 && after == before + c * share && before + rem0 >= 0.0
    requires own ==> share == 1.0 && rem1 == rem0 - c
    requires !own ==> share >= 0.0 && rem1 == rem0
    ensures after + rem1 >= 0.0
  {
  }

  /** A recipe applied with the inverse of the amount of `x` it yields
      yields exactly one unit of `x`. */
  lemma UnitShare(r: Recipe, count: real, x: string)
    requires count != 0.0 && count == Net(r, x)
    ensures Net(Mul(r, 1.0 / count), x) == 1.0
  {
    MulNet(r, 1.0 / count, x);
    InverseScale(count, Net(r, x));
  }

  lemma InverseScale(c: real, x: real)
    requires c != 0.0 && x == c
    ensures (1.0 / c) * x == 1.0
  {
  }

  /** A scaled recipe yields nothing outside its resources. */
  lemma ShareSupport(r: Recipe, c: real, z: string)
    ensures Net(Mul(r, c), z) != 0.0 ==> z in Resources(r)
  {
    MulNet(r, c, z);
    ResourcesSpec(r, z);
    if z !in Resources(r) {
      ZeroTimes(c, Net(r, z));
    }
  }

  lemma ZeroTimes(c: real, x: real)
    requires x == 0.0
    ensures c * x == 0.0
  {
  }

  /** The start of `_do_resolve_ingredient`: a fresh resolution holding the
      producing recipe `p` applied with the inverse of its count, which yields
      one unit of `x` and nothing outside the recipe's resources. */
  method UnitResolution(p: RecipeRef, x: string) returns (r: ResolvedRecipe, err: Option<Error>)
    requires p.count != 0.0 && p.count == Net(p.recipe, x)
    ensures fresh(r) && r.Valid()
    ensures err.Some? <==> p.recipe.isRate
    ensures err.None? ==> r.applications == [Application(Some(p.index), p.recipe, 1.0 / p.count, None)]
    ensures err.None? ==> Net(r.recipe, x) == 1.0
    ensures err.None? ==> forall z :: Net(r.recipe, z) != 0.0 ==> z in Resources(p.recipe)
  {
    r := new ResolvedRecipe();
    err := r.Append(RecipeRef(p.index, p.recipe, p.count), 1.0 / p.count);
    if err.None? {
      assert Net(r.recipe, x) == 1.0 by {
        UnitShare(p.recipe, p.count, x);
      }
      forall z | Net(r.recipe, z) != 0.0 ensures z in Resources(p.recipe) {
        ShareSupport(p.recipe, 1.0 / p.count, z);
      }
    }
  }

  /** `RecipeResolver`: replaces every ingredient that some recipe produces by
      that recipe, applied to yield exactly the amount needed, recursively,
      and remembers the resolution of every resource it has looked at. */
  class RecipeResolver {
    /** The economy's `get_recipe_that_produces`. */
    const producer: string -> Option<RecipeRef>
    /** A ranking that witnesses the economy has no production cycle. */
    ghost const rank: string -> nat
    var resolved: map<string, ResolvedRecipe?>

    /** What the resolver caches for `x`: nothing (null) exactly when no
        recipe produces `x`, otherwise a resolution of `x`. */
    ghost predicate Entry(x: string, r: ResolvedRecipe?)
      reads r
    {
      && (r == null <==> producer(x).None?)
      && (r != null ==> r.Valid() && Unit(producer, rank, r.recipe, x))
    }

    ghost predicate Valid()
      reads this, resolved.Values
    {
      Ranked(producer, rank) && forall x :: x in resolved ==> Entry(x, resolved[x])
    }

    /** `__init__`: an empty cache. */
    constructor (producer: string -> Option<RecipeRef>, ghost rank: string -> nat)
      requires Ranked(producer, rank)
      ensures this.producer == producer && this.rank == rank && resolved == map[]
      ensures Valid()
    {
      this.producer := producer;
      this.rank := rank;
      resolved := map[];
    }

    /** The largest rank among the ingredients. */
    ghost function MaxRank(items: seq<Resource>): (m: nat)
      ensures forall k :: 0 <= k < |items| ==> rank(items[k].name) <= m
    {
      if items == [] then 0
      else
        var m := MaxRank(items[..|items| - 1]);
        var r := rank(items[|items| - 1].name);
        if r > m then r else m
    }

    /** `_resolve_ingredient`: looks `x` up in the cache, resolving and caching
        it on the first request. */
    method ResolveIngredient(x: string) returns (res: ResolvedRecipe?, err: Option<Error>)
      requires Valid()
      modifies this
      decreases rank(x), 3
      ensures Valid()
      ensures forall y :: y in old(resolved) ==> y in resolved && resolved[y] == old(resolved)[y]
      ensures forall v :: v in resolved.Values ==> v == null || v in old(resolved.Values) || fresh(v)
      ensures x in old(resolved) ==> err.None? && res == old(resolved)[x] && resolved == old(resolved)
      ensures err.None? ==> x in resolved && resolved[x] == res && Entry(x, res)
      ensures err.Some? ==> producer(x).Some?
    {
      if x !in resolved {
        res, err := DoResolve(x);
        if err.Some? {
          return;
        }
        resolved := resolved[x := res];
      }
      res, err := resolved[x], None;
    }

    /** `_do_resolve_ingredient`: none when no recipe produces `x`; otherwise
        the producing recipe applied with the inverse of its count, its
        ingredients then resolved in turn. A zero count fails with a division
        by zero, a rate recipe with the running sum's assertion. */
    method DoResolve(x: string) returns (res: ResolvedRecipe?, err: Option<Error>)
      requires Valid()
      modifies this
      decreases rank(x), 2
      ensures Valid()
      ensures forall y :: y in old(resolved) ==> y in resolved && resolved[y] == old(resolved)[y]
      ensures forall v :: v in resolved.Values ==> v == null || v in old(resolved.Values) || fresh(v)
      ensures err.None? ==> Entry(x, res) && (res != null ==> fresh(res))
      ensures err.Some? ==> producer(x).Some?
      ensures producer(x).Some? && producer(x).value.count == 0.0 ==> err == Some(ZeroDivision)
      ensures producer(x).Some? && producer(x).value.recipe.isRate ==> err.Some?
    {
      var ref := producer(x);
      if ref.None? {
        return null, None;
      }
      var p := ref.value;
      if p.count == 0.0 {
        return null, Some(ZeroDivision);
      }
      var r;
      r, err := UnitResolution(p, x);
      if err.Some? {
        return null, err;
      }
      ghost var first := r.recipe;
      forall k | 0 <= k < |first.inputs| ensures rank(first.inputs[k].name) < rank(x) {
        assert Net(first, first.inputs[k].name) < 0.0;
      }
      err := ResolveRecipe(r, rank(x));
      if err.Some? {
        return null, err;
      }
      forall z | Net(r.recipe, z) != 0.0 ensures z == x || rank(z) < rank(x) {
        if Net(r.recipe, z) == Net(first, z) {
          assert z in Resources(p.recipe);
        }
      }
      res := r;
    }

    /** `_resolve_recipe`: walks the ingredients the running sum has when the
        walk starts and merges each one's resolution, scaled by the
        ingredient's count, into `target`. Afterwards no producible resource
        is consumed; only resources ranked below `bound` changed. */
    method ResolveRecipe(target: ResolvedRecipe, ghost bound: nat) returns (err: Option<Error>)
      requires Valid() && target.Valid() && target !in resolved.Values
      requires forall k :: 0 <= k < |target.recipe.inputs| ==> rank(target.recipe.inputs[k].name) < bound
      modifies this, target
      decreases bound, 1
      ensures Valid() && target.Valid()
      ensures forall y :: y in old(resolved) ==> y in resolved && resolved[y] == old(resolved)[y]
      ensures forall v :: v in resolved.Values ==> v == null || v in old(resolved.Values) || fresh(v)
      ensures old(target.applications) <= target.applications
      ensures forall z :: Net(target.recipe, z) != Net(old(target.recipe), z) ==> rank(z) < bound
      ensures err.None? ==> forall z :: producer(z).Some? ==> Net(target.recipe, z) >= 0.0
    {
      var ins := target.recipe.inputs;
      ghost var start := target.recipe;
      CoveredStart(producer, rank, start, bound);
      var k := 0;
      while k < |ins|
        invariant 0 <= k <= |ins|
        invariant Valid() && target.Valid() && target !in resolved.Values
        invariant forall y :: y in old(resolved) ==> y in resolved && resolved[y] == old(resolved)[y]
        invariant forall v :: v in resolved.Values ==> v == null || v in old(resolved.Values) || fresh(v)
        invariant old(target.applications) <= target.applications
        invariant Covered(producer, rank, target.recipe, start, ins, k, bound)
      {
        err := ResolveItem(target, start, ins, k, bound);
        if err.Some? {
          CoveredEnd(producer, rank, target.recipe, start, ins, k, bound);
          return;
        }
        k := k + 1;
      }
      CoveredEnd(producer, rank, target.recipe, start, ins, k, bound);
      err := None;
    }

    /** `merge` of a cached resolution into a resolution under way, which
        leaves the cache as it is. */
    method MergeCached(target: ResolvedRecipe, res: ResolvedRecipe, c: real)
      requires Valid() && target.Valid() && res.Valid() && target !in resolved.Values && res in resolved.Values
      modifies target
      ensures Valid() && target.Valid()
      ensures old(target.applications) <= target.applications
      ensures forall n :: Net(target.recipe, n) == Net(old(target.recipe), n) + Net(Mul(res.recipe, c), n)
    {
      target.Merge(res, c);
      forall y | y in resolved ensures Entry(y, resolved[y]) {
        assert resolved[y] in resolved.Values;
      }
    }

    /** One turn of `_resolve_recipe`'s loop: resolves ingredient `ins[k]`
        and, when some recipe produces it, merges its resolution scaled by
        the ingredient's count into `target`. */
    method ResolveItem(target: ResolvedRecipe, ghost start: Recipe, ins: seq<Resource>, k: nat, ghost bound: nat) returns (err: Option<Error>)
      requires Valid() && target.Valid() && target !in resolved.Values
      requires k < |ins| && ins[k].count > 0.0 && rank(ins[k].name) < bound
      requires Covered(producer, rank, target.recipe, start, ins, k, bound)
      modifies this, target
      decreases bound, 0
      ensures Valid() && target.Valid() && target !in resolved.Values
      ensures forall y :: y in old(resolved) ==> y in resolved && resolved[y] == old(resolved)[y]
      ensures forall v :: v in resolved.Values ==> v == null || v in old(resolved.Values) || fresh(v)
      ensures old(target.applications) <= target.applications
      ensures err.None? ==> Covered(producer, rank, target.recipe, start, ins, k + 1, bound)
      ensures err.Some? ==> target.recipe == old(target.recipe)
    {
      var item := ins[k];
      var res;
      res, err := ResolveIngredient(item.name);
      if err.Some? {
        return;
      }
      if res != null {
        MergeCached(target, res, item.count);
        CoveredMerge(producer, rank, old(target.recipe), target.recipe, res.recipe, start, ins, k, bound);
      } else {
        CoveredSkip(producer, rank, target.recipe, start, ins, k, bound);
      }
    }

    /** `recurse`: a fresh resolution that starts with `recipe` applied with
        `scalar` as a pseudo recipe and then has all its ingredients resolved.
        A rate recipe fails the running sum's assertion. */
    method Recurse(recipe: Recipe, scalar: real) returns (res: ResolvedRecipe?, err: Option<Error>)
      requires Valid()
      modifies this
      ensures Valid()
      ensures forall y :: y in old(resolved) ==> y in resolved && resolved[y] == old(resolved)[y]
      ensures recipe.isRate ==> err == Some(AssertionFailed)
      ensures err.None? ==> res != null && fresh(res) && res.Valid()
      ensures err.None? ==> |res.applications| > 0 && res.applications[0] == Application(None, recipe, scalar, None)
      ensures err.None? ==> forall z :: producer(z).Some? ==> Net(res.recipe, z) >= 0.0
    {
      var r := new ResolvedRecipe();
      err := r.AppendPseudoRecipe(recipe, scalar, None);
      if err.Some? {
        return null, err;
      }
      err := ResolveRecipe(r, MaxRank(r.recipe.inputs) + 1);
      if err.Some? {
        return null, err;
      }
      res := r;
    }
  }
}
