/** `Recipe.py` of the top-level generation: a recipe is a tuple of
    ingredients and a tuple of products, each a (name, count) resource, and a
    scalar the recipe is applied with. Adding two recipes nets them out over
    signed tuples, in which ingredients count negative and products positive.
    Counts are `int`s or `Fraction`s, both modelled as exact `real`s. */
module SignedRecipe {

  import opened Common
  import opened Seqs
  import opened Text
  import opened Numbers

  datatype Resource = Resource(name: string, count: real)

  datatype Recipe = Recipe(
    inputs: seq<Resource>,
    outputs: seq<Resource>,
    scalar: real,
    name: Option<string>,
    producedAt: Option<string>,
    isRate: bool)

  /** The names of a tuple of resources, in order. */
  function Names(items: seq<Resource>): (ns: seq<string>)
    ensures |ns| == |items| && forall k :: 0 <= k < |items| ==> ns[k] == items[k].name
  {
    seq(|items|, k requires 0 <= k < |items| => items[k].name)
  }

  lemma NamesAppend(a: seq<Resource>, b: seq<Resource>)
    ensures Names(a + b) == Names(a) + Names(b)
  {
  }

  /** The count of `n` summed over a tuple of resources. */
  function Total(items: seq<Resource>, n: string): real
  {
    if items == [] then 0.0
    else
      var last := items[|items| - 1];
      Total(items[..|items| - 1], n) + (if last.name == n then last.count else 0.0)
  }

  lemma {:induction false} TotalAppend(a: seq<Resource>, b: seq<Resource>, n: string)
    ensures Total(a + b, n) == Total(a, n) + Total(b, n)
  {
    if b == [] {
      assert a + b == a;
    } else {
      var init := b[..|b| - 1];
      assert (a + b)[..|a + b| - 1] == a + init;
      TotalAppend(a, init, n);
    }
  }

  lemma {:induction false} TotalAbsent(items: seq<Resource>, n: string)
    requires n !in Names(items)
    ensures Total(items, n) == 0.0
  {
    if items != [] {
      var init := items[..|items| - 1];
      assert Names(init) == Names(items)[..|items| - 1];
      TotalAbsent(init, n);
    }
  }

  /** Where names are distinct, the total of a name is its one count. */
  lemma {:induction false} TotalDistinct(items: seq<Resource>, k: nat)
    requires Distinct(Names(items)) && k < |items|
    ensures Total(items, items[k].name) == items[k].count
  {
    var init := items[..|items| - 1];
    var last := items[|items| - 1];
    assert Names(init) == Names(items)[..|items| - 1];
    if k == |items| - 1 {
      forall j | 0 <= j < |init| ensures Names(init)[j] != last.name {
        assert Names(items)[j] != Names(items)[|items| - 1];
      }
      TotalAbsent(init, last.name);
    } else {
      assert Distinct(Names(init));
      TotalDistinct(init, k);
      assert Names(items)[k] != Names(items)[|items| - 1];
    }
  }

  /** `_scaled_tuple`: every count multiplied by the scalar, names and order kept. */
  function Scaled(items: seq<Resource>, c: real): (s: seq<Resource>)
    ensures |s| == |items| && Names(s) == Names(items)
  {
    seq(|items|, k requires 0 <= k < |items| => Resource(items[k].name, c * items[k].count))
  }

  /** The share each resource of a tuple has in the total of `n`. */
  function Shares(items: seq<Resource>, n: string): (xs: seq<real>)
    ensures |xs| == |items|
    ensures forall k :: 0 <= k < |items| ==> xs[k] == if items[k].name == n then items[k].count else 0.0
  {
    seq(|items|, k requires 0 <= k < |items| => if items[k].name == n then items[k].count else 0.0)
  }

  function Sum(xs: seq<real>): real
  {
    if xs == [] then 0.0 else Sum(xs[..|xs| - 1]) + xs[|xs| - 1]
  }

  /** The total of `n` is the sum of its shares. */
  lemma {:induction false} TotalIsSum(items: seq<Resource>, n: string)
    ensures Total(items, n) == Sum(Shares(items, n))
  {
    if items != [] {
      var m := |items| - 1;
      assert Shares(items, n)[..m] == Shares(items[..m], n);
      TotalIsSum(items[..m], n);
    }
  }

  /** Multiplying every term multiplies the sum. */
  lemma {:induction false} SumScaled(xs: seq<real>, ys: seq<real>, c: real)
    requires |ys| == |xs| && forall k :: 0 <= k < |xs| ==> ys[k] == c * xs[k]
    ensures Sum(ys) == c * Sum(xs)
  {
    if xs != [] {
      var m := |xs| - 1;
      SumScaled(xs[..m], ys[..m], c);
      ScaleStep(Sum(ys), Sum(ys[..m]), c, Sum(xs[..m]), xs[m], Sum(xs));
    }
  }

  lemma {:induction false} SumAppend(xs: seq<real>, ys: seq<real>)
    ensures Sum(xs + ys) == Sum(xs) + Sum(ys)
  {
    if ys != [] {
      var m := |ys| - 1;
      assert (xs + ys)[..|xs| + m] == xs + ys[..m];
      SumAppend(xs, ys[..m]);
    } else {
      assert xs + ys == xs;
    }
  }

  lemma ScaleStep(a: real, b: real, c: real, t: real, x: real, tx: real)
    requires a == b + c * x && b == c * t && tx == t + x
    ensures a == c * tx
  {
  }

  /** Scaling a tuple scales the total of every name. */
  lemma TotalScaled(items: seq<Resource>, c: real, n: string)
    ensures Total(Scaled(items, c), n) == c * Total(items, n)
  {
    var xs := Shares(items, n);
    var ys := Shares(Scaled(items, c), n);
    forall k | 0 <= k < |xs| ensures ys[k] == c * xs[k] {
      assert Scaled(items, c)[k] == Resource(items[k].name, c * items[k].count);
    }
    SumScaled(xs, ys, c);
    TotalIsSum(items, n);
    TotalIsSum(Scaled(items, c), n);
  }

  /** What `_add_sides` yields for the concatenation of its sides: one
      resource per name, in the order the names first appear, carrying that
      name's total. */
  function Summed(items: seq<Resource>): seq<Resource>
  {
    var keys := Dedup(Names(items));
    seq(|keys|, k requires 0 <= k < |keys| => Resource(keys[k], Total(items, keys[k])))
  }

  /** The sum lists each name once, in first-seen order, with its total. */
  lemma SummedSpec(items: seq<Resource>, n: string)
    ensures Names(Summed(items)) == Dedup(Names(items))
    ensures Distinct(Names(Summed(items)))
    ensures Total(Summed(items), n) == Total(items, n)
  {
    var keys := Dedup(Names(items));
    var s := Summed(items);
    assert Names(s) == keys;
    DedupElements(Names(items));
    if n in keys {
      var k :| 0 <= k < |keys| && keys[k] == n;
      TotalDistinct(s, k);
    } else {
      TotalAbsent(s, n);
      TotalAbsent(items, n);
    }
  }

  /** The sides of `_add_sides` one after the other. */
  function Flatten(sides: seq<seq<Resource>>): seq<Resource>
  {
    if sides == [] then [] else Flatten(sides[..|sides| - 1]) + sides[|sides| - 1]
  }

  /** The OrderedDict of `_add_sides` after the resources `items`: its keys
      in insertion order and its values. */
  ghost predicate SumState(items: seq<Resource>, keys: seq<string>, sums: map<string, real>)
  {
    && keys == Dedup(Names(items))
    && (forall n :: n in sums <==> n in keys)
    && (forall n :: n in sums ==> sums[n] == Total(items, n))
  }

  lemma SumStep(items: seq<Resource>, x: Resource, keys: seq<string>, sums: map<string, real>)
    requires SumState(items, keys, sums)
    ensures SumState(items + [x],
      if x.name in sums then keys else keys + [x.name],
      sums[x.name := if x.name in sums then sums[x.name] + x.count else x.count])
  {
    var next := items + [x];
    var keys' := if x.name in sums then keys else keys + [x.name];
    var sums' := sums[x.name := if x.name in sums then sums[x.name] + x.count else x.count];
    assert keys' == Dedup(Names(next)) by {
      NamesAppend(items, [x]);
      assert Names([x]) == [x.name];
      DedupPush(Names(items), x.name);
    }
    forall n | n in sums' ensures sums'[n] == Total(next, n) {
      assert next[..|next| - 1] == items;
      if n == x.name && x.name !in sums {
        DedupElements(Names(items));
        TotalAbsent(items, n);
      }
    }
  }

  /** One step of `_add_sides`: the item's count is added to its name's
      entry, which is created at the end when the name is new. */
  method Accumulate(keys: seq<string>, sums: map<string, real>, item: Resource, ghost items: seq<Resource>)
    returns (keys': seq<string>, sums': map<string, real>)
    requires SumState(items, keys, sums)
    ensures SumState(items + [item], keys', sums')
  {
    SumStep(items, item, keys, sums);
    if item.name in sums {
      keys', sums' := keys, sums[item.name := sums[item.name] + item.count];
    } else {
      keys', sums' := keys + [item.name], sums[item.name := item.count];
    }
  }

  lemma FlattenPush(sides: seq<seq<Resource>>, i: nat)
    requires i < |sides|
    ensures Flatten(sides[..i + 1]) == Flatten(sides[..i]) + sides[i]
  {
    assert sides[..i + 1][..i] == sides[..i];
  }

  /** The ordered dictionary read out in key order is the sum. */
  lemma SumStateResult(items: seq<Resource>, keys: seq<string>, sums: map<string, real>, r: seq<Resource>)
    requires SumState(items, keys, sums)
    requires |r| == |keys| && forall k :: 0 <= k < |keys| ==> keys[k] in sums && r[k] == Resource(keys[k], sums[keys[k]])
    ensures r == Summed(items)
  {
  }

  /** `_add_sides`: the sum of all sides, by a pass that fills an ordered
      dictionary. */
  method AddSides(sides: seq<seq<Resource>>) returns (r: seq<Resource>)
    ensures r == Summed(Flatten(sides))
  {
    var keys: seq<string> := [];
    var sums: map<string, real> := map[];
    for i := 0 to |sides|
      invariant SumState(Flatten(sides[..i]), keys, sums)
    {
      var side := sides[i];
      ghost var done := Flatten(sides[..i]);
      assert done + side[..0] == done;
      for j := 0 to |side|
        invariant SumState(done + side[..j], keys, sums)
      {
        keys, sums := Accumulate(keys, sums, side[j], done + side[..j]);
        assert done + side[..j] + [side[j]] == done + side[..j + 1];
      }
      assert side[..|side|] == side;
      FlattenPush(sides, i);
    }
    assert sides[..|sides|] == sides;
    r := seq(|keys|, k requires 0 <= k < |keys| => Resource(keys[k], sums[keys[k]]));
    SumStateResult(Flatten(sides), keys, sums, r);
  }

  /** The negative entries of a signed tuple, negated, in order. */
  function Negatives(t: seq<Resource>): seq<Resource>
  {
    if t == [] then []
    else
      var x := t[|t| - 1];
      Negatives(t[..|t| - 1]) + (if x.count < 0.0 then [Resource(x.name, -x.count)] else [])
  }

  /** The positive entries of a signed tuple, in order. */
  function Positives(t: seq<Resource>): seq<Resource>
  {
    if t == [] then []
    else
      var x := t[|t| - 1];
      Positives(t[..|t| - 1]) + (if x.count > 0.0 then [x] else [])
  }

  /** Zeros are dropped: every count on either side is positive. */
  lemma {:induction false} SplitPositive(t: seq<Resource>)
    ensures forall k :: 0 <= k < |Negatives(t)| ==> Negatives(t)[k].count > 0.0
    ensures forall k :: 0 <= k < |Positives(t)| ==> Positives(t)[k].count > 0.0
  {
    if t != [] {
      SplitPositive(t[..|t| - 1]);
    }
  }

  /** The recipe `from_inout_tuple` builds from a signed tuple. */
  function FromInout(t: seq<Resource>, scalar: real, name: Option<string>, isRate: bool): Recipe
  {
    Recipe(Negatives(t), Positives(t), scalar, name, None, isRate)
  }

  /** `from_inout_tuple`: negative counts, negated, become ingredients,
      positive ones products, and zeros are dropped. */
  method FromInoutTuple(t: seq<Resource>, scalar: real, name: Option<string>, isRate: bool) returns (r: Recipe)
    ensures r == FromInout(t, scalar, name, isRate)
  {
    var lhs: seq<Resource> := [];
    var rhs: seq<Resource> := [];
    for i := 0 to |t|
      invariant lhs == Negatives(t[..i]) && rhs == Positives(t[..i])
    {
      var item := t[i];
      assert t[..i + 1][..i] == t[..i];
      if item.count == 0.0 {
      } else if item.count < 0.0 {
        lhs := lhs + [Resource(item.name, -item.count)];
      } else {
        rhs := rhs + [Resource(item.name, item.count)];
      }
    }
    assert t[..|t|] == t;
    r := Recipe(lhs, rhs, scalar, name, None, isRate);
  }

  /** Splitting by sign loses nothing: products minus ingredients is the signed total. */
  lemma {:induction false} SplitKeepsTotal(t: seq<Resource>, n: string)
    ensures Total(Positives(t), n) - Total(Negatives(t), n) == Total(t, n)
  {
    if t != [] {
      var init := t[..|t| - 1];
      var x := t[|t| - 1];
      SplitKeepsTotal(init, n);
      TotalAppend(Negatives(init), if x.count < 0.0 then [Resource(x.name, -x.count)] else [], n);
      TotalAppend(Positives(init), if x.count > 0.0 then [x] else [], n);
      assert Total([x], n) == if x.name == n then x.count else 0.0;
      assert Total([Resource(x.name, -x.count)], n) == if x.name == n then -x.count else 0.0;
    }
  }

  /** Splitting by sign keeps order: the split of a concatenation is the
      concatenation of the splits. */
  lemma {:induction false} SplitKeepsOrder(a: seq<Resource>, b: seq<Resource>)
    ensures Negatives(a + b) == Negatives(a) + Negatives(b)
    ensures Positives(a + b) == Positives(a) + Positives(b)
  {
    if b == [] {
      assert a + b == a;
    } else {
      var init := b[..|b| - 1];
      assert (a + b)[..|a + b| - 1] == a + init;
      SplitKeepsOrder(a, init);
    }
  }

  /** In a tuple with distinct names, a name is an ingredient exactly when
      its total is negative, and a product exactly when it is positive. */
  lemma {:induction false} SplitMembers(t: seq<Resource>, n: string)
    requires Distinct(Names(t))
    ensures n in Names(Negatives(t)) <==> Total(t, n) < 0.0
    ensures n in Names(Positives(t)) <==> Total(t, n) > 0.0
  {
    if t != [] {
      var init := t[..|t| - 1];
      assert Names(init) == Names(t)[..|t| - 1];
      SplitMembers(init, n);
      SplitNamesLast(t);
      if t[|t| - 1].name == n {
        SplitMembersLast(t, n);
      } else {
        assert Total(t, n) == Total(init, n);
      }
    }
  }

  /** The last resource's name, if distinct from the others, is on the side
      of its sign alone, and its count is the whole total. */
  lemma SplitMembersLast(t: seq<Resource>, n: string)
    requires t != [] && Distinct(Names(t)) && t[|t| - 1].name == n
    ensures var init := t[..|t| - 1];
      n !in Names(Negatives(init)) && n !in Names(Positives(init)) && Total(t, n) == t[|t| - 1].count
  {
    var init := t[..|t| - 1];
    forall j | 0 <= j < |init| ensures Names(init)[j] != n {
      assert Names(t)[j] != Names(t)[|t| - 1];
    }
    TotalAbsent(init, n);
    NamesWithin(init, n);
  }

  /** The names on either side grow by the last resource's name when its
      sign puts it there. */
  lemma SplitNamesLast(t: seq<Resource>)
    requires t != []
    ensures var init := t[..|t| - 1]; var x := t[|t| - 1];
      && Names(Negatives(t)) == Names(Negatives(init)) + (if x.count < 0.0 then [x.name] else [])
      && Names(Positives(t)) == Names(Positives(init)) + (if x.count > 0.0 then [x.name] else [])
  {
    var init := t[..|t| - 1];
    var x := t[|t| - 1];
    var neg := if x.count < 0.0 then [Resource(x.name, -x.count)] else [];
    var pos := if x.count > 0.0 then [x] else [];
    NamesAppend(Negatives(init), neg);
    NamesAppend(Positives(init), pos);
    assert Names(neg) == if x.count < 0.0 then [x.name] else [];
    assert Names(pos) == if x.count > 0.0 then [x.name] else [];
  }

  /** A name the signed tuple lacks is in neither of its sides. */
  lemma {:induction false} NamesWithin(t: seq<Resource>, n: string)
    requires n !in Names(t)
    ensures n !in Names(Negatives(t)) && n !in Names(Positives(t))
  {
    if t != [] {
      var init := t[..|t| - 1];
      assert Names(init) == Names(t)[..|t| - 1];
      NamesWithin(init, n);
      SplitNamesLast(t);
    }
  }

  /** The net amount of `n` the recipe yields with its scalar applied:
      products count positive, ingredients negative. */
  function Net(r: Recipe, n: string): real
  {
    r.scalar * (Total(r.outputs, n) - Total(r.inputs, n))
  }

  /** `empty_recipe`: no resources at all. */
  function EmptyRecipe(name: Option<string>, isRate: bool): (r: Recipe)
    ensures forall n :: Net(r, n) == 0.0
    ensures r.name == name && r.isRate == isRate && r.scalar == 1.0
  {
    Recipe([], [], 1.0, name, None, isRate)
  }

  /** `resources`: every name among the ingredients and the products. */
  function Resources(r: Recipe): set<string>
  {
    (set k | 0 <= k < |r.inputs| :: r.inputs[k].name) + (set k | 0 <= k < |r.outputs| :: r.outputs[k].name)
  }

  /** The resources are exactly the names on either side, and a recipe
      yields nothing of any other name. */
  lemma ResourcesSpec(r: Recipe, n: string)
    ensures n in Resources(r) <==> n in Names(r.inputs) || n in Names(r.outputs)
    ensures n !in Resources(r) ==> Net(r, n) == 0.0
  {
    if n !in Resources(r) {
      forall k | 0 <= k < |r.inputs| ensures Names(r.inputs)[k] != n {
        assert r.inputs[k].name in Resources(r);
      }
      forall k | 0 <= k < |r.outputs| ensures Names(r.outputs)[k] != n {
        assert r.outputs[k].name in Resources(r);
      }
      TotalAbsent(r.inputs, n);
      TotalAbsent(r.outputs, n);
    } else if n in Names(r.inputs) {
      var k :| 0 <= k < |r.inputs| && Names(r.inputs)[k] == n;
      assert r.inputs[k].name in Resources(r);
    } else if n in Names(r.outputs) {
      var k :| 0 <= k < |r.outputs| && Names(r.outputs)[k] == n;
      assert r.outputs[k].name in Resources(r);
    }
  }

  /** `scaled_inout_tuple`: the signed tuple of the recipe with its scalar applied. */
  function ScaledInout(r: Recipe): seq<Resource>
  {
    Summed(Scaled(r.inputs, Negated(r.scalar)) + Scaled(r.outputs, r.scalar))
  }

  /** Minus `c`, named so that the solver keeps it as one term. */
  function Negated(c: real): real
  {
    -c
  }

  /** The signed tuple lists each name once and carries the recipe's net amounts. */
  lemma ScaledInoutNet(r: Recipe, n: string)
    ensures Distinct(Names(ScaledInout(r)))
    ensures Total(ScaledInout(r), n) == Net(r, n)
  {
    var x := Scaled(r.inputs, Negated(r.scalar)) + Scaled(r.outputs, r.scalar);
    assert Distinct(Names(ScaledInout(r))) && Total(ScaledInout(r), n) == Total(x, n) by {
      SummedSpec(x, n);
    }
    SignedNet(r, n);
  }

  /** Ingredients scaled by minus the scalar and products by the scalar total the net amount. */
  lemma SignedNet(r: Recipe, n: string)
    ensures Total(Scaled(r.inputs, Negated(r.scalar)) + Scaled(r.outputs, r.scalar), n) == Net(r, n)
  {
    ScaledPairTotal(r.inputs, r.outputs, Negated(r.scalar), r.scalar, n);
    NetSplit(r, n);
  }

  /** The net amount is the scaled products' total less the scaled ingredients'. */
  lemma NetSplit(r: Recipe, n: string)
    ensures Net(r, n) == Negated(r.scalar) * Total(r.inputs, n) + r.scalar * Total(r.outputs, n)
  {
    SignedSum(Negated(r.scalar), r.scalar, Total(r.inputs, n), Total(r.outputs, n));
  }

  lemma SignedSum(d: real, c: real, i: real, o: real)
    requires d == -c
    ensures d * i + c * o == c * (o - i)
  {
  }

  /** Inputs scaled by `d` and outputs by `c` total the scaled totals. */
  lemma ScaledPairTotal(inputs: seq<Resource>, outputs: seq<Resource>, d: real, c: real, n: string)
    ensures Total(Scaled(inputs, d) + Scaled(outputs, c), n) == d * Total(inputs, n) + c * Total(outputs, n)
  {
    TotalAppend(Scaled(inputs, d), Scaled(outputs, c), n);
    TotalScaled(inputs, d, n);
    TotalScaled(outputs, c, n);
  }

  /** `__mul__`: the same tuples, name and place, with the scalar multiplied. */
  function Mul(r: Recipe, c: real): Recipe
  {
    r.(scalar := r.scalar * c)
  }

  /** Multiplying by `c` multiplies every net amount by `c`. */
  lemma MulNet(r: Recipe, c: real, n: string)
    ensures Net(Mul(r, c), n) == c * Net(r, n)
  {
    var d := Total(r.outputs, n) - Total(r.inputs, n);
    assert r.scalar * c * d == c * (r.scalar * d);
  }

  /** Multiplying keeps the tuples, the name, the place and the rate flag;
      two multiplications are one by the product, and multiplying by 1
      changes nothing. */
  lemma MulCompose(r: Recipe, a: real, b: real)
    ensures Mul(r, a).inputs == r.inputs && Mul(r, a).outputs == r.outputs
    ensures Mul(r, a).name == r.name && Mul(r, a).producedAt == r.producedAt && Mul(r, a).isRate == r.isRate
    ensures Mul(Mul(r, a), b) == Mul(r, a * b)
    ensures Mul(r, 1.0) == r
  {
    assert r.scalar * a * b == r.scalar * (a * b);
  }

  /** `__add__`: both recipes must agree on being rates; the sum is the
      signed sum of their scaled tuples, split by sign again. */
  function Add(a: Recipe, b: Recipe): (r: Result<Recipe>)
    ensures r.Err? <==> a.isRate != b.isRate
    ensures r.Err? ==> r.error == AssertionFailed
  {
    if a.isRate != b.isRate then Err(AssertionFailed)
    else Ok(FromInout(Summed(ScaledInout(a) + ScaledInout(b)), 1.0, None, a.isRate))
  }

  /** The sum nets out: every net amount is the sum of both recipes' net
      amounts, all its counts are positive (zeros dropped), a name is an
      ingredient exactly when its net amount is negative and a product
      exactly when it is positive. */
  lemma AddNet(a: Recipe, b: Recipe, n: string)
    requires a.isRate == b.isRate
    ensures var s := Add(a, b).value;
      && Net(s, n) == Net(a, n) + Net(b, n)
      && s.scalar == 1.0 && s.isRate == a.isRate && s.name == None && s.producedAt == None
      && (forall k :: 0 <= k < |s.inputs| ==> s.inputs[k].count > 0.0)
      && (forall k :: 0 <= k < |s.outputs| ==> s.outputs[k].count > 0.0)
      && (n in Names(s.inputs) <==> Net(a, n) + Net(b, n) < 0.0)
      && (n in Names(s.outputs) <==> Net(a, n) + Net(b, n) > 0.0)
  {
    var t := Summed(ScaledInout(a) + ScaledInout(b));
    SummedSpec(ScaledInout(a) + ScaledInout(b), n);
    TotalAppend(ScaledInout(a), ScaledInout(b), n);
    ScaledInoutNet(a, n);
    ScaledInoutNet(b, n);
    SplitKeepsTotal(t, n);
    SplitMembers(t, n);
    SplitPositive(t);
    var s := Add(a, b).value;
    assert s.inputs == Negatives(t) && s.outputs == Positives(t);
    assert Net(s, n) == 1.0 * (Total(Positives(t), n) - Total(Negatives(t), n));
  }

  // ---- Parsing recipe text -------------------------------------------------

  predicate IsNameChar(c: char) { IsAsciiLetter(c) || IsDigit(c) || c == '-' || c == '_' }

  predicate AllNameChars(s: string) { forall i :: 0 <= i < |s| ==> IsNameChar(s[i]) }

  /** A match of the item pattern: an optional cardinality and a name. */
  datatype ItemMatch = ItemMatch(cardinality: Option<nat>, name: string)

  /** `_ITEM_RE.fullmatch`: optional decimal digits, optional whitespace,
      then a name of letters, digits, `-` and `_`. The digit group is greedy
      but gives back its last digit when nothing else is left for the name. */
  function MatchItem(t: string): (m: Option<ItemMatch>)
    ensures m.Some? ==> m.value.name != [] && AllNameChars(m.value.name)
  {
    var d := DigitSpan(t);
    DigitSpanSpec(t);
    if d == |t| then
      assert t[..d] == t;
      if d == 0 then None
      else if d == 1 then Some(ItemMatch(None, t))
      else Some(ItemMatch(Some(DigitsValue(t[..d - 1])), t[d - 1..]))
    else
      var w := LeadingWhitespace(t[d..]);
      var n := t[d..][w..];
      if n != [] && AllNameChars(n) then Some(ItemMatch(if d == 0 then None else Some(DigitsValue(t[..d])), n))
      else None
  }

  /** A cardinality, a blank and a name match as that cardinality and name. */
  lemma MatchItemWithCardinality(c: nat, name: string)
    requires name != [] && AllNameChars(name)
    ensures MatchItem(NatDigits(c) + " " + name) == Some(ItemMatch(Some(c), name))
  {
    var digits := NatDigits(c);
    var t := digits + " " + name;
    NatDigitsValue(c);
    assert t == digits + (" " + name);
    DigitsThen(digits, " " + name, t);
    MatchItemAt(t, |digits|, name);
  }

  /** Digits, then one blank, then a name: the digits are the cardinality. */
  lemma MatchItemAt(t: string, d: nat, name: string)
    requires 0 < d < |t| && DigitSpan(t) == d && AllDigits(t[..d]) && t[d..] == " " + name
    requires name != [] && AllNameChars(name)
    ensures MatchItem(t) == Some(ItemMatch(Some(DigitsValue(t[..d])), name))
  {
    assert IsNameChar(name[0]);
    BlankThenName(name);
  }

  /** Digits followed by a non-digit: the span is the digits. */
  lemma DigitsThen(digits: string, b: string, t: string)
    requires AllDigits(digits) && b != [] && !IsDigit(b[0]) && t == digits + b
    ensures DigitSpan(t) == |digits| && t[..|digits|] == digits && t[|digits|..] == b
  {
    DigitSpanOf(digits, b);
  }

  /** One blank before a name is all the leading whitespace there is. */
  lemma BlankThenName(name: string)
    requires name != [] && !IsWhitespace(name[0])
    ensures LeadingWhitespace(" " + name) == 1 && (" " + name)[1..] == name
  {
    var b := " " + name;
    assert b[1..] == name;
    assert LeadingWhitespace(name) == 0;
  }

  /** A name that does not start with a digit matches alone, without cardinality. */
  lemma MatchItemBare(name: string)
    requires name != [] && AllNameChars(name) && !IsDigit(name[0])
    ensures MatchItem(name) == Some(ItemMatch(None, name))
  {
    assert name[0..] == name;
  }

  /** Digits alone: the last one is the name, the others the cardinality. */
  lemma MatchItemDigitsOnly()
    ensures MatchItem("123") == Some(ItemMatch(Some(12), "3"))
  {
    assert DigitSpan("123") == 3 by { DigitSpanOf("123", []); assert "123" + [] == "123"; }
    assert "123"[..2] == "12" && "12"[..1] == "1" && "1"[..0] == [];
    assert DigitsValue("12") == 12;
    assert "123"[2..] == "3";
  }

  /** The count of one item: its cardinality (1 when absent) or, in a rates
      recipe, `cardinality / cycle_time * 60`. Python divides an `int` by an
      `int` into a float, which the model reports instead of following. */
  function ItemCount(cardinality: Option<nat>, cycleTime: Option<Number>): (r: Result<real>)
    ensures cycleTime.None? ==> r == Ok(if cardinality.Some? then cardinality.value as real else 1.0)
    ensures cycleTime.Some? && cycleTime.value.Value() == 0.0 ==> r == Err(ZeroDivision)
    ensures cycleTime.Some? && cycleTime.value.FracNum? && cycleTime.value.q != 0.0 ==>
      r.Ok? && r.value * cycleTime.value.q == 60.0 * (if cardinality.Some? then cardinality.value as real else 1.0)
    ensures cycleTime.Some? && cycleTime.value.IntNum? && cycleTime.value.i != 0 ==> r.Err? && r.error.FloatValue?
  {
    var card := if cardinality.Some? then cardinality.value as real else 1.0;
    match cycleTime
    case None => Ok(card)
    case Some(IntNum(i)) => if i == 0 then Err(ZeroDivision) else Err(FloatValue("int / int"))
    case Some(FracNum(q)) =>
      if q == 0.0 then Err(ZeroDivision)
      else
        var count := card / q * 60.0;
        assert count * q == 60.0 * card;
        Ok(count)
  }

  /** One piece of a side: stripped, matched and counted. */
  function ParsedItem(piece: string, cycleTime: Option<Number>): (r: Result<Resource>)
  {
    match MatchItem(Strip(piece))
    case None => Err(ParseError("Not a valid item descriptor"))
    case Some(m) =>
      match ItemCount(m.cardinality, cycleTime)
      case Err(e) => Err(e)
      case Ok(count) => Ok(Resource(m.name, count))
  }

  /** The pieces of a side parsed in order; the first malformed piece raises. */
  function ParsedSide(pieces: seq<string>, cycleTime: Option<Number>): (r: Result<seq<Resource>>)
    ensures r.Ok? ==> |r.value| == |pieces|
  {
    if pieces == [] then Ok([])
    else
      match ParsedSide(pieces[..|pieces| - 1], cycleTime)
      case Err(e) => Err(e)
      case Ok(side) =>
        match ParsedItem(pieces[|pieces| - 1], cycleTime)
        case Err(e) => Err(e)
        case Ok(x) => Ok(side + [x])
  }

  /** One more piece: the side so far extended by that piece's item, or
      that piece's error. */
  lemma ParsedSideNext(pieces: seq<string>, i: nat, cycleTime: Option<Number>, side: seq<Resource>)
    requires i < |pieces| && ParsedSide(pieces[..i], cycleTime) == Ok(side)
    ensures ParsedSide(pieces[..i + 1], cycleTime) ==
      match ParsedItem(pieces[i], cycleTime)
      case Err(e) => Err(e)
      case Ok(x) => Ok(side + [x])
  {
    assert pieces[..i + 1][..i] == pieces[..i];
  }

  /** An error among the first pieces is the error of the whole side. */
  lemma {:induction false} ParsedSideError(pieces: seq<string>, i: nat, cycleTime: Option<Number>)
    requires i <= |pieces| && ParsedSide(pieces[..i], cycleTime).Err?
    ensures ParsedSide(pieces, cycleTime) == ParsedSide(pieces[..i], cycleTime)
    decreases |pieces| - i
  {
    if i < |pieces| {
      assert pieces[..i + 1][..i] == pieces[..i];
      ParsedSideError(pieces, i + 1, cycleTime);
    } else {
      assert pieces[..i] == pieces;
    }
  }

  /** `_parse_recipe_side`: the side split at `+`, each piece stripped and
      matched in turn. */
  method ParseRecipeSide(sideStr: string, cycleTime: Option<Number>) returns (r: Result<seq<Resource>>)
    ensures r == ParsedSide(Split(sideStr, '+'), cycleTime)
  {
    var pieces := Split(sideStr, '+');
    var side: seq<Resource> := [];
    for i := 0 to |pieces|
      invariant ParsedSide(pieces[..i], cycleTime) == Ok(side)
    {
      ParsedSideNext(pieces, i, cycleTime, side);
      var item := ParsedItem(pieces[i], cycleTime);
      if item.Err? {
        ParsedSideError(pieces, i + 1, cycleTime);
        return Err(item.error);
      }
      side := side + [item.value];
    }
    assert pieces[..|pieces|] == pieces;
    return Ok(side);
  }

  /** `from_str`: the text is cut at its last `->` (the pattern's left group
      is greedy, and `.` stops at a newline), both sides are parsed, and the
      recipe is a rates recipe exactly when a cycle time is given. */
  function RecipeOfText(s: string, name: Option<string>, producedAt: Option<string>, cycleTime: Option<Number>): (r: Result<Recipe>)
    ensures r.Ok? ==> r.value.isRate == cycleTime.Some? && r.value.scalar == 1.0
                      && r.value.name == name && r.value.producedAt == producedAt
    ensures RFind(s, "->").None? ==> r == Err(ParseError("Not a valid recipe string"))
  {
    if '\n' in s then Err(ParseError("Not a valid recipe string"))
    else
      match RFind(s, "->")
      case None => Err(ParseError("Not a valid recipe string"))
      case Some(i) =>
        match ParsedSide(Split(s[..i], '+'), cycleTime)
        case Err(e) => Err(e)
        case Ok(lhs) =>
          match ParsedSide(Split(s[i + 2..], '+'), cycleTime)
          case Err(e) => Err(e)
          case Ok(rhs) => Ok(Recipe(lhs, rhs, 1.0, name, producedAt, cycleTime.Some?))
  }

  method FromStr(s: string, name: Option<string>, producedAt: Option<string>, cycleTime: Option<Number>) returns (r: Result<Recipe>)
    ensures r == RecipeOfText(s, name, producedAt, cycleTime)
  {
    if '\n' in s {
      return Err(ParseError("Not a valid recipe string"));
    }
    var arrow := RFind(s, "->");
    if arrow.None? {
      return Err(ParseError("Not a valid recipe string"));
    }
    var i := arrow.value;
    var lhs := ParseRecipeSide(s[..i], cycleTime);
    if lhs.Err? {
      return Err(lhs.error);
    }
    var rhs := ParseRecipeSide(s[i + 2..], cycleTime);
    if rhs.Err? {
      return Err(rhs.error);
    }
    return Ok(Recipe(lhs.value, rhs.value, 1.0, name, producedAt, cycleTime.Some?));
  }

  // ---- Recipe text written out and read back -------------------------------

  /** An item written with its cardinality: `"12 iron"`. */
  function ItemText(x: (nat, string)): string
  {
    NatDigits(x.0) + " " + x.1
  }

  function ItemTexts(side: seq<(nat, string)>): (ts: seq<string>)
    ensures |ts| == |side| && forall k :: 0 <= k < |side| ==> ts[k] == ItemText(side[k])
  {
    seq(|side|, k requires 0 <= k < |side| => ItemText(side[k]))
  }

  /** A side written out: its items joined by `+`. */
  function SideText(side: seq<(nat, string)>): string
    requires |side| >= 1
  {
    Join(ItemTexts(side), '+')
  }

  /** The resources a written side stands for. */
  function SideResources(side: seq<(nat, string)>): (rs: seq<Resource>)
    ensures |rs| == |side|
  {
    seq(|side|, k requires 0 <= k < |side| => Resource(side[k].1, side[k].0 as real))
  }

  predicate WellNamed(side: seq<(nat, string)>)
  {
    forall k :: 0 <= k < |side| ==> side[k].1 != [] && AllNameChars(side[k].1)
  }

  /** A character that is no digit, blank or name character is in no item text. */
  lemma NotInItemText(x: (nat, string), c: char)
    requires AllNameChars(x.1) && !IsDigit(c) && c != ' ' && !IsNameChar(c)
    ensures c !in ItemText(x)
  {
    var t := ItemText(x);
    var digits := NatDigits(x.0);
    forall k | 0 <= k < |t| ensures t[k] != c {
      if k < |digits| {
        assert t[k] == digits[k];
      } else if k > |digits| {
        assert t[k] == x.1[k - |digits| - 1];
      }
    }
  }

  lemma NotInSideText(side: seq<(nat, string)>, c: char)
    requires |side| >= 1 && WellNamed(side) && !IsDigit(c) && c != ' ' && !IsNameChar(c) && c != '+'
    ensures c !in SideText(side)
  {
    forall k | 0 <= k < |side| ensures c !in ItemTexts(side)[k] {
      NotInItemText(side[k], c);
    }
    JoinWithout(ItemTexts(side), '+', c);
  }

  lemma ParsedItemText(x: (nat, string))
    requires x.1 != [] && AllNameChars(x.1)
    ensures ParsedItem(ItemText(x), None) == Ok(Resource(x.1, x.0 as real))
  {
    var t := ItemText(x);
    assert t[0] == NatDigits(x.0)[0];
    assert t[|t| - 1] == x.1[|x.1| - 1];
    StripUnchanged(t);
    MatchItemWithCardinality(x.0, x.1);
  }

  lemma {:induction false} ParsedItemTexts(side: seq<(nat, string)>)
    requires WellNamed(side)
    ensures ParsedSide(ItemTexts(side), None) == Ok(SideResources(side))
  {
    if side != [] {
      var init := side[..|side| - 1];
      var x := side[|side| - 1];
      var ts := ItemTexts(side);
      assert ts == ItemTexts(init) + [ItemText(x)];
      assert SideResources(side) == SideResources(init) + [Resource(x.1, x.0 as real)];
      assert ParsedSide(ItemTexts(init), None) == Ok(SideResources(init)) by {
        ParsedItemTexts(init);
      }
      assert ParsedItem(ItemText(x), None) == Ok(Resource(x.1, x.0 as real)) by {
        ParsedItemText(x);
      }
      ParsedSidePush(ItemTexts(init), ItemText(x), None);
    }
  }

  /** Parsing one more piece appends its resource, or fails. */
  lemma ParsedSidePush(pieces: seq<string>, piece: string, cycleTime: Option<Number>)
    ensures ParsedSide(pieces + [piece], cycleTime)
         == match ParsedSide(pieces, cycleTime)
            case Err(e) => Err(e)
            case Ok(side) =>
              match ParsedItem(piece, cycleTime)
              case Err(e) => Err(e)
              case Ok(x) => Ok(side + [x])
  {
    assert (pieces + [piece])[..|pieces|] == pieces;
  }

  /** `_parse_recipe_side` reads back a side written with cardinalities. */
  lemma SideRoundTrip(side: seq<(nat, string)>)
    requires |side| >= 1 && WellNamed(side)
    ensures ParsedSide(Split(SideText(side), '+'), None) == Ok(SideResources(side))
  {
    forall k | 0 <= k < |side| ensures '+' !in ItemTexts(side)[k] {
      NotInItemText(side[k], '+');
    }
    SplitJoin(ItemTexts(side), '+');
    ParsedItemTexts(side);
  }

  /** The last `->` of `a + "->" + b` is the written one when `b` has no `>`. */
  lemma LastArrow(a: string, b: string)
    requires '>' !in b
    ensures RFind(a + "->" + b, "->") == Some(|a|)
  {
    var s := a + "->" + b;
    assert OccursAt(s, "->", |a|) by { assert s[|a|..|a| + 2] == "->"; }
    forall j | |a| < j <= |s| ensures !OccursAt(s, "->", j) {
      if j + 2 <= |s| {
        assert s[j + 1] == b[j + 1 - |a| - 2];
        assert s[j..j + 2][1] == s[j + 1];
      }
    }
  }

  /** `from_str` reads back a recipe written as two sides around `->`. */
  lemma RecipeRoundTrip(lhs: seq<(nat, string)>, rhs: seq<(nat, string)>, name: Option<string>, producedAt: Option<string>)
    requires |lhs| >= 1 && |rhs| >= 1 && WellNamed(lhs) && WellNamed(rhs)
    ensures RecipeOfText(SideText(lhs) + "->" + SideText(rhs), name, producedAt, None)
         == Ok(Recipe(SideResources(lhs), SideResources(rhs), 1.0, name, producedAt, false))
  {
    var a := SideText(lhs);
    var b := SideText(rhs);
    var s := a + "->" + b;
    NotInSideText(lhs, '\n');
    NotInSideText(rhs, '\n');
    NotInSideText(rhs, '>');
    assert '\n' !in s;
    LastArrow(a, b);
    assert s[..|a|] == a && s[|a| + 2..] == b;
    SideRoundTrip(lhs);
    SideRoundTrip(rhs);
  }
}
