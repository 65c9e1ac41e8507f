/** Sequence facts shared by the "first-seen order" operations of all three
    generations: OrderedDict keys, merge-by-recipe and unique path enumeration. */
module Seqs {

  /** No element occurs twice. */
  predicate Distinct<T(==)>(s: seq<T>)
  {
    forall i, j :: 0 <= i < j < |s| ==> s[i] != s[j]
  }

  /** The distinct elements of `s`, each kept at its first occurrence. */
  function Dedup<T(==)>(s: seq<T>): seq<T>
  {
    if s == [] then []
    else
      var d := Dedup(s[..|s| - 1]);
      if s[|s| - 1] in d then d else d + [s[|s| - 1]]
  }

  /** Position of the first occurrence of `x` in `s`. */
  function FirstIndex<T(==)>(s: seq<T>, x: T): (i: nat)
    requires x in s
    ensures i < |s| && s[i] == x && x !in s[..i]
  {
    if s[0] == x then 0
    else
      assert x in s[1..] by { var k :| 0 <= k < |s| && s[k] == x; assert s[1..][k - 1] == x; }
      var j := FirstIndex(s[1..], x);
      assert s[..j + 1] == [s[0]] + s[1..][..j];
      j + 1
  }

  lemma FirstIndexAppend<T>(s: seq<T>, x: T, y: T)
    requires y in s
    ensures y in s + [x] && FirstIndex(s + [x], y) == FirstIndex(s, y)
  {
    var i := FirstIndex(s, y);
    assert (s + [x])[i] == y;
  }

  lemma {:induction false} DedupElements<T>(s: seq<T>)
    ensures Distinct(Dedup(s))
    ensures forall x :: x in Dedup(s) <==> x in s
    ensures |Dedup(s)| <= |s|
  {
    if s != [] {
      var p := s[..|s| - 1];
      DedupElements(p);
      assert s == p + [s[|s| - 1]];
    }
  }

  /** The kept elements appear in the order of their first occurrence. */
  lemma {:induction false} DedupFirstSeenOrder<T>(s: seq<T>)
    ensures forall x :: x in Dedup(s) ==> x in s
    ensures forall i, j :: 0 <= i < j < |Dedup(s)| ==>
      Dedup(s)[i] in s && Dedup(s)[j] in s && FirstIndex(s, Dedup(s)[i]) < FirstIndex(s, Dedup(s)[j])
  {
    DedupElements(s);
    if s != [] {
      var p := s[..|s| - 1];
      var x := s[|s| - 1];
      assert s == p + [x];
      DedupFirstSeenOrder(p);
      DedupElements(p);
      var d := Dedup(s);
      forall i, j | 0 <= i < j < |d|
        ensures FirstIndex(s, d[i]) < FirstIndex(s, d[j])
      {
        FirstIndexAppend(p, x, d[i]);
        if x in Dedup(p) {
          FirstIndexAppend(p, x, d[j]);
        } else if j < |d| - 1 {
          FirstIndexAppend(p, x, d[j]);
        } else {
          assert d[j] == x && x !in p;
          assert FirstIndex(s, x) == |p|;
        }
      }
    }
  }

  /** A sequence without repetitions is its own deduplication. */
  lemma {:induction false} DedupOfDistinct<T>(s: seq<T>)
    requires Distinct(s)
    ensures Dedup(s) == s
  {
    if s != [] {
      var p := s[..|s| - 1];
      assert Distinct(p);
      DedupOfDistinct(p);
      DedupElements(p);
      assert s[|s| - 1] !in p;
    }
  }

  lemma DedupIdempotent<T>(s: seq<T>)
    ensures Dedup(Dedup(s)) == Dedup(s)
  {
    DedupElements(s);
    DedupOfDistinct(Dedup(s));
  }

  /** One step of a left-to-right scan: what `Dedup` of a one-longer prefix is. */
  lemma DedupSnoc<T>(s: seq<T>, i: nat)
    requires i < |s|
    ensures Dedup(s[..i + 1]) == if s[i] in Dedup(s[..i]) then Dedup(s[..i]) else Dedup(s[..i]) + [s[i]]
  {
    assert s[..i + 1][..i] == s[..i];
  }

  /** `Dedup` of a sequence with one more element at the end. */
  lemma DedupPush<T>(s: seq<T>, y: T)
    ensures Dedup(s + [y]) == if y in Dedup(s) then Dedup(s) else Dedup(s) + [y]
  {
    assert (s + [y])[..|s|] == s;
  }

  /** A suffix that is a concatenation splits at the first part's length. */
  lemma SplitAt<T>(s: seq<T>, i: nat, a: seq<T>, b: seq<T>)
    requires i <= |s| && s[i..] == a + b
    ensures i + |a| <= |s| && s[i..i + |a|] == a && s[i + |a|..] == b
  {
    assert s[i..i + |a|] == (a + b)[..|a|];
    assert s[i + |a|..] == (a + b)[|a|..];
  }

  /** A suffix that starts with one element and then two parts. */
  lemma ConsSplit<T>(s: seq<T>, i: nat, x: T, a: seq<T>, b: seq<T>, rest: seq<T>)
    requires i <= |s| && s[i..] == [x] + (a + b) + rest
    ensures i < |s| && s[i] == x && s[i + 1..] == a + (b + rest)
  {
    assert s[i] == s[i..][0];
    assert s[i + 1..] == s[i..][1..];
  }

  lemma Reassoc<T>(s: seq<T>, i: nat, a: seq<T>, b: seq<T>, c: seq<T>)
    requires i <= |s| && s[i..] == a + b + c
    ensures s[i..] == a + (b + c)
  {
  }

  lemma FrontLast<T>(s: seq<T>)
    requires s != []
    ensures s == s[..|s| - 1] + [s[|s| - 1]]
  {
  }

  /** Taking from a suffix is slicing the whole. */
  lemma DropTake<T>(s: seq<T>, i: nat, j: nat)
    requires i + j <= |s|
    ensures s[i..][..j] == s[i..i + j]
  {
  }

  /** `b` is a tail of `a`. */
  predicate IsTail<T(==)>(b: seq<T>, a: seq<T>)
  {
    |b| <= |a| && a[|a| - |b|..] == b
  }

  /** A tail of a tail is a tail. */
  lemma TailOfTail<T>(a: seq<T>, b: seq<T>, c: seq<T>)
    requires IsTail(b, a) && IsTail(c, b)
    ensures IsTail(c, a)
  {
    forall k | 0 <= k < |c|
      ensures a[|a| - |c|..][k] == c[k]
    {
      calc {
        a[|a| - |c|..][k];
        a[|a| - |b|..][|b| - |c| + k];
        b[|b| - |c|..][k];
      }
    }
  }

  /** The results of `f` on each element, one after the other (`yield
      from` over each in turn). */
  function FlatMap<T, U>(xs: seq<T>, f: T -> seq<U>): seq<U>
  {
    if xs == [] then [] else FlatMap(xs[..|xs| - 1], f) + f(xs[|xs| - 1])
  }

  /** One more element contributes its results at the end. */
  lemma FlatMapSnoc<T, U>(xs: seq<T>, f: T -> seq<U>, i: nat)
    requires i < |xs|
    ensures FlatMap(xs[..i + 1], f) == FlatMap(xs[..i], f) + f(xs[i])
  {
    assert xs[..i + 1][..i] == xs[..i];
  }

  /** A value is among the results exactly when it is among the results of
      one of the elements. */
  lemma {:induction false} FlatMapMembers<T, U>(xs: seq<T>, f: T -> seq<U>, y: U)
    ensures y in FlatMap(xs, f) <==> exists i :: 0 <= i < |xs| && y in f(xs[i])
  {
    if xs != [] {
      var init := xs[..|xs| - 1];
      FlatMapMembers(init, f, y);
      assert forall i :: 0 <= i < |init| ==> init[i] == xs[i];
    }
  }

  /** `itertools.product`: every way of picking one element from each list,
      the first list varying slowest. */
  function Product<T>(ls: seq<seq<T>>): seq<seq<T>>
  {
    if ls == [] then [[]] else ProductWith(ls[0], Product(ls[1..]))
  }

  /** Each element of `l` in turn, put in front of every tuple of `ts`. */
  function ProductWith<T>(l: seq<T>, ts: seq<seq<T>>): seq<seq<T>>
  {
    if l == [] then [] else Prefixed(l[0], ts) + ProductWith(l[1..], ts)
  }

  function Prefixed<T>(x: T, ts: seq<seq<T>>): (r: seq<seq<T>>)
    ensures |r| == |ts| && forall k :: 0 <= k < |ts| ==> r[k] == [x] + ts[k]
  {
    seq(|ts|, k requires 0 <= k < |ts| => [x] + ts[k])
  }

  /** A tuple is produced exactly when it has one element per list, taken
      from that list. */
  lemma {:induction false} ProductMembers<T>(ls: seq<seq<T>>, c: seq<T>)
    ensures c in Product(ls) <==> |c| == |ls| && forall i :: 0 <= i < |c| ==> c[i] in ls[i]
  {
    if ls == [] {
    } else if c == [] {
      ProductWithMembers(ls[0], Product(ls[1..]), c);
    } else {
      ProductWithMembers(ls[0], Product(ls[1..]), c);
      ProductMembers(ls[1..], c[1..]);
      if |c| == |ls| && forall i :: 0 <= i < |c| ==> c[i] in ls[i] {
        assert forall i :: 0 <= i < |c[1..]| ==> c[1..][i] == c[i + 1] && ls[1..][i] == ls[i + 1];
      }
      if c in Product(ls) {
        assert forall i :: 1 <= i < |c| ==> c[i] == c[1..][i - 1] && ls[i] == ls[1..][i - 1];
      }
    }
  }

  lemma {:induction false} ProductWithMembers<T>(l: seq<T>, ts: seq<seq<T>>, c: seq<T>)
    ensures c in ProductWith(l, ts) <==> |c| > 0 && c[0] in l && c[1..] in ts
  {
    if l != [] {
      ProductWithMembers(l[1..], ts, c);
      if c in Prefixed(l[0], ts) {
        var k :| 0 <= k < |ts| && Prefixed(l[0], ts)[k] == c;
        assert c[1..] == ts[k];
      }
      if |c| > 0 && c[0] == l[0] && c[1..] in ts {
        var k :| 0 <= k < |ts| && ts[k] == c[1..];
        assert Prefixed(l[0], ts)[k] == c;
      }
    }
  }

}
