/** Sums and concatenations over sequences, and what of them is independent of order. */
module Sums {

  ghost function Sum<T(!new)>(xs: seq<T>, f: T -> real): real
  {
    if xs == [] then 0.0 else Sum(xs[..|xs| - 1], f) + f(xs[|xs| - 1])
  }

  lemma {:induction false} SumJoin<T(!new)>(a: seq<T>, b: seq<T>, f: T -> real)
    ensures Sum(a + b, f) == Sum(a, f) + Sum(b, f)
  {
    if b == [] {
      assert a + b == a;
    } else {
      var n := |b| - 1;
      SumJoin(a, b[..n], f);
      assert (a + b)[..|a + b| - 1] == a + b[..n];
    }
  }

  lemma SumOne<T(!new)>(x: T, f: T -> real)
    ensures Sum([x], f) == f(x)
  {
    assert [x][..0] == [];
  }

  /** Taking out the element at i. */
  lemma Without<T>(xs: seq<T>, i: nat)
    requires i < |xs|
    ensures xs == xs[..i] + ([xs[i]] + xs[i + 1..])
    ensures multiset(xs) == multiset(xs[..i] + xs[i + 1..]) + multiset{xs[i]}
  {
    assert xs == xs[..i] + ([xs[i]] + xs[i + 1..]);
  }

  lemma SumWithout<T(!new)>(xs: seq<T>, i: nat, f: T -> real)
    requires i < |xs|
    ensures Sum(xs, f) == Sum(xs[..i] + xs[i + 1..], f) + f(xs[i])
  {
    Without(xs, i);
    SumJoin(xs[..i], [xs[i]] + xs[i + 1..], f);
    SumJoin([xs[i]], xs[i + 1..], f);
    SumJoin(xs[..i], xs[i + 1..], f);
    SumOne(xs[i], f);
  }

  /** Two arrangements of one multiset, less one element each. */
  lemma WithoutSame<T(!new)>(a: seq<T>, b: seq<T>) returns (i: nat)
    requires a != [] && multiset(a) == multiset(b)
    ensures i < |b| && b[i] == a[|a| - 1]
    ensures multiset(a[..|a| - 1]) == multiset(b[..i] + b[i + 1..])
  {
    var n := |a| - 1;
    assert a[n] in multiset(b);
    i :| 0 <= i < |b| && b[i] == a[n];
    Without(a, n);
    assert a[..n] + a[n + 1..] == a[..n];
    Without(b, i);
    assert multiset(a[..n]) == multiset(a) - multiset{a[n]};
    assert multiset(b[..i] + b[i + 1..]) == multiset(b) - multiset{a[n]};
  }

  lemma {:induction false} SumPermuted<T(!new)>(a: seq<T>, b: seq<T>, f: T -> real)
    requires multiset(a) == multiset(b)
    ensures Sum(a, f) == Sum(b, f)
    decreases |a|
  {
    assert |a| == |multiset(a)| == |multiset(b)| == |b|;
    if a != [] {
      var i := WithoutSame(a, b);
      SumWithout(b, i, f);
      SumPermuted(a[..|a| - 1], b[..i] + b[i + 1..], f);
    }
  }

  ghost function Flatten<T(!new), U(!new)>(xs: seq<T>, f: T -> seq<U>): seq<U>
  {
    if xs == [] then [] else Flatten(xs[..|xs| - 1], f) + f(xs[|xs| - 1])
  }

  lemma {:induction false} FlattenMember<T(!new), U(!new)>(xs: seq<T>, f: T -> seq<U>, u: U)
    ensures u in Flatten(xs, f) <==> exists x :: x in xs && u in f(x)
  {
    if xs != [] {
      var n := |xs| - 1;
      FlattenMember(xs[..n], f, u);
      assert xs == xs[..n] + [xs[n]];
    }
  }

  lemma {:induction false} FlattenCons<T(!new), U(!new)>(x: T, rest: seq<T>, f: T -> seq<U>)
    ensures Flatten([x] + rest, f) == f(x) + Flatten(rest, f)
  {
    var xs := [x] + rest;
    var n := |rest|;
    if rest == [] {
      assert xs[..0] == [];
    } else {
      FlattenCons(x, rest[..n - 1], f);
      assert xs[..n] == [x] + rest[..n - 1];
    }
  }

  lemma {:induction false} FlattenJoin<T(!new), U(!new)>(a: seq<T>, b: seq<T>, f: T -> seq<U>)
    ensures Flatten(a + b, f) == Flatten(a, f) + Flatten(b, f)
  {
    if b == [] {
      assert a + b == a;
    } else {
      var n := |b| - 1;
      FlattenJoin(a, b[..n], f);
      assert (a + b)[..|a + b| - 1] == a + b[..n];
    }
  }

  lemma FlattenWithout<T(!new), U(!new)>(xs: seq<T>, i: nat, f: T -> seq<U>)
    requires i < |xs|
    ensures multiset(Flatten(xs, f)) == multiset(Flatten(xs[..i] + xs[i + 1..], f)) + multiset(f(xs[i]))
  {
    Without(xs, i);
    FlattenJoin(xs[..i], [xs[i]] + xs[i + 1..], f);
    FlattenCons(xs[i], xs[i + 1..], f);
    FlattenJoin(xs[..i], xs[i + 1..], f);
  }

  /** Rearranging what is concatenated rearranges the concatenation. */
  lemma {:induction false} FlattenPermuted<T(!new), U(!new)>(a: seq<T>, b: seq<T>, f: T -> seq<U>)
    requires multiset(a) == multiset(b)
    ensures multiset(Flatten(a, f)) == multiset(Flatten(b, f))
    decreases |a|
  {
    assert |a| == |multiset(a)| == |multiset(b)| == |b|;
    if a != [] {
      var i := WithoutSame(a, b);
      FlattenWithout(b, i, f);
      FlattenPermuted(a[..|a| - 1], b[..i] + b[i + 1..], f);
    }
  }

  ghost predicate AtMostOne<T(!new), U(!new)>(f: T -> seq<U>)
  {
    forall x :: |f(x)| <= 1
  }

  lemma Contributor<T(!new), U(!new)>(xs: seq<T>, f: T -> seq<U>, u: U) returns (i: nat)
    requires AtMostOne(f) && u in multiset(Flatten(xs, f))
    ensures i < |xs| && f(xs[i]) == [u]
  {
    FlattenMember(xs, f, u);
    var x :| x in xs && u in f(x);
    i :| 0 <= i < |xs| && xs[i] == x;
  }

  lemma RestContributes<T(!new), U(!new)>(xs: seq<T>, f: T -> seq<U>, us: seq<U>, i: nat)
    requires us != [] && multiset(us) == multiset(Flatten(xs, f)) && i < |xs| && f(xs[i]) == [us[|us| - 1]]
    ensures multiset(us[..|us| - 1]) == multiset(Flatten(xs[..i] + xs[i + 1..], f))
  {
    var n := |us| - 1;
    FlattenWithout(xs, i, f);
    LastItem(us);
    Cancel(multiset(us[..n]), multiset(Flatten(xs[..i] + xs[i + 1..], f)), us[n]);
  }

  lemma LastItem<U>(us: seq<U>)
    requires us != []
    ensures us == us[..|us| - 1] + [us[|us| - 1]] && multiset(us) == multiset(us[..|us| - 1]) + multiset{us[|us| - 1]}
  {
    assert us == us[..|us| - 1] + [us[|us| - 1]];
  }

  lemma Cancel<U>(a: multiset<U>, b: multiset<U>, u: U)
    requires a + multiset{u} == b + multiset{u}
    ensures a == b
  {
    assert a == (a + multiset{u}) - multiset{u};
    assert b == (b + multiset{u}) - multiset{u};
  }

  lemma FlattenSnoc<T(!new), U(!new)>(xs: seq<T>, x: T, f: T -> seq<U>)
    ensures Flatten(xs + [x], f) == Flatten(xs, f) + f(x)
  {
    assert (xs + [x])[..|xs|] == xs;
  }

  lemma FlattenThree<T(!new), U(!new)>(a: T, b: T, c: T, f: T -> seq<U>)
    ensures Flatten([a, b, c], f) == f(a) + f(b) + f(c)
  {
    assert [a, b, c] == [a, b] + [c] && [a, b] == [a] + [b] && [a] == [] + [a];
    FlattenSnoc([a, b], c, f);
    FlattenSnoc([a], b, f);
    FlattenSnoc([], a, f);
  }

  /** When every element contributes at most one item, each rearrangement of the items comes
      from a rearrangement of the elements. */
  lemma {:induction false} LiftPermutation<T(!new), U(!new)>(xs: seq<T>, f: T -> seq<U>, us: seq<U>) returns (ys: seq<T>)
    requires AtMostOne(f) && multiset(us) == multiset(Flatten(xs, f))
    ensures multiset(ys) == multiset(xs) && Flatten(ys, f) == us
    decreases |us|
  {
    if us == [] {
      ys := xs;
      assert |multiset(Flatten(xs, f))| == 0;
    } else {
      var n := |us| - 1;
      assert us[n] in multiset(us);
      var i := Contributor(xs, f, us[n]);
      RestContributes(xs, f, us, i);
      var zs := LiftPermutation(xs[..i] + xs[i + 1..], f, us[..n]);
      FlattenSnoc(zs, xs[i], f);
      Without(xs, i);
      LastItem(us);
      ys := zs + [xs[i]];
    }
  }

  /** A sequence taken element by element. */
  lemma Cut<T>(was: seq<T>, stream: seq<T>)
    ensures was + stream[..0] == was && was + stream[..|stream|] == was + stream
    ensures forall i :: 0 <= i < |stream| ==> was + stream[..i] + [stream[i]] == was + stream[..i + 1]
  {
  }
}
