/** Go string order and the "collect the keys of a map, then sort.Strings" idiom.

Strings are sequences of Unicode scalar values. UTF-8 preserves code-point order,
so comparing scalar values gives the same order as comparing UTF-8 bytes. */
module StringOrder {

  predicate Less(a: string, b: string)
  {
    if b == [] then false
    else if a == [] then true
    else a[0] < b[0] || (a[0] == b[0] && Less(a[1..], b[1..]))
  }

  /** a and b agree up to i, where a ends or has the smaller character. */
  ghost predicate PrecedesAt(a: string, b: string, i: nat)
  {
    && i <= |a| && i <= |b| && a[..i] == b[..i]
    && ((i == |a| && i < |b|) || (i < |a| && i < |b| && a[i] < b[i]))
  }

  /** Dictionary order: a shorter string comes before its extensions. */
  ghost predicate Precedes(a: string, b: string)
  {
    exists i: nat :: PrecedesAt(a, b, i)
  }

  lemma PrecedesTail(a: string, b: string, i: nat)
    requires a != [] && b != [] && a[0] == b[0]
    ensures PrecedesAt(a, b, i + 1) <==> PrecedesAt(a[1..], b[1..], i)
  {
    if i < |a| && i < |b| {
      assert a[..i + 1] == [a[0]] + a[1..][..i] && b[..i + 1] == [b[0]] + b[1..][..i];
      assert a[1..][..i] == a[..i + 1][1..] && b[1..][..i] == b[..i + 1][1..];
    }
  }

  lemma FirstDiffers(a: string, b: string, i: nat)
    requires a != [] && b != [] && a[0] != b[0]
    ensures PrecedesAt(a, b, i) <==> i == 0 && a[0] < b[0]
  {
    if 0 < i <= |a| && i <= |b| { assert a[..i][0] == a[0] && b[..i][0] == b[0]; }
  }

  /** Less is dictionary order, as sort.Strings has it. */
  lemma {:induction false} LessIsDictionary(a: string, b: string)
    ensures Less(a, b) <==> Precedes(a, b)
  {
    if a != [] && b != [] && a[0] == b[0] {
      LessIsDictionary(a[1..], b[1..]);
      if i: nat :| PrecedesAt(a[1..], b[1..], i) { PrecedesTail(a, b, i); }
      if i: nat :| PrecedesAt(a, b, i) {
        assert i > 0;
        PrecedesTail(a, b, i - 1);
      }
    } else if a != [] && b != [] {
      FirstDiffers(a, b, 0);
      if i: nat :| PrecedesAt(a, b, i) { FirstDiffers(a, b, i); }
    } else if a == [] && b != [] {
      assert PrecedesAt(a, b, 0);
    }
  }

  lemma {:induction false} Irreflexive(a: string)
    ensures !Less(a, a)
  {
    if a != [] {
      Irreflexive(a[1..]);
    }
  }

  lemma {:induction false} Transitive(a: string, b: string, c: string)
    requires Less(a, b) && Less(b, c)
    ensures Less(a, c)
  {
    if a != [] && a[0] == b[0] && b[0] == c[0] {
      Transitive(a[1..], b[1..], c[1..]);
    }
  }

  lemma {:induction false} Total(a: string, b: string)
    ensures Less(a, b) || a == b || Less(b, a)
  {
    if a != [] && b != [] && a[0] == b[0] {
      Total(a[1..], b[1..]);
      assert a == [a[0]] + a[1..] && b == [b[0]] + b[1..];
    }
  }

  /** Strictly ascending, hence duplicate-free. */
  ghost predicate Ascending(s: seq<string>)
  {
    forall i, j :: 0 <= i < j < |s| ==> Less(s[i], s[j])
  }

  ghost function Elements<T>(s: seq<T>): set<T>
  {
    set x | x in s
  }

  ghost predicate IsLeast(k: string, s: set<string>)
  {
    k in s && forall x :: x in s && x != k ==> Less(k, x)
  }

  lemma {:induction false} LeastExists(s: set<string>) returns (least: string)
    requires s != {}
    ensures IsLeast(least, s)
  {
    var k :| k in s;
    if s == {k} {
      least := k;
    } else {
      var m := LeastExists(s - {k});
      Total(k, m);
      if Less(k, m) {
        least := k;
        forall x | x in s && x != k
          ensures Less(k, x)
        {
          assert x in s - {k};
          if x != m { Transitive(k, m, x); }
        }
      } else {
        least := m;
      }
    }
  }

  ghost function Least(s: set<string>): (k: string)
    requires s != {}
    ensures IsLeast(k, s)
  {
    assert exists k :: IsLeast(k, s) by {
      var w := LeastExists(s);
    }
    var k :| IsLeast(k, s);
    k
  }

  /** The members of a finite set of strings, in ascending order. */
  ghost function Sorted(s: set<string>): (r: seq<string>)
    ensures Ascending(r) && Elements(r) == s
    ensures forall k :: k in r <==> k in s
  {
    if s == {} then []
    else
      var k := Least(s);
      var rest := Sorted(s - {k});
      assert forall i :: 0 <= i < |rest| ==> rest[i] in s - {k};
      [k] + rest
  }

  /** There is only one ascending arrangement of a set: the order in which a map
      yields its keys cannot survive the sort. */
  lemma {:induction false} AscendingUnique(a: seq<string>, b: seq<string>)
    requires Ascending(a) && Ascending(b) && Elements(a) == Elements(b)
    ensures a == b
  {
    forall x ensures x in a <==> x in b {
      assert x in a <==> x in Elements(a);
      assert x in b <==> x in Elements(b);
    }
    EmptyElements(a);
    EmptyElements(b);
    if a != [] {
      assert a[0] in b;
      assert b[0] in a;
      if a[0] != b[0] {
        var i :| 0 <= i < |a| && a[i] == b[0];
        var j :| 0 <= j < |b| && b[j] == a[0];
        Transitive(a[0], b[0], a[0]);
        Irreflexive(a[0]);
      }
      TailElements(a);
      TailElements(b);
      AscendingUnique(a[1..], b[1..]);
    }
  }

  lemma EmptyElements<T>(a: seq<T>)
    ensures Elements(a) == {} <==> a == []
  {
    if a != [] { assert a[0] in Elements(a); }
  }

  lemma TailElements(a: seq<string>)
    requires a != [] && Ascending(a)
    ensures Ascending(a[1..]) && Elements(a[1..]) == Elements(a) - {a[0]}
  {
    Irreflexive(a[0]);
    forall x | x in Elements(a) - {a[0]}
      ensures x in a[1..]
    {
      var i :| 0 <= i < |a| && a[i] == x;
      assert a[1..][i - 1] == x;
    }
  }

  /** Sorting lists the members of a set in dictionary order, each once. */
  lemma SortedIsDictionary(s: set<string>)
    ensures forall i, j :: 0 <= i < j < |Sorted(s)| ==> Precedes(Sorted(s)[i], Sorted(s)[j])
    ensures forall k :: k in Sorted(s) <==> k in s
  {
    forall i, j | 0 <= i < j < |Sorted(s)|
      ensures Precedes(Sorted(s)[i], Sorted(s)[j])
    {
      LessIsDictionary(Sorted(s)[i], Sorted(s)[j]);
    }
  }

  /** One insertion step of the sort. */
  method InsertKey(keys: seq<string>, k: string) returns (r: seq<string>)
    requires Ascending(keys) && k !in keys
    ensures Ascending(r)
    ensures forall x :: x in r <==> x in keys || x == k
  {
    var i := 0;
    while i < |keys| && Less(keys[i], k)
      invariant 0 <= i <= |keys|
      invariant forall j :: 0 <= j < i ==> Less(keys[j], k)
    {
      i := i + 1;
    }
    if i < |keys| {
      Total(keys[i], k);
      forall j | i <= j < |keys|
        ensures Less(k, keys[j])
      {
        if i < j { Transitive(k, keys[i], keys[j]); }
      }
    }
    r := keys[..i] + [k] + keys[i..];
    assert forall x :: x in keys <==> x in keys[..i] || x in keys[i..] by {
      assert keys == keys[..i] + keys[i..];
    }
  }

  /** The keys of a map, visited in an arbitrary order, then sorted. */
  method SortedKeys<V>(m: map<string, V>) returns (keys: seq<string>)
    ensures keys == Sorted(m.Keys)
    ensures forall i, j :: 0 <= i < j < |keys| ==> Precedes(keys[i], keys[j])
    ensures forall k :: k in keys <==> k in m
  {
    keys := [];
    var rest := m.Keys;
    while rest != {}
      invariant rest <= m.Keys
      invariant Ascending(keys)
      invariant forall x :: x in keys <==> x in m.Keys - rest
      decreases rest
    {
      var k :| k in rest;
      rest := rest - {k};
      keys := InsertKey(keys, k);
    }
    AscendingUnique(keys, Sorted(m.Keys));
    SortedIsDictionary(m.Keys);
  }
}
