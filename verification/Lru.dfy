/** The bounded LRU dedup set (metrics-endpoint dedup.go): a recency list and an index
    into it, and the window of observations it stands for. */
module Lru {

  // --------------------------------------------------- list-level behaviour

  function Remove(keys: seq<string>, k: string): seq<string>
  {
    if keys == [] then []
    else if keys[0] == k then Remove(keys[1..], k)
    else [keys[0]] + Remove(keys[1..], k)
  }

  function Take(keys: seq<string>, n: nat): seq<string>
  {
    if n < |keys| then keys[..n] else keys
  }

  /** The recency list after observing k. */
  function Observe(keys: seq<string>, capacity: nat, k: string): seq<string>
  {
    if k in keys then [k] + Remove(keys, k) else Take([k] + keys, capacity)
  }

  /** The recency list after a whole history of observations. */
  function Cache(history: seq<string>, capacity: nat): seq<string>
  {
    if history == [] then []
    else Observe(Cache(history[..|history| - 1], capacity), capacity, history[|history| - 1])
  }

  // --------------------------------------------------- the object

  /** A list element; ids stand for *list.Element identities. */
  datatype Element = Element(id: nat, key: string)

  function KeysOf(order: seq<Element>): seq<string>
  {
    seq(|order|, i requires 0 <= i < |order| => order[i].key)
  }

  ghost predicate NoRepeats<T>(s: seq<T>)
  {
    forall i, j :: 0 <= i < j < |s| ==> s[i] != s[j]
  }

  ghost predicate Indexed(order: seq<Element>, index: map<string, Element>, e: Element)
  {
    e in order ==> e.key in index && index[e.key] == e
  }

  ghost predicate Listed(order: seq<Element>, index: map<string, Element>, k: string)
  {
    k in index ==> index[k] in order && index[k].key == k
  }

  /** The index and the list are in bijection. */
  ghost predicate Consistent(order: seq<Element>, index: map<string, Element>)
  {
    && NoRepeats(order)
    && (forall e :: Indexed(order, index, e))
    && (forall k :: Listed(order, index, k))
  }

  lemma PushKeeps(order: seq<Element>, index: map<string, Element>, el: Element)
    requires Consistent(order, index) && el.key !in index
    ensures Consistent([el] + order, index[el.key := el])
    ensures KeysOf([el] + order) == [el.key] + KeysOf(order)
  {
    assert Indexed(order, index, el);
    NoRepeatsCons(el, order);
    var now, entries := [el] + order, index[el.key := el];
    forall e ensures Indexed(now, entries, e) { assert Indexed(order, index, e); }
    forall k ensures Listed(now, entries, k) { assert Listed(order, index, k); }
  }

  lemma EvictKeeps(order: seq<Element>, index: map<string, Element>)
    requires Consistent(order, index) && order != []
    ensures var n := |order| - 1;
            Consistent(order[..n], index - {order[n].key}) && KeysOf(order[..n]) == KeysOf(order)[..n]
  {
    var n := |order| - 1;
    assert order == order[..n] + [order[n]];
    var now, entries := order[..n], index - {order[n].key};
    assert Indexed(order, index, order[n]);
    forall e ensures Indexed(now, entries, e) { assert Indexed(order, index, e); }
    forall k ensures Listed(now, entries, k) { assert Listed(order, index, k); }
  }

  lemma MoveKeeps(order: seq<Element>, index: map<string, Element>, i: nat)
    requires Consistent(order, index) && i < |order|
    ensures var now := [order[i]] + order[..i] + order[i + 1..];
            Consistent(now, index) && KeysOf(now) == [order[i].key] + Remove(KeysOf(order), order[i].key)
  {
    var keys := KeysOf(order);
    MoveSame(order, i);
    var now := [order[i]] + order[..i] + order[i + 1..];
    forall e ensures Indexed(now, index, e) { assert Indexed(order, index, e); }
    forall k ensures Listed(now, index, k) { assert Listed(order, index, k); }
    DistinctKeys(order, index);
    RemoveAt(keys, i);
    MoveKeys(order, i);
  }

  lemma MoveKeys(order: seq<Element>, i: nat)
    requires i < |order|
    ensures var keys := KeysOf(order);
            KeysOf([order[i]] + order[..i] + order[i + 1..]) == [keys[i]] + (keys[..i] + keys[i + 1..])
  {
  }

  lemma MoveSame<T>(s: seq<T>, i: nat)
    requires i < |s| && NoRepeats(s)
    ensures var now := [s[i]] + s[..i] + s[i + 1..];
            NoRepeats(now) && forall e :: e in now <==> e in s
  {
    assert s == s[..i] + [s[i]] + s[i + 1..];
    NoRepeatsCons(s[i], s[..i] + s[i + 1..]);
    assert [s[i]] + (s[..i] + s[i + 1..]) == [s[i]] + s[..i] + s[i + 1..];
  }

  lemma NoRepeatsCons<T>(x: T, s: seq<T>)
    requires NoRepeats(s) && x !in s
    ensures NoRepeats([x] + s)
  {
  }

  lemma DistinctKeys(order: seq<Element>, index: map<string, Element>)
    requires Consistent(order, index)
    ensures NoRepeats(KeysOf(order))
    ensures forall k :: k in index <==> k in KeysOf(order)
  {
    var keys := KeysOf(order);
    forall i, j | 0 <= i < j < |keys|
      ensures keys[i] != keys[j]
    {
      assert Indexed(order, index, order[i]) && Indexed(order, index, order[j]);
    }
    forall k | k in index
      ensures k in keys
    {
      assert Listed(order, index, k);
      var i :| 0 <= i < |order| && order[i] == index[k];
      assert keys[i] == k;
    }
    forall k | k in keys
      ensures k in index
    {
      var i :| 0 <= i < |order| && order[i].key == k;
      assert Indexed(order, index, order[i]);
    }
  }

  class LRUDedup {
    const capacity: nat
    var order: seq<Element>
    var index: map<string, Element>
    var nextId: nat

    ghost predicate Valid()
      reads this
    {
      1 <= capacity && |order| <= capacity && Consistent(order, index)
    }

    ghost function Keys(): seq<string>
      reads this
    {
      KeysOf(order)
    }

    constructor (capacity: int)
      ensures Valid() && Keys() == [] && this.capacity == (if capacity <= 0 then 1 else capacity)
    {
      this.capacity := if capacity <= 0 then 1 else capacity;
      order, index, nextId := [], map[], 0;
    }

    /** The element is known: list.MoveToFront. */
    method MoveToFront(el: Element)
      requires Valid() && el in order
      modifies this`order
      ensures Valid() && Keys() == [el.key] + Remove(old(Keys()), el.key)
    {
      var i :| 0 <= i < |order| && order[i] == el;
      MoveKeeps(order, index, i);
      order := [el] + order[..i] + order[i + 1..];
    }

    /** list.PushFront and the index entry; may exceed the capacity by one. */
    method PushFront(key: string)
      requires Valid() && key !in index
      modifies this
      ensures Consistent(order, index) && |order| == old(|order|) + 1 && Keys() == [key] + old(Keys())
    {
      var el := Element(nextId, key);
      PushKeeps(order, index, el);
      nextId := nextId + 1;
      order := [el] + order;
      index := index[key := el];
    }

    /** Drop the back of the list and its index entry. */
    method EvictBack()
      requires Consistent(order, index) && order != []
      modifies this`order, this`index
      ensures Consistent(order, index) && |order| == old(|order|) - 1 && Keys() == old(Keys())[..|order|]
    {
      EvictKeeps(order, index);
      index := index - {order[|order| - 1].key};
      order := order[..|order| - 1];
    }

    method Seen(key: string) returns (first: bool)
      requires Valid()
      modifies this
      ensures Valid()
      ensures first == (key !in old(Keys()))
      ensures Keys() == Observe(old(Keys()), capacity, key)
    {
      DistinctKeys(order, index);
      if key in index {
        assert Listed(order, index, key);
        MoveToFront(index[key]);
        return false;
      }
      PushFront(key);
      if |order| > capacity {
        EvictBack();
      }
      return true;
    }
  }

  /** Keys are distinct, so removing a key removes one position. */
  lemma {:induction false} RemoveAt(keys: seq<string>, i: nat)
    requires i < |keys| && NoRepeats(keys)
    ensures Remove(keys, keys[i]) == keys[..i] + keys[i + 1..]
  {
    if i == 0 {
      RemoveAbsent(keys[1..], keys[0]);
      assert keys[..0] + keys[1..] == keys[1..];
    } else {
      RemoveAt(keys[1..], i - 1);
      assert keys[..i] == [keys[0]] + keys[1..][..i - 1] && keys[1..][i..] == keys[i + 1..];
    }
  }

  lemma {:induction false} RemoveAbsent(keys: seq<string>, k: string)
    requires k !in keys
    ensures Remove(keys, k) == keys
  {
    if keys != [] { RemoveAbsent(keys[1..], k); }
  }

  // --------------------------------------------------- what the list means

  /** The distinct keys observed since k was last observed. */
  ghost function Since(history: seq<string>, k: string): set<string>
  {
    if history == [] then {}
    else
      var last := history[|history| - 1];
      if last == k then {} else Since(history[..|history| - 1], k) + {last}
  }

  /** k is among the `capacity` most recently observed distinct keys. */
  ghost predicate Recent(history: seq<string>, capacity: nat, k: string)
  {
    k in history && |Since(history, k)| < capacity
  }

  /** All observed keys, most recent first: the list of an unbounded cache. */
  function Recency(history: seq<string>): seq<string>
  {
    if history == [] then []
    else
      var k := history[|history| - 1];
      [k] + Remove(Recency(history[..|history| - 1]), k)
  }

  lemma {:induction false} RemoveMember(keys: seq<string>, k: string, x: string)
    ensures x in Remove(keys, k) <==> x in keys && x != k
  {
    if keys != [] {
      RemoveMember(keys[1..], k, x);
      assert keys == [keys[0]] + keys[1..];
    }
  }

  lemma {:induction false} RemoveNoRepeats(keys: seq<string>, k: string)
    requires NoRepeats(keys)
    ensures NoRepeats(Remove(keys, k))
  {
    if keys != [] {
      RemoveNoRepeats(keys[1..], k);
      RemoveMember(keys[1..], k, keys[0]);
    }
  }

  lemma {:induction false} RecencyKeys(history: seq<string>)
    ensures NoRepeats(Recency(history))
    ensures forall x :: x in Recency(history) <==> x in history
  {
    if history != [] {
      var before, k := history[..|history| - 1], history[|history| - 1];
      RecencyKeys(before);
      RemoveNoRepeats(Recency(before), k);
      assert history == before + [k];
      forall x
        ensures x in Remove(Recency(before), k) <==> x in before && x != k
      {
        RemoveMember(Recency(before), k, x);
      }
      NoRepeatsCons(k, Remove(Recency(before), k));
    }
  }

  /** The keys that precede k in a list. */
  ghost function Before(keys: seq<string>, k: string): set<string>
  {
    if keys == [] || keys[0] == k then {} else {keys[0]} + Before(keys[1..], k)
  }

  lemma {:induction false} BeforeRemove(keys: seq<string>, x: string, k: string)
    requires x != k
    ensures Before(Remove(keys, x), k) == Before(keys, k) - {x}
  {
    if keys != [] && keys[0] != k { BeforeRemove(keys[1..], x, k); }
    else if keys != [] {
      assert Remove(keys, x)[0] == k;
    }
  }

  /** In recency order, exactly the keys observed since k come before it. */
  lemma {:induction false} BeforeIsSince(history: seq<string>, k: string)
    requires k in history
    ensures Before(Recency(history), k) == Since(history, k)
  {
    var before, last := history[..|history| - 1], history[|history| - 1];
    if last != k {
      assert history == before + [last];
      BeforeIsSince(before, k);
      BeforeRemove(Recency(before), last, k);
      var r := Recency(history);
      assert r[1..] == Remove(Recency(before), last);
    }
  }

  lemma {:induction false} BeforeSize(keys: seq<string>, i: nat)
    requires i < |keys| && NoRepeats(keys)
    ensures |Before(keys, keys[i])| == i
  {
    if i > 0 {
      var tail := keys[1..];
      assert tail[i - 1] == keys[i] && keys[0] != keys[i];
      BeforeSize(tail, i - 1);
      BeforeMember(tail, keys[i]);
      assert keys[0] !in tail;
    }
  }

  lemma TakeMember(keys: seq<string>, n: nat, k: string)
    requires NoRepeats(keys) && k in keys
    ensures k in Take(keys, n) <==> |Before(keys, k)| < n
  {
    var i :| 0 <= i < |keys| && keys[i] == k;
    BeforeSize(keys, i);
    if i < n { assert Take(keys, n)[i] == k; }
  }

  lemma {:induction false} BeforeMember(keys: seq<string>, k: string)
    ensures forall x :: x in Before(keys, k) ==> x in keys
  {
    if keys != [] && keys[0] != k {
      BeforeMember(keys[1..], k);
      assert forall x :: x in keys[1..] ==> x in keys;
    }
  }

  /** The bounded list is the front of the unbounded one. */
  lemma {:induction false} CacheIsFront(history: seq<string>, capacity: nat)
    requires capacity > 0
    ensures Cache(history, capacity) == Take(Recency(history), capacity)
  {
    if history != [] {
      var before, k := history[..|history| - 1], history[|history| - 1];
      CacheIsFront(before, capacity);
      RecencyKeys(before);
      ObserveFront(Recency(before), capacity, k);
    }
  }

  lemma ObserveFront(keys: seq<string>, capacity: nat, k: string)
    requires capacity > 0 && NoRepeats(keys)
    ensures Observe(Take(keys, capacity), capacity, k) == Take([k] + Remove(keys, k), capacity)
  {
    var front := Take(keys, capacity);
    if i :| 0 <= i < |front| && front[i] == k {
      RemoveAt(keys, i);
      RemoveAt(front, i);
      FrontOfMoved(keys, capacity, i);
    } else if i :| 0 <= i < |keys| && keys[i] == k {
      RemoveAt(keys, i);
      assert k !in front;
      assert ([k] + (keys[..i] + keys[i + 1..]))[..capacity] == ([k] + front)[..capacity];
    } else {
      RemoveAbsent(keys, k);
    }
  }

  lemma FrontOfMoved(keys: seq<string>, capacity: nat, i: nat)
    requires i < |keys| && i < capacity
    ensures var front := Take(keys, capacity);
            [keys[i]] + (front[..i] + front[i + 1..]) == Take([keys[i]] + (keys[..i] + keys[i + 1..]), capacity)
  {
  }

  /** Seen(k) answers "not the first time" exactly when k is among the `capacity` most
      recently observed distinct keys. */
  lemma CacheIsWindow(history: seq<string>, capacity: nat, k: string)
    requires capacity > 0
    ensures k in Cache(history, capacity) <==> Recent(history, capacity, k)
  {
    CacheIsFront(history, capacity);
    RecencyKeys(history);
    if k in history {
      BeforeIsSince(history, k);
      TakeMember(Recency(history), capacity, k);
    }
  }

  ghost function Keyset(history: seq<string>): set<string>
  {
    set k | k in history
  }

  lemma {:induction false} SinceOthers(history: seq<string>, k: string)
    ensures Since(history, k) <= Keyset(history) - {k}
  {
    if history != [] { SinceOthers(history[..|history| - 1], k); }
  }

  /** While no more distinct keys than the capacity were observed nothing is evicted. */
  lemma NoEviction(history: seq<string>, capacity: nat, k: string)
    requires capacity > 0 && |Keyset(history)| <= capacity
    ensures k in Cache(history, capacity) <==> k in history
  {
    CacheIsWindow(history, capacity, k);
    if k in history {
      SinceOthers(history, k);
      assert k in Keyset(history);
      SubsetSmaller(Since(history, k), Keyset(history) - {k});
    }
  }

  lemma {:induction false} SubsetSmaller(a: set<string>, b: set<string>)
    requires a <= b
    ensures |a| <= |b|
  {
    if a != {} {
      var x :| x in a;
      SubsetSmaller(a - {x}, b - {x});
    }
  }
}
