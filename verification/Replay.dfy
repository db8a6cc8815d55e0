/** The metrics consumer (metrics-endpoint consumer.go): dedup, then apply, for every
    event an at-least-once stream delivers. */
module Replay {
  import opened Json
  import opened Contracts
  import opened Text
  import opened Lint
  import opened Lru
  import opened Sums
  import StringOrder
  import opened Float64
  import opened Aggregator
  import opened OrderIndependence

  /** One event from the bus. */
  datatype Message = Message(topic: string, eventId: string, payload: Option<Event>)

  function Key(m: Message): string
  {
    m.topic + "|" + m.eventId
  }

  /** Two messages share a key exactly when they share topic and id. */
  lemma KeyExactly(a: Message, b: Message)
    requires '|' !in a.topic && '|' !in b.topic
    ensures Key(a) == Key(b) <==> a.topic == b.topic && a.eventId == b.eventId
  {
    IndexOfJoined(a.topic, '|', a.eventId);
    IndexOfJoined(b.topic, '|', b.eventId);
    if Key(a) == Key(b) {
      assert |a.topic| == |b.topic|;
      assert a.topic == Key(a)[..|a.topic|] && b.topic == Key(b)[..|b.topic|];
      assert a.eventId == Key(a)[|a.topic| + 1..] && b.eventId == Key(b)[|b.topic| + 1..];
    }
  }

  /** No topic of the contracts has the separator in it. */
  lemma TopicsPlain(topic: string)
    requires topic in TOPICS
    ensures '|' !in topic
  {
  }

  function Body(m: Message): Delivery
  {
    Delivery(m.topic, m.payload)
  }

  function Bodies(ms: seq<Message>): seq<Delivery>
  {
    if ms == [] then [] else Bodies(ms[..|ms| - 1]) + [Body(ms[|ms| - 1])]
  }

  /** The keys shown to the dedup set: events without an id bypass it. */
  function History(ms: seq<Message>): seq<string>
  {
    if ms == [] then []
    else
      var n := |ms| - 1;
      if ms[n].eventId == "" then History(ms[..n]) else History(ms[..n]) + [Key(ms[n])]
  }

  predicate Fresh(before: seq<Message>, m: Message, capacity: nat)
  {
    m.eventId == "" || Key(m) !in Cache(History(before), capacity)
  }

  /** The events that reach the aggregator. */
  function Forwarded(ms: seq<Message>, capacity: nat): seq<Message>
  {
    if ms == [] then []
    else
      var n := |ms| - 1;
      var before := Forwarded(ms[..n], capacity);
      if Fresh(ms[..n], ms[n], capacity) then before + [ms[n]] else before
  }

  /** An event without an id is never dropped and never remembered. */
  lemma NoIdForwarded(ms: seq<Message>, m: Message, capacity: nat)
    requires m.eventId == ""
    ensures Forwarded(ms + [m], capacity) == Forwarded(ms, capacity) + [m] && History(ms + [m]) == History(ms)
  {
    assert (ms + [m])[..|ms|] == ms;
  }

  /** An aggregator in this state has applied exactly these events, in this order. */
  ghost predicate Reflects(view: State, env: Env, ms: seq<Message>)
  {
    view == Run(env, Bodies(ms))
  }

  class Consumer {
    const agg: Aggregator
    const dedup: LRUDedup
    var ready: bool
    var consumed: nat
    var deduped: nat
    /** Everything the stream has delivered. */
    ghost var log: seq<Message>
    /** What of it reached the aggregator. */
    ghost var forwarded: seq<Message>

    /** The dedup set has seen the log. */
    ghost predicate Recorded()
      reads this, dedup
    {
      dedup.Valid() && dedup.Keys() == Cache(History(log), dedup.capacity)
    }

    /** The aggregator has applied what of the log passed the dedup set. */
    ghost predicate Applied()
      reads this, agg
    {
      && forwarded == Forwarded(log, dedup.capacity)
      && Reflects(agg.View(), agg.env, forwarded)
      && consumed == |forwarded|
      && consumed + deduped == |log|
      && ready == (log != [])
    }

    ghost predicate Valid()
      reads this, agg, dedup
    {
      Recorded() && Applied()
    }

    constructor (env: Env, capacity: int)
      ensures Valid() && log == [] && agg.env == env && fresh(agg) && fresh(dedup)
      ensures dedup.capacity == (if capacity <= 0 then 1 else capacity)
    {
      agg := new Aggregator(env);
      dedup := new LRUDedup(capacity);
      ready, consumed, deduped, log, forwarded := false, 0, 0, [], [];
    }

    /** The dedup verdict. */
    method Admit(m: Message) returns (admitted: bool)
      requires Recorded()
      modifies dedup
      ensures dedup.Valid() && dedup.Keys() == Cache(History(log + [m]), dedup.capacity)
      ensures admitted == Fresh(log, m, dedup.capacity)
    {
      HistoryOne(log, m, dedup.capacity);
      if m.eventId == "" {
        return true;
      }
      admitted := dedup.Seen(m.topic + "|" + m.eventId);
    }

    method Forward(m: Message)
      requires Reflects(agg.View(), agg.env, forwarded) && consumed == |forwarded|
      modifies this`consumed, this`forwarded, agg
      ensures forwarded == old(forwarded) + [m]
      ensures Reflects(agg.View(), agg.env, forwarded) && consumed == |forwarded|
    {
      ReflectsOne(agg.View(), agg.env, forwarded, m);
      agg.Apply(m.topic, m.payload);
      consumed := consumed + 1;
      forwarded := forwarded + [m];
    }

    /** Counts the event, and applies it unless it is a duplicate. */
    method Settle(m: Message, admitted: bool)
      requires Applied() && admitted == Fresh(log, m, dedup.capacity)
      modifies this, agg
      ensures Applied() && log == old(log) + [m]
    {
      ForwardOne(log, m, dedup.capacity);
      ready := true;
      if !admitted {
        deduped := deduped + 1;
      } else {
        Forward(m);
      }
      log := log + [m];
    }

    /** One turn of the loop. */
    method Handle(m: Message)
      requires Valid()
      modifies this, agg, dedup
      ensures Valid() && log == old(log) + [m]
    {
      var admitted := Admit(m);
      Settle(m, admitted);
    }

    /** The loop, over whatever the stream delivers before it closes. */
    method RunStream(stream: seq<Message>)
      requires Valid()
      modifies this, agg, dedup
      ensures Valid() && log == old(log) + stream
    {
      ghost var was := log;
      Cut(was, stream);
      for i := 0 to |stream|
        invariant Valid()
        invariant log == was + stream[..i]
      {
        Handle(stream[i]);
      }
    }
  }

  lemma HistoryOne(before: seq<Message>, m: Message, capacity: nat)
    ensures var keys := Cache(History(before), capacity);
            Cache(History(before + [m]), capacity) == if m.eventId == "" then keys else Observe(keys, capacity, Key(m))
  {
    var h := History(before);
    assert (before + [m])[..|before|] == before;
    assert (h + [Key(m)])[..|h|] == h;
  }

  lemma ForwardOne(before: seq<Message>, m: Message, capacity: nat)
    ensures var fs := Forwarded(before, capacity);
            Forwarded(before + [m], capacity) == if Fresh(before, m, capacity) then fs + [m] else fs
  {
    assert (before + [m])[..|before|] == before;
  }

  lemma ReflectsOne(view: State, env: Env, ms: seq<Message>, m: Message)
    requires Reflects(view, env, ms)
    ensures Reflects(After(env, view, Body(m)), env, ms + [m])
  {
    assert (ms + [m])[..|ms|] == ms;
    RunOne(env, Bodies(ms), Body(m));
  }

  lemma RunOne(env: Env, ds: seq<Delivery>, d: Delivery)
    ensures Run(env, ds + [d]) == After(env, Run(env, ds), d)
  {
    assert (ds + [d])[..|ds|] == ds;
  }

  // ------------------------------------------------ replay

  /** Every event has an id, and one key always carries one event. */
  ghost predicate Identified(ms: seq<Message>)
  {
    && (forall m :: m in ms ==> m.eventId != "")
    && (forall m, n :: m in ms && n in ms && Key(m) == Key(n) ==> Body(m) == Body(n))
  }

  lemma KeyFixesMessage(ms: seq<Message>, m: Message, n: Message)
    requires Identified(ms) && m in ms && n in ms && Key(m) == Key(n)
    ensures m == n
  {
    assert Body(m) == Body(n);
    assert m.eventId == Key(m)[|m.topic| + 1..] && n.eventId == Key(n)[|n.topic| + 1..];
  }

  lemma {:induction false} HistoryMember(ms: seq<Message>, k: string)
    requires forall m :: m in ms ==> m.eventId != ""
    ensures k in History(ms) <==> exists m :: m in ms && Key(m) == k
  {
    if ms != [] {
      var n := |ms| - 1;
      assert ms == ms[..n] + [ms[n]];
      HistoryMember(ms[..n], k);
    }
  }

  /** An event seen before is recognised while fewer than `capacity` distinct keys came in
      since it was last seen. */
  lemma FreshExactly(stream: seq<Message>, before: seq<Message>, m: Message, capacity: nat)
    requires capacity > 0 && Identified(stream) && m in stream && forall x :: x in before ==> x in stream
    ensures Fresh(before, m, capacity) <==> m !in before || |Since(History(before), Key(m))| >= capacity
  {
    CacheIsWindow(History(before), capacity, Key(m));
    HistoryMember(before, Key(m));
    if x :| x in before && Key(x) == Key(m) {
      KeyFixesMessage(stream, x, m);
    }
  }

  /** Delivery i, if it is a redelivery, comes before `capacity` other keys have. */
  ghost predicate InWindowAt(stream: seq<Message>, capacity: nat, i: nat)
    requires i < |stream|
  {
    stream[i] in stream[..i] ==> |Since(History(stream[..i]), Key(stream[i]))| < capacity
  }

  /** Every redelivery finds fewer than `capacity` distinct keys since the last delivery of
      its own. */
  ghost predicate InWindow(stream: seq<Message>, capacity: nat)
  {
    forall i :: 0 <= i < |stream| ==> InWindowAt(stream, capacity, i)
  }

  lemma WindowOne(before: seq<Message>, m: Message, stream: seq<Message>, capacity: nat)
    requires stream == before + [m]
    ensures InWindow(stream, capacity) <==>
            InWindow(before, capacity) && (m in before ==> |Since(History(before), Key(m))| < capacity)
  {
    assert stream[..|before|] == before;
    forall i | 0 <= i < |before|
      ensures InWindowAt(stream, capacity, i) <==> InWindowAt(before, capacity, i)
    {
      assert stream[..i] == before[..i];
    }
    if InWindow(stream, capacity) {
      assert InWindowAt(stream, capacity, |before|);
      forall i | 0 <= i < |before| ensures InWindowAt(before, capacity, i) { assert InWindowAt(stream, capacity, i); }
    }
  }

  lemma NoRepeatsOne<T>(xs: seq<T>, x: T)
    ensures NoRepeats(xs + [x]) <==> NoRepeats(xs) && x !in xs
  {
    var ys := xs + [x];
    if NoRepeats(ys) {
      forall i, j | 0 <= i < j < |xs| ensures xs[i] != xs[j] { assert ys[i] != ys[j]; }
      forall i | 0 <= i < |xs| ensures xs[i] != x { assert ys[i] != ys[|xs|]; }
    }
  }

  /** Every event is forwarded; it is forwarded only once exactly when its redeliveries stay
      in the window. */
  lemma {:induction false} ForwardedExactly(stream: seq<Message>, capacity: nat)
    requires capacity > 0 && Identified(stream)
    ensures SameMembers(Forwarded(stream, capacity), stream)
    ensures NoRepeats(Forwarded(stream, capacity)) <==> InWindow(stream, capacity)
  {
    if stream != [] {
      var before, m := stream[..|stream| - 1], stream[|stream| - 1];
      assert stream == before + [m];
      ForwardedExactly(before, capacity);
      FreshExactly(stream, before, m, capacity);
      WindowOne(before, m, stream, capacity);
      NoRepeatsOne(Forwarded(before, capacity), m);
    }
  }

  /** With no more distinct keys than the capacity every redelivery is in the window. */
  lemma FewKeysInWindow(stream: seq<Message>, capacity: nat)
    requires capacity > 0 && Identified(stream) && |Keyset(History(stream))| <= capacity
    ensures InWindow(stream, capacity)
  {
    forall i | 0 <= i < |stream|
      ensures InWindowAt(stream, capacity, i)
    {
      if stream[i] in stream[..i] {
        HistoryMember(stream[..i], Key(stream[i]));
        FewSince(stream, i, capacity);
      }
    }
  }

  lemma FewSince(stream: seq<Message>, i: nat, capacity: nat)
    requires i < |stream| && |Keyset(History(stream))| <= capacity && Key(stream[i]) in History(stream[..i])
    ensures |Since(History(stream[..i]), Key(stream[i]))| < capacity
  {
    var h := History(stream[..i]);
    SinceOthers(h, Key(stream[i]));
    HistoryGrows(stream, i);
    assert Key(stream[i]) in Keyset(History(stream));
    SubsetSmaller(Since(h, Key(stream[i])), Keyset(History(stream)) - {Key(stream[i])});
  }

  lemma {:induction false} HistoryGrows(stream: seq<Message>, i: nat)
    requires i <= |stream|
    ensures forall k :: k in History(stream[..i]) ==> k in History(stream)
  {
    if i < |stream| {
      var before := stream[..|stream| - 1];
      HistoryGrows(before, i);
      assert before[..i] == stream[..i];
    } else {
      assert stream[..i] == stream;
    }
  }

  lemma {:induction false} CountOnce<T(!new)>(xs: seq<T>, x: T)
    requires NoRepeats(xs)
    ensures multiset(xs)[x] == if x in xs then 1 else 0
  {
    if xs != [] {
      var n := |xs| - 1;
      assert xs == xs[..n] + [xs[n]];
      CountOnce(xs[..n], x);
    }
  }

  lemma SameMultiset<T(!new)>(a: seq<T>, b: seq<T>)
    requires NoRepeats(a) && NoRepeats(b) && SameMembers(a, b)
    ensures multiset(a) == multiset(b)
  {
    forall x
      ensures multiset(a)[x] == multiset(b)[x]
    {
      CountOnce(a, x);
      CountOnce(b, x);
    }
  }

  lemma {:induction false} BodiesJoin(a: seq<Message>, b: seq<Message>)
    ensures Bodies(a + b) == Bodies(a) + Bodies(b)
  {
    if b == [] {
      assert a + b == a;
    } else {
      var n := |b| - 1;
      BodiesJoin(a, b[..n]);
      assert (a + b)[..|a + b| - 1] == a + b[..n];
    }
  }

  lemma BodiesWithout(ms: seq<Message>, i: nat)
    requires i < |ms|
    ensures multiset(Bodies(ms)) == multiset(Bodies(ms[..i] + ms[i + 1..])) + multiset{Body(ms[i])}
  {
    Without(ms, i);
    BodiesJoin(ms[..i], [ms[i]] + ms[i + 1..]);
    BodiesJoin([ms[i]], ms[i + 1..]);
    BodiesJoin(ms[..i], ms[i + 1..]);
    assert Bodies([ms[i]]) == [Body(ms[i])];
  }

  lemma {:induction false} BodiesPermuted(a: seq<Message>, b: seq<Message>)
    requires multiset(a) == multiset(b)
    ensures multiset(Bodies(a)) == multiset(Bodies(b))
    decreases |a|
  {
    assert |a| == |multiset(a)| == |multiset(b)| == |b|;
    if a != [] {
      var i := WithoutSame(a, b);
      BodiesWithout(b, i);
      BodiesPermuted(a[..|a| - 1], b[..i] + b[i + 1..]);
    }
  }

  // ------------------------------------------------ counting applications

  ghost function Ticks(s: State): nat
  {
    s.processed + Count(s.rejected, DecodeFailed) + Count(s.rejected, SchemaInvalid) + Count(s.rejected, Forbidden)
    + Count(s.rejected, Cardinality) + Count(s.rejected, TopicUnknown)
  }

  lemma TickOne(env: Env, s: State, d: Delivery)
    ensures Ticks(After(env, s, d)) == Ticks(s) + 1
  {
    BumpOne(s.rejected, if Decide(env, d).Rejected? then Decide(env, d).reason else Forbidden, s.processed);
  }

  lemma BumpOne(rejected: map<Reason, nat>, r: Reason, processed: nat)
    ensures Ticks(State(map[], Bump(rejected, r), processed)) == Ticks(State(map[], rejected, processed)) + 1
  {
  }

  /** A run ticks once per event. */
  lemma {:induction false} RunTicks(env: Env, ds: seq<Delivery>)
    ensures Ticks(Run(env, ds)) == |ds|
  {
    if ds != [] {
      RunTicks(env, ds[..|ds| - 1]);
      TickOne(env, Run(env, ds[..|ds| - 1]), ds[|ds| - 1]);
    }
  }

  lemma {:induction false} ElementCount<T(!new)>(xs: seq<T>)
    ensures |StringOrder.Elements(xs)| <= |xs|
    ensures NoRepeats(xs) <==> |StringOrder.Elements(xs)| == |xs|
  {
    if xs != [] {
      var front, x := xs[..|xs| - 1], xs[|xs| - 1];
      assert xs == front + [x];
      ElementCount(front);
      NoRepeatsOne(front, x);
      assert StringOrder.Elements(xs) == StringOrder.Elements(front) + {x};
    }
  }

  lemma SameLengthNoRepeats<T(!new)>(a: seq<T>, b: seq<T>)
    requires SameMembers(a, b) && NoRepeats(b) && |a| == |b|
    ensures NoRepeats(a)
  {
    ElementCount(a);
    ElementCount(b);
    assert StringOrder.Elements(a) == StringOrder.Elements(b);
  }

  lemma {:induction false} BodiesLength(ms: seq<Message>)
    ensures |Bodies(ms)| == |ms|
  {
    if ms != [] { BodiesLength(ms[..|ms| - 1]); }
  }

  /** The distinct events in order of first delivery. */
  function FirstSeen(stream: seq<Message>): seq<Message>
  {
    if stream == [] then []
    else
      var n := |stream| - 1;
      var before := FirstSeen(stream[..n]);
      if stream[n] in stream[..n] then before else before + [stream[n]]
  }

  lemma {:induction false} FirstSeenOnce(stream: seq<Message>)
    ensures NoRepeats(FirstSeen(stream)) && SameMembers(FirstSeen(stream), stream)
  {
    if stream != [] {
      var before, m := stream[..|stream| - 1], stream[|stream| - 1];
      assert stream == before + [m];
      FirstSeenOnce(before);
      NoRepeatsOne(FirstSeen(before), m);
    }
  }

  lemma {:induction false} WindowForwardsFirst(stream: seq<Message>, capacity: nat)
    requires capacity > 0 && Identified(stream) && InWindow(stream, capacity)
    ensures Forwarded(stream, capacity) == FirstSeen(stream)
  {
    if stream != [] {
      var before, m := stream[..|stream| - 1], stream[|stream| - 1];
      assert stream == before + [m];
      WindowOne(before, m, stream, capacity);
      WindowForwardsFirst(before, capacity);
      FreshExactly(stream, before, m, capacity);
    }
  }

  /** The number of applications tells whether an event was applied twice. */
  lemma SameStateNoRepeats(env: Env, forwarded: seq<Message>, once: seq<Message>)
    requires NoRepeats(once) && SameMembers(forwarded, once)
    requires Run(env, Bodies(forwarded)) == Run(env, Bodies(once))
    ensures NoRepeats(forwarded)
  {
    RunTicks(env, Bodies(forwarded));
    RunTicks(env, Bodies(once));
    BodiesLength(forwarded);
    BodiesLength(once);
    SameLengthNoRepeats(forwarded, once);
  }

  /** Replay safety, whatever the labels and the arithmetic: the aggregator ends exactly as if
      each distinct event had been applied once, in order of first delivery, if and only if
      every redelivery comes while its key is in the dedup window. */
  lemma ReplayFirstOrder(env: Env, stream: seq<Message>, capacity: nat)
    requires capacity > 0 && Identified(stream)
    ensures Run(env, Bodies(Forwarded(stream, capacity))) == Run(env, Bodies(FirstSeen(stream))) <==> InWindow(stream, capacity)
  {
    ForwardedExactly(stream, capacity);
    FirstSeenOnce(stream);
    if InWindow(stream, capacity) {
      WindowForwardsFirst(stream, capacity);
    }
    if Run(env, Bodies(Forwarded(stream, capacity))) == Run(env, Bodies(FirstSeen(stream))) {
      SameStateNoRepeats(env, Forwarded(stream, capacity), FirstSeen(stream));
    }
  }

  /** Replay safety in any order: for events whose labels do not collide and whose amounts
      have one float sum in every order, the aggregator ends as if each distinct event had
      been applied once, in whatever order, if and only if every redelivery is in the window. */
  lemma ReplaySafeExactly(env: Env, stream: seq<Message>, once: seq<Message>, capacity: nat)
    requires capacity > 0 && Identified(stream)
    requires NoRepeats(once) && SameMembers(once, stream) && OrderFree(env, Bodies(once))
    ensures Run(env, Bodies(Forwarded(stream, capacity))) == Run(env, Bodies(once)) <==> InWindow(stream, capacity)
  {
    var forwarded := Forwarded(stream, capacity);
    ForwardedExactly(stream, capacity);
    if InWindow(stream, capacity) {
      SameMultiset(once, forwarded);
      BodiesPermuted(once, forwarded);
      OrderIndependent(env, Bodies(once), Bodies(forwarded));
    }
    if Run(env, Bodies(forwarded)) == Run(env, Bodies(once)) {
      SameStateNoRepeats(env, forwarded, once);
    }
  }

  // ------------------------------------------------ when the order of events matters

  /** Every way of applying each event of the stream once shows what the stream shows. */
  ghost predicate AnyOnceSameSnapshot(env: Env, stream: seq<Message>, capacity: nat)
  {
    forall once :: NoRepeats(once) && SameMembers(once, stream) ==>
      SnapshotOf(Run(env, Bodies(once))) == SnapshotOf(Run(env, Bodies(Forwarded(stream, capacity))))
  }

  ghost function BodyOf(): Message -> seq<Delivery>
  {
    m => [Body(m)]
  }

  lemma {:induction false} BodiesFlatten(ms: seq<Message>)
    ensures Bodies(ms) == Flatten(ms, BodyOf())
  {
    if ms != [] { BodiesFlatten(ms[..|ms| - 1]); }
  }

  /** A rearrangement of the bodies comes from a rearrangement of the messages. */
  lemma LiftBodies(first: seq<Message>, es: seq<Delivery>) returns (once: seq<Message>)
    requires NoRepeats(first) && multiset(es) == multiset(Bodies(first))
    ensures NoRepeats(once) && SameMembers(once, first) && Bodies(once) == es
  {
    BodiesFlatten(first);
    once := LiftPermutation(first, BodyOf(), es);
    BodiesFlatten(once);
    SameMembersOf(once, first);
    assert |once| == |multiset(once)| == |multiset(first)| == |first|;
    SameLengthNoRepeats(once, first);
  }

  lemma SameMembersOf<T(!new)>(a: seq<T>, b: seq<T>)
    requires multiset(a) == multiset(b)
    ensures SameMembers(a, b)
  {
    forall x
      ensures x in a <==> x in b
    {
      assert x in a <==> x in multiset(a);
      assert x in b <==> x in multiset(b);
    }
  }

  lemma OnceSnapshotShows(env: Env, stream: seq<Message>, capacity: nat, es: seq<Delivery>)
    requires capacity > 0 && Identified(stream) && InWindow(stream, capacity)
    requires AnyOnceSameSnapshot(env, stream, capacity) && multiset(es) == multiset(Bodies(FirstSeen(stream)))
    ensures SnapshotOf(Run(env, es)) == SnapshotOf(Run(env, Bodies(FirstSeen(stream))))
  {
    FirstSeenOnce(stream);
    WindowForwardsFirst(stream, capacity);
    var once := LiftBodies(FirstSeen(stream), es);
  }

  /** Within the window, every order of applying each event once shows the same snapshot
      exactly when the events do not depend on order. */
  lemma ReplayAnyOrderExactly(env: Env, stream: seq<Message>, capacity: nat)
    requires capacity > 0 && Identified(stream) && InWindow(stream, capacity)
    ensures AnyOnceSameSnapshot(env, stream, capacity) <==> OrderFree(env, Bodies(FirstSeen(stream)))
  {
    var first := FirstSeen(stream);
    FirstSeenOnce(stream);
    WindowForwardsFirst(stream, capacity);
    OrderIndependentExactly(env, Bodies(first));
    if OrderFree(env, Bodies(first)) {
      forall once | NoRepeats(once) && SameMembers(once, stream)
        ensures SnapshotOf(Run(env, Bodies(once))) == SnapshotOf(Run(env, Bodies(first)))
      {
        SameMultiset(first, once);
        BodiesPermuted(first, once);
        OrderIndependent(env, Bodies(first), Bodies(once));
      }
    }
    if AnyOnceSameSnapshot(env, stream, capacity) {
      forall es | multiset(es) == multiset(Bodies(first))
        ensures SnapshotOf(Run(env, es)) == SnapshotOf(Run(env, Bodies(first)))
      {
        OnceSnapshotShows(env, stream, capacity, es);
      }
    }
  }

  /** In particular: however the stream reorders and redelivers no more events than the
      dedup set holds, the aggregator ends as if each had been applied once. */
  lemma ReplaySafe(env: Env, stream: seq<Message>, once: seq<Message>, capacity: nat)
    requires capacity > 0 && Identified(stream) && |Keyset(History(stream))| <= capacity
    requires NoRepeats(once) && SameMembers(once, stream) && OrderFree(env, Bodies(once))
    ensures Run(env, Bodies(Forwarded(stream, capacity))) == Run(env, Bodies(once))
  {
    FewKeysInWindow(stream, capacity);
    ReplaySafeExactly(env, stream, once, capacity);
  }

  lemma {:induction false} BodiesMember(ms: seq<Message>, d: Delivery)
    ensures d in Bodies(ms) <==> exists m :: m in ms && Body(m) == d
  {
    if ms != [] {
      var n := |ms| - 1;
      assert ms == ms[..n] + [ms[n]];
      BodiesMember(ms[..n], d);
    }
  }

  /** Replay safety in binary64 for every stream of whole counts in range, its label values
      free of NUL: in any order, the snapshots are equal. */
  lemma ReplaySafeWhole(env: Env, stream: seq<Message>, once: seq<Message>, capacity: nat)
    requires capacity > 0 && Identified(stream) && InWindow(stream, capacity)
    requires NoRepeats(once) && SameMembers(once, stream) && Binary64(env.fl)
    requires forall m :: m in stream ==> NulFree(Body(m)) && WholeDelivery(Body(m))
    requires forall m, k :: InRange(env, Bodies(once), m, k)
    ensures SnapshotOf(Run(env, Bodies(Forwarded(stream, capacity)))) == SnapshotOf(Run(env, Bodies(once)))
  {
    forall d | d in Bodies(once)
      ensures NulFree(d) && WholeDelivery(d)
    {
      BodiesMember(once, d);
    }
    BinaryExactOnWhole(env.fl);
    WholeEventsSeries(env, Bodies(once));
    WholeOrderFree(env, Bodies(once));
    ReplaySafeExactly(env, stream, once, capacity);
  }
}
