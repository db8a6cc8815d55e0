/** Registry.ObserveRequest under concurrency (gateway metrics.go): the counter updates and
    the histogram observation of many requests, interleaved. Each update is one step, as the
    counter protocol and the histogram's mutex make it. */
module RegistryProtocol {
  import opened GatewayKey
  import opened GatewayRegistry
  import opened Sums

  datatype Name = Requests | Errors | RetryCount | Streams | UsageObserved | UsageUnknown

  datatype Op = Bump(name: Name, delta: int) | Measure

  /** The updates of one request, in the order of the source. */
  function Ops(o: Observation): seq<Op>
  {
    [Bump(Requests, 1), Measure]
    + If(o.labels.status != "success", Bump(Errors, 1))
    + If(o.retries > 0, Bump(RetryCount, o.retries))
    + If(o.streaming, Bump(Streams, 1))
    + [UsageOp(o)]
  }

  function UsageOp(o: Observation): Op
  {
    if o.hasUsage then Bump(UsageObserved, 1) else Bump(UsageUnknown, 1)
  }

  function If(made: bool, op: Op): seq<Op>
  {
    if made then [op] else []
  }

  /** A request in progress, filed under its key: its updates, and how many are made. */
  datatype Call = Call(e: Entry, ops: seq<Op>, done: nat)

  /** Counter values and observed latencies by key. */
  datatype State = State(values: map<(Name, string), int>, seen: map<string, multiset<real>>, calls: seq<Call>)

  const INIT: State := State(map[], map[], [])

  datatype Action = Begin(o: Observation) | Advance(i: nat)

  function Value(s: State, name: Name, key: string): int
  {
    if (name, key) in s.values then s.values[(name, key)] else 0
  }

  function Seen(s: State, key: string): multiset<real>
  {
    if key in s.seen then s.seen[key] else multiset{}
  }

  /** One update of one request. */
  function Perform(s: State, e: Entry, op: Op): State
  {
    match op
    case Bump(name, delta) => s.(values := s.values[(name, e.key) := Value(s, name, e.key) + delta])
    case Measure => s.(seen := s.seen[e.key := Seen(s, e.key) + multiset{e.o.latency}])
  }

  predicate Unfinished(s: State, i: nat)
  {
    i < |s.calls| && s.calls[i].done < |s.calls[i].ops|
  }

  function Next(s: State, a: Action): State
  {
    match a
    case Begin(o) => s.(calls := s.calls + [Call(Entry(ToKey(o.labels), o), Ops(o), 0)])
    case Advance(i) =>
      if !Unfinished(s, i) then s
      else
        var c := s.calls[i];
        Perform(s, c.e, c.ops[c.done]).(calls := s.calls[i := c.(done := c.done + 1)])
  }

  function Run(actions: seq<Action>): State
  {
    if actions == [] then INIT else Next(Run(actions[..|actions| - 1]), actions[|actions| - 1])
  }

  // ------------------------------------------------ what the updates made so far amount to

  function OpAmount(op: Op, name: Name): int
  {
    match op
    case Bump(n, delta) => if n == name then delta else 0
    case Measure => 0
  }

  function OpsAmount(ops: seq<Op>, name: Name): int
  {
    if ops == [] then 0 else OpsAmount(ops[..|ops| - 1], name) + OpAmount(ops[|ops| - 1], name)
  }

  function Made(c: Call): seq<Op>
  {
    if c.done <= |c.ops| then c.ops[..c.done] else c.ops
  }

  ghost function AmountBy(name: Name, key: string): Call -> int
  {
    (c: Call) => if c.e.key == key then OpsAmount(Made(c), name) else 0
  }

  ghost function LatencyBy(key: string): Call -> seq<real>
  {
    (c: Call) => if c.e.key == key && c.done >= 2 then [c.e.o.latency] else []
  }

  ghost function Total(calls: seq<Call>, f: Call -> int): int
  {
    if calls == [] then 0 else Total(calls[..|calls| - 1], f) + f(calls[|calls| - 1])
  }

  lemma {:induction false} TotalUpdate(calls: seq<Call>, i: nat, c: Call, f: Call -> int)
    requires i < |calls|
    ensures Total(calls[i := c], f) == Total(calls, f) - f(calls[i]) + f(c)
  {
    var n := |calls| - 1;
    if i < n {
      TotalUpdate(calls[..n], i, c, f);
      assert calls[i := c][..n] == calls[..n][i := c];
    } else {
      assert calls[i := c][..n] == calls[..n];
    }
  }

  lemma LatencyUpdate(calls: seq<Call>, i: nat, c: Call, f: Call -> seq<real>)
    requires i < |calls|
    ensures multiset(Flatten(calls[i := c], f)) + multiset(f(calls[i])) == multiset(Flatten(calls, f)) + multiset(f(c))
  {
    var more := calls[i := c];
    FlattenWithout(calls, i, f);
    FlattenWithout(more, i, f);
    assert calls[..i] + calls[i + 1..] == more[..i] + more[i + 1..];
  }

  // ------------------------------------------------ invariant

  ghost predicate CountOk(s: State, name: Name, key: string)
  {
    Value(s, name, key) == Total(s.calls, AmountBy(name, key))
  }

  ghost predicate SeenOk(s: State, key: string)
  {
    Seen(s, key) == multiset(Flatten(s.calls, LatencyBy(key)))
  }

  /** The call makes the updates of its request, the latency being the second. */
  ghost predicate Planned(c: Call)
  {
    c.ops == Ops(c.e.o) && |c.ops| >= 2 && forall k :: 0 <= k < |c.ops| ==> (c.ops[k] == Measure <==> k == 1)
  }

  lemma OpsPlanned(e: Entry)
    ensures Planned(Call(e, Ops(e.o), 0))
  {
  }

  ghost predicate CallOk(s: State, i: int)
  {
    0 <= i < |s.calls| ==> Filed(s.calls[i].e) && Planned(s.calls[i]) && s.calls[i].done <= |s.calls[i].ops|
  }

  ghost predicate Inv(s: State)
  {
    && (forall name, key :: CountOk(s, name, key))
    && (forall key :: SeenOk(s, key))
    && (forall i :: CallOk(s, i))
  }

  lemma AmountStep(c: Call, name: Name, key: string)
    requires c.done < |c.ops|
    ensures AmountBy(name, key)(c.(done := c.done + 1)) ==
            AmountBy(name, key)(c) + (if c.e.key == key then OpAmount(c.ops[c.done], name) else 0)
  {
    assert c.ops[..c.done + 1][..c.done] == c.ops[..c.done];
  }

  lemma LatencyStep(c: Call, key: string)
    requires Planned(c) && c.done < |c.ops|
    ensures LatencyBy(key)(c.(done := c.done + 1)) ==
            if c.e.key == key && c.ops[c.done] == Measure then [c.e.o.latency] else LatencyBy(key)(c)
    ensures c.ops[c.done] == Measure ==> LatencyBy(key)(c) == []
  {
    assert c.ops[c.done] == Measure <==> c.done == 1;
  }

  lemma BeginKeeps(s: State, o: Observation)
    requires Inv(s)
    ensures Inv(Next(s, Begin(o)))
  {
    var c := Call(Entry(ToKey(o.labels), o), Ops(o), 0);
    OpsPlanned(c.e);
    AddCall(s, c, s.calls + [c]);
  }

  lemma AddCall(s: State, c: Call, more: seq<Call>)
    requires Inv(s) && Filed(c.e) && Planned(c) && c.done == 0 && more == s.calls + [c]
    ensures Inv(s.(calls := more))
  {
    var n := s.(calls := more);
    assert more[..|s.calls|] == s.calls;
    forall name, key ensures CountOk(n, name, key) { assert CountOk(s, name, key); }
    forall key
      ensures SeenOk(n, key)
    {
      assert SeenOk(s, key);
      assert Flatten(s.calls, LatencyBy(key)) + [] == Flatten(s.calls, LatencyBy(key));
    }
    forall i ensures CallOk(n, i) { assert CallOk(s, i); }
  }

  lemma CallsNext(s: State, i: nat, d: Call)
    requires Unfinished(s, i) && d == s.calls[i].(done := s.calls[i].done + 1)
    ensures Next(s, Advance(i)).calls == s.calls[i := d]
  {
  }

  /** What a counter reads after one more update. */
  lemma ValueNext(s: State, i: nat, name: Name, key: string, delta: int)
    requires Unfinished(s, i)
    requires delta == if s.calls[i].e.key == key then OpAmount(s.calls[i].ops[s.calls[i].done], name) else 0
    ensures Value(Next(s, Advance(i)), name, key) == Value(s, name, key) + delta
  {
  }

  lemma CountAdvances(s: State, i: nat, n: State, name: Name, key: string)
    requires Inv(s) && Unfinished(s, i) && n == Next(s, Advance(i))
    ensures CountOk(n, name, key)
  {
    var c := s.calls[i];
    var d := c.(done := c.done + 1);
    var delta := if c.e.key == key then OpAmount(c.ops[c.done], name) else 0;
    assert CountOk(s, name, key);
    AmountStep(c, name, key);
    TotalUpdate(s.calls, i, d, AmountBy(name, key));
    CallsNext(s, i, d);
    ValueNext(s, i, name, key, delta);
  }

  /** What a histogram has seen after one more update. */
  lemma SeenNext(s: State, i: nat, key: string, hit: bool)
    requires Unfinished(s, i) && hit == (s.calls[i].e.key == key && s.calls[i].ops[s.calls[i].done] == Measure)
    ensures Seen(Next(s, Advance(i)), key) ==
            if hit then Seen(s, key) + multiset{s.calls[i].e.o.latency} else Seen(s, key)
  {
  }

  lemma Exchange(a: multiset<real>, b: multiset<real>, x: seq<real>, y: seq<real>, latency: real, hit: bool)
    requires b + multiset(x) == a + multiset(y)
    requires if hit then x == [] && y == [latency] else x == y
    ensures b == if hit then a + multiset{latency} else a
  {
    if !hit {
      assert b == (b + multiset(x)) - multiset(x);
      assert a == (a + multiset(x)) - multiset(x);
    }
  }

  lemma SeenAdvances(s: State, i: nat, n: State, key: string)
    requires Inv(s) && Unfinished(s, i) && n == Next(s, Advance(i))
    ensures SeenOk(n, key)
  {
    var c := s.calls[i];
    var d := c.(done := c.done + 1);
    var f := LatencyBy(key);
    var hit := c.e.key == key && c.ops[c.done] == Measure;
    assert SeenOk(s, key) && CallOk(s, i);
    LatencyStep(c, key);
    LatencyUpdate(s.calls, i, d, f);
    Exchange(multiset(Flatten(s.calls, f)), multiset(Flatten(s.calls[i := d], f)), f(c), f(d), c.e.o.latency, hit);
    CallsNext(s, i, d);
    SeenNext(s, i, key, hit);
  }

  lemma AdvanceKeeps(s: State, i: nat)
    requires Inv(s)
    ensures Inv(Next(s, Advance(i)))
  {
    var n := Next(s, Advance(i));
    if Unfinished(s, i) {
      forall name, key ensures CountOk(n, name, key) { CountAdvances(s, i, n, name, key); }
      forall key ensures SeenOk(n, key) { SeenAdvances(s, i, n, key); }
      forall j ensures CallOk(n, j) { assert CallOk(s, j); }
    }
  }

  lemma {:induction false} Reachable(actions: seq<Action>)
    ensures Inv(Run(actions))
  {
    if actions != [] {
      var before, a := actions[..|actions| - 1], actions[|actions| - 1];
      Reachable(before);
      match a
      case Begin(o) => BeginKeeps(Run(before), o);
      case Advance(i) => AdvanceKeeps(Run(before), i);
    }
  }

  // ------------------------------------------------ at rest

  /** Every request has made all its updates. */
  ghost predicate AtRest(s: State)
  {
    forall i :: !Unfinished(s, i)
  }

  /** The requests observed, filed under their keys. */
  function LogOf(calls: seq<Call>): seq<Entry>
  {
    if calls == [] then [] else LogOf(calls[..|calls| - 1]) + [calls[|calls| - 1].e]
  }

  function Amount(name: Name): Observation -> int
  {
    match name
    case Requests => One()
    case Errors => Failed()
    case RetryCount => Retries()
    case Streams => Streamed()
    case UsageObserved => Used()
    case UsageUnknown => Unused()
  }

  lemma OpsAmountJoin(a: seq<Op>, op: Op, name: Name)
    ensures OpsAmount(a + [op], name) == OpsAmount(a, name) + OpAmount(op, name)
  {
    assert (a + [op])[..|a|] == a;
  }

  lemma OpsAmountIf(a: seq<Op>, made: bool, op: Op, name: Name)
    ensures OpsAmount(a + If(made, op), name) == OpsAmount(a, name) + (if made then OpAmount(op, name) else 0)
  {
    OpsAmountJoin(a, op, name);
    assert a + [] == a;
  }

  lemma FirstTwo(name: Name)
    ensures OpsAmount([Bump(Requests, 1), Measure], name) == if name == Requests then 1 else 0
  {
    assert [Bump(Requests, 1), Measure] == ([] + [Bump(Requests, 1)]) + [Measure];
    OpsAmountJoin([], Bump(Requests, 1), name);
    OpsAmountJoin([] + [Bump(Requests, 1)], Measure, name);
  }

  lemma OpsSum(o: Observation, name: Name)
    ensures OpsAmount(Ops(o), name) ==
            (if name == Requests then 1 else 0)
            + (if o.labels.status != "success" then OpAmount(Bump(Errors, 1), name) else 0)
            + (if o.retries > 0 then OpAmount(Bump(RetryCount, o.retries), name) else 0)
            + (if o.streaming then OpAmount(Bump(Streams, 1), name) else 0)
            + OpAmount(UsageOp(o), name)
  {
    var a := [Bump(Requests, 1), Measure];
    var b := a + If(o.labels.status != "success", Bump(Errors, 1));
    var c := b + If(o.retries > 0, Bump(RetryCount, o.retries));
    var d := c + If(o.streaming, Bump(Streams, 1));
    FirstTwo(name);
    OpsAmountIf(a, o.labels.status != "success", Bump(Errors, 1), name);
    OpsAmountIf(b, o.retries > 0, Bump(RetryCount, o.retries), name);
    OpsAmountIf(c, o.streaming, Bump(Streams, 1), name);
    OpsAmountJoin(d, UsageOp(o), name);
    assert Ops(o) == d + [UsageOp(o)];
  }

  /** All the updates of a request add up to what it counts for. */
  lemma OpsComplete(o: Observation, name: Name)
    ensures OpsAmount(Ops(o), name) == Amount(name)(o)
  {
    OpsSum(o, name);
  }

  ghost predicate AllMade(calls: seq<Call>)
  {
    forall i :: 0 <= i < |calls| ==> calls[i].done == |calls[i].ops| && Planned(calls[i])
  }

  lemma MadeAll(c: Call, name: Name, key: string)
    requires c.done == |c.ops| && Planned(c)
    ensures AmountBy(name, key)(c) == if c.e.key == key then Amount(name)(c.e.o) else 0
    ensures LatencyBy(key)(c) == if c.e.key == key then [c.e.o.latency] else []
  {
    assert Made(c) == c.ops;
    OpsComplete(c.e.o, name);
  }

  lemma {:induction false} RestTallies(calls: seq<Call>, name: Name, key: string)
    requires AllMade(calls)
    ensures Total(calls, AmountBy(name, key)) == Tally(LogOf(calls), key, Amount(name))
    ensures Flatten(calls, LatencyBy(key)) == Latencies(LogOf(calls), key)
  {
    if calls != [] {
      var n := |calls| - 1;
      RestTallies(calls[..n], name, key);
      MadeAll(calls[n], name, key);
      TallyOne(LogOf(calls[..n]), calls[n].e, key, Amount(name));
      assert LogOf(calls) == LogOf(calls[..n]) + [calls[n].e];
    }
  }

  lemma {:induction false} LogFiled(calls: seq<Call>)
    requires forall i :: 0 <= i < |calls| ==> Filed(calls[i].e)
    ensures AllFiled(LogOf(calls))
  {
    if calls != [] {
      LogFiled(calls[..|calls| - 1]);
      FileOne(LogOf(calls[..|calls| - 1]), calls[|calls| - 1].e);
    } else {
      forall i ensures FiledAt([], i) { }
    }
  }

  lemma RestValue(s: State, name: Name, key: string)
    requires Inv(s) && AtRest(s)
    ensures Value(s, name, key) == Tally(LogOf(s.calls), key, Amount(name))
    ensures Seen(s, key) == multiset(Latencies(LogOf(s.calls), key))
    ensures AllFiled(LogOf(s.calls))
  {
    forall i | 0 <= i < |s.calls|
      ensures Filed(s.calls[i].e) && Planned(s.calls[i]) && s.calls[i].done == |s.calls[i].ops|
    {
      assert CallOk(s, i) && !Unfinished(s, i);
    }
    assert CountOk(s, name, key) && SeenOk(s, key);
    RestTallies(s.calls, name, key);
    LogFiled(s.calls);
  }

  lemma RestCounts(s: State, key: string)
    requires Inv(s) && AtRest(s)
    ensures Value(s, Requests, key) == |Seen(s, key)| == Value(s, UsageObserved, key) + Value(s, UsageUnknown, key)
    ensures Seen(s, key) == multiset(Latencies(LogOf(s.calls), key))
  {
    RestValue(s, Requests, key);
    RestValue(s, UsageObserved, key);
    RestValue(s, UsageUnknown, key);
    UsageSplits(LogOf(s.calls), key);
    TallyCount(LogOf(s.calls), key);
  }

  lemma RestErrors(s: State, l: RequestLabels, key: string)
    requires Inv(s) && AtRest(s) && key == ToKey(l)
    ensures Value(s, Errors, key) == if l.status != "success" then Value(s, Requests, key) else 0
  {
    RestValue(s, Requests, key);
    RestValue(s, Errors, key);
    ErrorsAllOrNone(LogOf(s.calls), l, key);
  }

  /** For every interleaving of requests, once all are through, per key: requests = number of
      latencies observed = usage observed + usage unknown, the latencies are exactly those of
      the key's requests, and errors are all or none of them. */
  lemma RegistryAtRest(actions: seq<Action>, l: RequestLabels, key: string)
    requires AtRest(Run(actions)) && key == ToKey(l)
    ensures var s := Run(actions); var n := Value(s, Requests, key);
            && n == |Seen(s, key)| == Value(s, UsageObserved, key) + Value(s, UsageUnknown, key)
            && Seen(s, key) == multiset(Latencies(LogOf(s.calls), key))
            && Value(s, Errors, key) == (if l.status != "success" then n else 0)
  {
    Reachable(actions);
    RestCounts(Run(actions), key);
    RestErrors(Run(actions), l, key);
  }

  // ------------------------------------------------ every request can finish

  ghost function Remaining(): Call -> int
  {
    (c: Call) => if c.done <= |c.ops| then |c.ops| - c.done else 0
  }

  lemma {:induction false} RemainingNonNegative(calls: seq<Call>)
    ensures Total(calls, Remaining()) >= 0
  {
    if calls != [] { RemainingNonNegative(calls[..|calls| - 1]); }
  }

  /** A request with updates to make may always make the next one. */
  lemma Goes(s: State, i: nat)
    requires Unfinished(s, i)
    ensures var n := Next(s, Advance(i));
            && n.calls == s.calls[i := s.calls[i].(done := s.calls[i].done + 1)]
            && Total(n.calls, Remaining()) == Total(s.calls, Remaining()) - 1
  {
    var d := s.calls[i].(done := s.calls[i].done + 1);
    CallsNext(s, i, d);
    TotalUpdate(s.calls, i, d, Remaining());
  }

  lemma {:induction false} SameLog(calls: seq<Call>, i: nat, d: Call)
    requires i < |calls| && d.e == calls[i].e
    ensures LogOf(calls[i := d]) == LogOf(calls)
  {
    var n := |calls| - 1;
    if i < n {
      SameLog(calls[..n], i, d);
      assert calls[i := d][..n] == calls[..n][i := d];
    } else {
      assert calls[i := d][..n] == calls[..n];
    }
  }

  lemma OneMore(actions: seq<Action>, i: nat, s: State) returns (next: seq<Action>)
    requires s == Run(actions) && Unfinished(s, i)
    ensures next == actions + [Advance(i)] && LogOf(Run(next).calls) == LogOf(s.calls)
    ensures Total(Run(next).calls, Remaining()) == Total(s.calls, Remaining()) - 1
  {
    next := actions + [Advance(i)];
    assert next[..|actions|] == actions;
    Goes(s, i);
    SameLog(s.calls, i, s.calls[i].(done := s.calls[i].done + 1));
  }

  /** From every reachable state the requests in progress can all be finished, without new
      ones. */
  lemma {:induction false} EveryRunCanRest(actions: seq<Action>) returns (more: seq<Action>)
    ensures actions <= more && (forall i :: |actions| <= i < |more| ==> more[i].Advance?)
    ensures AtRest(Run(more)) && LogOf(Run(more).calls) == LogOf(Run(actions).calls)
    decreases Total(Run(actions).calls, Remaining())
  {
    var s := Run(actions);
    RemainingNonNegative(s.calls);
    if i: nat :| Unfinished(s, i) {
      var next := OneMore(actions, i, s);
      more := EveryRunCanRest(next);
    } else {
      more := actions;
    }
  }
}
