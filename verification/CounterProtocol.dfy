/** counter.add under concurrency (gateway metrics.go): a read-locked lookup, a write-locked
    re-check and insert, and an atomic add outside the lock, as interleaved steps. */
module CounterProtocol {
  import opened Json

  /** One call of add. */
  datatype Call = Call(key: string, delta: int)

  /** Where a call stands. The mutex is held for reading in Reading and Looked, and for
      writing in Checking, Absent and Have. */
  datatype Stage =
    | Start
    | Reading
    | Looked(found: Option<nat>)
    | Missed
    | Checking
    | Absent
    | Have(cell: nat)
    | Adding(cell: nat)

  datatype Thread = Idle | Busy(id: nat, at: Stage)

  /** `values` maps a key to its cell; cells live on the heap and are found by position. */
  datatype State = State(
    values: map<string, nat>,
    cells: seq<int>,
    readers: set<nat>,
    writer: Option<nat>,
    threads: map<nat, Thread>,
    calls: seq<Call>,
    done: set<nat>)

  datatype Action = Begin(t: nat, call: Call) | Advance(t: nat)

  const INIT: State := State(map[], [], {}, None, map[], [], {})

  function ThreadOf(s: State, t: nat): Thread
  {
    if t in s.threads then s.threads[t] else Idle
  }

  /** 64-bit two's complement. */
  function Wrap64(x: int): int
  {
    (x + 0x8000_0000_0000_0000) % 0x1_0000_0000_0000_0000 - 0x8000_0000_0000_0000
  }

  /** The one 64-bit integer that differs from x by a multiple of 2 to the power 64. */
  lemma WrapExactly(x: int, y: int)
    ensures Wrap64(x) == y <==>
            -0x8000_0000_0000_0000 <= y < 0x8000_0000_0000_0000 && (x - y) % 0x1_0000_0000_0000_0000 == 0
  {
  }

  function Goto(s: State, t: nat, id: nat, at: Stage): State
  {
    s.(threads := s.threads[t := Busy(id, at)])
  }

  function Lookup(s: State, key: string): Option<nat>
  {
    if key in s.values then Some(s.values[key]) else None
  }

  /** One step of a thread; a thread that waits for the mutex does not move. */
  function Next(s: State, a: Action): State
  {
    match a
    case Begin(t, call) =>
      if ThreadOf(s, t).Idle? then Goto(s, t, |s.calls|, Start).(calls := s.calls + [call]) else s
    case Advance(t) =>
      match ThreadOf(s, t)
      case Idle => s
      case Busy(id, at) => if id < |s.calls| then Move(s, t, id, at, s.calls[id].key, s.calls[id].delta) else s
  }

  function Move(s: State, t: nat, id: nat, at: Stage, key: string, delta: int): State
  {
    match at
    case Start => if s.writer == None then Goto(s, t, id, Reading).(readers := s.readers + {t}) else s
    case Reading => Goto(s, t, id, Looked(Lookup(s, key)))
    case Looked(Some(cell)) => Goto(s, t, id, Adding(cell)).(readers := s.readers - {t})
    case Looked(None) => Goto(s, t, id, Missed).(readers := s.readers - {t})
    case Missed => if s.writer == None && s.readers == {} then Goto(s, t, id, Checking).(writer := Some(t)) else s
    case Checking => if key in s.values then Goto(s, t, id, Have(s.values[key])) else Goto(s, t, id, Absent)
    case Absent =>
      Goto(s, t, id, Have(|s.cells|)).(values := s.values[key := |s.cells|], cells := s.cells + [0])
    case Have(cell) => Goto(s, t, id, Adding(cell)).(writer := None)
    case Adding(cell) =>
      if cell < |s.cells| then
        s.(threads := s.threads[t := Idle], cells := s.cells[cell := Wrap64(s.cells[cell] + delta)], done := s.done + {id})
      else s
  }

  function Run(s: State, actions: seq<Action>): State
  {
    if actions == [] then s else Next(Run(s, actions[..|actions| - 1]), actions[|actions| - 1])
  }

  // ------------------------------------------------ invariant

  /** The deltas of the first n calls that are done and name a key. */
  function SumDone(calls: seq<Call>, done: set<nat>, key: string, n: nat): int
    requires n <= |calls|
  {
    if n == 0 then 0
    else SumDone(calls, done, key, n - 1) + (if n - 1 in done && calls[n - 1].key == key then calls[n - 1].delta else 0)
  }

  predicate HoldsRead(th: Thread)
  {
    th.Busy? && (th.at.Reading? || th.at.Looked?)
  }

  predicate HoldsWrite(th: Thread)
  {
    th.Busy? && (th.at.Checking? || th.at.Absent? || th.at.Have?)
  }

  /** The mutex admits readers or one writer, and its fields say who. */
  ghost predicate Locked(s: State, t: nat)
  {
    (t in s.readers <==> HoldsRead(ThreadOf(s, t))) && (s.writer == Some(t) <==> HoldsWrite(ThreadOf(s, t)))
  }

  ghost predicate LocksOk(s: State)
  {
    && (forall t :: Locked(s, t))
    && (s.writer.Some? ==> s.readers == {})
  }

  /** What a thread believes of its key is true. */
  ghost predicate Believes(s: State, t: nat)
  {
    match ThreadOf(s, t)
    case Idle => true
    case Busy(id, at) =>
      && id < |s.calls| && id !in s.done
      && match at
         case Looked(Some(cell)) => Lookup(s, s.calls[id].key) == Some(cell)
         case Absent => s.calls[id].key !in s.values
         case Have(cell) => Lookup(s, s.calls[id].key) == Some(cell)
         case Adding(cell) => Lookup(s, s.calls[id].key) == Some(cell)
         case _ => true
  }

  /** Keys have distinct cells, and a cell holds the sum of the finished adds. */
  ghost predicate CellOk(s: State, key: string)
  {
    var sum := SumDone(s.calls, s.done, key, |s.calls|);
    if key in s.values then s.values[key] < |s.cells| && s.cells[s.values[key]] == Wrap64(sum) else sum == 0
  }

  ghost predicate Distinct(s: State)
  {
    forall k, l :: k in s.values && l in s.values && s.values[k] == s.values[l] ==> k == l
  }

  /** A call is finished or exactly one thread is working on it. */
  ghost predicate Owned(s: State, id: nat)
  {
    id < |s.calls| ==> id in s.done || exists t :: Works(s, t, id)
  }

  ghost predicate Works(s: State, t: nat, id: nat)
  {
    ThreadOf(s, t).Busy? && ThreadOf(s, t).id == id
  }

  ghost predicate OneWorker(s: State)
  {
    forall t, u, id :: Works(s, t, id) && Works(s, u, id) ==> t == u
  }

  ghost predicate Inv(s: State)
  {
    && LocksOk(s) && Distinct(s) && OneWorker(s)
    && (forall t :: Believes(s, t))
    && (forall k :: CellOk(s, k))
    && (forall id: nat :: Owned(s, id))
    && (forall id :: id in s.done ==> id < |s.calls|)
  }

  // ------------------------------------------------ every step keeps it

  lemma OthersStay(s: State, a: Action, u: nat)
    requires u != a.t
    ensures ThreadOf(Next(s, a), u) == ThreadOf(s, u)
  {
  }

  lemma LockedNext(s: State, a: Action, u: nat)
    requires LocksOk(s)
    ensures Locked(Next(s, a), u)
  {
    assert Locked(s, u) && Locked(s, a.t);
  }

  lemma LocksNext(s: State, a: Action)
    requires LocksOk(s)
    ensures LocksOk(Next(s, a))
  {
    var n := Next(s, a);
    forall u ensures Locked(n, u) { LockedNext(s, a, u); }
  }

  /** Cells are never replaced: a key keeps its cell, and only a missing key gains one. */
  lemma CellsStay(s: State, a: Action, key: string)
    requires Inv(s)
    ensures Lookup(s, key).Some? ==> Lookup(Next(s, a), key) == Lookup(s, key)
  {
    assert Believes(s, a.t);
  }

  /** Only the writer that found its key absent inserts, so no other thread's finding of an
      absent key goes stale. */
  lemma AbsentStays(s: State, a: Action, u: nat)
    requires Inv(s) && u != a.t
    requires ThreadOf(s, u).Busy? && ThreadOf(s, u).at.Absent?
    ensures Next(s, a).values == s.values
  {
    assert Locked(s, u) && Locked(s, a.t);
  }

  lemma DoneNext(s: State, a: Action)
    requires Inv(s)
    ensures s.done <= Next(s, a).done && |s.calls| <= |Next(s, a).calls| && s.calls == Next(s, a).calls[..|s.calls|]
    ensures forall id :: id in Next(s, a).done && id !in s.done ==> Works(s, a.t, id) && id < |s.calls|
  {
    assert Believes(s, a.t);
  }

  lemma OtherBelieves(s: State, a: Action, u: nat)
    requires Inv(s) && u != a.t
    ensures Believes(Next(s, a), u)
  {
    assert Believes(s, u);
    OthersStay(s, a, u);
    DoneNext(s, a);
    var th := ThreadOf(s, u);
    if th.Busy? {
      CellsStay(s, a, s.calls[th.id].key);
      assert Works(s, u, th.id);
      if th.at.Absent? { AbsentStays(s, a, u); }
    }
  }

  lemma OwnBelieves(s: State, a: Action)
    requires Inv(s)
    ensures Believes(Next(s, a), a.t)
  {
    assert Believes(s, a.t);
  }

  lemma DistinctNext(s: State, a: Action)
    requires Inv(s)
    ensures Distinct(Next(s, a))
  {
    var n := Next(s, a);
    forall k, l | k in n.values && l in n.values && n.values[k] == n.values[l]
      ensures k == l
    {
      assert CellOk(s, k) && CellOk(s, l);
    }
  }

  lemma OneWorkerNext(s: State, a: Action)
    requires Inv(s)
    ensures OneWorker(Next(s, a))
  {
    var n := Next(s, a);
    forall t, u, id | Works(n, t, id) && Works(n, u, id)
      ensures t == u
    {
      WorkBefore(s, a, t, id);
      WorkBefore(s, a, u, id);
    }
  }

  /** A worker was at it before, or has just begun a new call. */
  lemma WorkBefore(s: State, a: Action, t: nat, id: nat)
    requires Inv(s) && Works(Next(s, a), t, id)
    ensures (Works(s, t, id) && id < |s.calls|) || (t == a.t && id == |s.calls|)
  {
    assert Believes(s, t);
    if t != a.t { OthersStay(s, a, t); }
  }

  lemma WorkAfter(s: State, a: Action, t: nat, id: nat)
    requires Inv(s) && Works(s, t, id)
    ensures id in Next(s, a).done || Works(Next(s, a), t, id)
  {
    assert Believes(s, t);
    if t != a.t { OthersStay(s, a, t); }
  }

  lemma NewWork(s: State, a: Action)
    requires |Next(s, a).calls| > |s.calls|
    ensures |Next(s, a).calls| == |s.calls| + 1 && Works(Next(s, a), a.t, |s.calls|)
  {
  }

  lemma OwnedNext(s: State, a: Action, n: State, id: nat)
    requires Inv(s) && n == Next(s, a)
    ensures Owned(n, id)
  {
    assert Owned(s, id);
    DoneNext(s, a);
    if |n.calls| > |s.calls| { NewWork(s, a); }
    if t :| Works(s, t, id) { WorkAfter(s, a, t, id); }
  }

  // ------------------------------------------------ sums

  lemma {:induction false} SumPrefix(calls: seq<Call>, more: seq<Call>, done: set<nat>, key: string, n: nat)
    requires n <= |calls| <= |more| && calls == more[..|calls|]
    ensures SumDone(calls, done, key, n) == SumDone(more, done, key, n)
  {
    if n > 0 {
      SumPrefix(calls, more, done, key, n - 1);
      assert calls[n - 1] == more[n - 1];
    }
  }

  lemma {:induction false} SumAdd(calls: seq<Call>, done: set<nat>, key: string, n: nat, id: nat)
    requires n <= |calls| && id < |calls| && id !in done
    ensures SumDone(calls, done + {id}, key, n) ==
            SumDone(calls, done, key, n) + (if id < n && calls[id].key == key then calls[id].delta else 0)
  {
    if n > 0 { SumAdd(calls, done, key, n - 1, id); }
  }

  lemma WrapAdd(x: int, d: int)
    ensures Wrap64(Wrap64(x) + d) == Wrap64(x + d)
  {
    var q := (x + 0x8000_0000_0000_0000) / 0x1_0000_0000_0000_0000;
    var p := (x + d + 0x8000_0000_0000_0000) / 0x1_0000_0000_0000_0000;
    assert Wrap64(x) == x - q * 0x1_0000_0000_0000_0000;
    assert Wrap64(x + d) == x + d - p * 0x1_0000_0000_0000_0000;
    assert (Wrap64(x) + d + 0x8000_0000_0000_0000) / 0x1_0000_0000_0000_0000 == p - q;
  }

  lemma CellBegin(s: State, a: Action, key: string)
    requires Inv(s) && a.Begin?
    ensures CellOk(Next(s, a), key)
  {
    var n := Next(s, a);
    assert CellOk(s, key);
    if n != s {
      SumPrefix(s.calls, n.calls, s.done, key, |s.calls|);
      assert |s.calls| !in s.done;
    }
  }

  lemma CellMove(s: State, a: Action, key: string)
    requires Inv(s) && a.Advance?
    ensures CellOk(Next(s, a), key)
  {
    assert CellOk(s, key) && Believes(s, a.t);
    var th := ThreadOf(s, a.t);
    if th.Busy? && th.at.Adding? {
      var own := s.calls[th.id].key;
      assert CellOk(s, own);
      SumAdd(s.calls, s.done, key, |s.calls|, th.id);
      WrapAdd(SumDone(s.calls, s.done, key, |s.calls|), s.calls[th.id].delta);
      if key in s.values && s.values[key] == th.at.cell { assert key == own; }
    }
  }

  lemma InvInit()
    ensures Inv(INIT)
  {
  }

  lemma InvNext(s: State, a: Action)
    requires Inv(s)
    ensures Inv(Next(s, a))
  {
    var n := Next(s, a);
    LocksNext(s, a);
    DistinctNext(s, a);
    OneWorkerNext(s, a);
    DoneNext(s, a);
    forall u ensures Believes(n, u) {
      if u == a.t { OwnBelieves(s, a); } else { OtherBelieves(s, a, u); }
    }
    forall k ensures CellOk(n, k) {
      if a.Begin? { CellBegin(s, a, k); } else { CellMove(s, a, k); }
    }
    forall id: nat ensures Owned(n, id) { OwnedNext(s, a, n, id); }
  }

  lemma {:induction false} InvRun(s: State, actions: seq<Action>)
    requires Inv(s)
    ensures Inv(Run(s, actions))
  {
    if actions != [] {
      InvRun(s, actions[..|actions| - 1]);
      InvNext(Run(s, actions[..|actions| - 1]), actions[|actions| - 1]);
    }
  }

  // ------------------------------------------------ what every interleaving gives

  /** A key's cell is never replaced. */
  lemma {:induction false} CellNeverReplaced(s: State, actions: seq<Action>, key: string)
    requires Inv(s) && key in s.values
    ensures Lookup(Run(s, actions), key) == Lookup(s, key)
  {
    if actions != [] {
      var before := actions[..|actions| - 1];
      CellNeverReplaced(s, before, key);
      InvRun(s, before);
      CellsStay(Run(s, before), actions[|actions| - 1], key);
    }
  }

  /** The deltas of all calls for a key. */
  function SumAll(calls: seq<Call>, key: string): int
  {
    if calls == [] then 0
    else SumAll(calls[..|calls| - 1], key) + (if calls[|calls| - 1].key == key then calls[|calls| - 1].delta else 0)
  }

  lemma {:induction false} AllDone(calls: seq<Call>, done: set<nat>, key: string, n: nat)
    requires n <= |calls| && forall id :: 0 <= id < n ==> id in done
    ensures SumDone(calls, done, key, n) == SumAll(calls[..n], key)
  {
    if n > 0 {
      AllDone(calls, done, key, n - 1);
      assert calls[..n][..n - 1] == calls[..n - 1];
    }
  }

  /** counter.load. */
  function Load(s: State, key: string): int
  {
    if key in s.values && s.values[key] < |s.cells| then s.cells[s.values[key]] else 0
  }

  /** In every reachable state a key reads the sum, in 64 bits, of the adds finished on it;
      the writer's section excludes every other section. */
  lemma EveryInterleaving(actions: seq<Action>, key: string)
    ensures var s := Run(INIT, actions); Load(s, key) == Wrap64(SumDone(s.calls, s.done, key, |s.calls|))
    ensures var s := Run(INIT, actions);
            forall t, u :: HoldsWrite(ThreadOf(s, t)) && (HoldsWrite(ThreadOf(s, u)) || HoldsRead(ThreadOf(s, u))) ==> t == u
  {
    var s := Run(INIT, actions);
    InvInit();
    InvRun(INIT, actions);
    assert CellOk(s, key);
    forall t, u | HoldsWrite(ThreadOf(s, t)) && (HoldsWrite(ThreadOf(s, u)) || HoldsRead(ThreadOf(s, u)))
      ensures t == u
    {
      assert Locked(s, t) && Locked(s, u);
    }
  }

  /** Once no call is in progress, no delta has been lost. */
  lemma NoDeltaLost(actions: seq<Action>, key: string)
    requires forall t :: ThreadOf(Run(INIT, actions), t).Idle?
    ensures Load(Run(INIT, actions), key) == Wrap64(SumAll(Run(INIT, actions).calls, key))
  {
    var s := Run(INIT, actions);
    InvInit();
    InvRun(INIT, actions);
    EveryInterleaving(actions, key);
    forall id | 0 <= id < |s.calls|
      ensures id in s.done
    {
      assert Owned(s, id);
    }
    AllDone(s.calls, s.done, key, |s.calls|);
    assert s.calls[..|s.calls|] == s.calls;
  }

  // ------------------------------------------------ every call can finish

  /** How many steps a call has before it at most. */
  function Left(th: Thread): nat
  {
    match th
    case Idle => 0
    case Busy(_, Start) => 8
    case Busy(_, Reading) => 7
    case Busy(_, Looked(_)) => 6
    case Busy(_, Missed) => 5
    case Busy(_, Checking) => 4
    case Busy(_, Absent) => 3
    case Busy(_, Have(_)) => 2
    case Busy(_, Adding(_)) => 1
  }

  /** The mutex lets this call go on. */
  ghost predicate MayGo(s: State, t: nat)
  {
    match ThreadOf(s, t)
    case Busy(_, Start) => s.writer == None
    case Busy(_, Missed) => s.writer == None && s.readers == {}
    case Busy(_, _) => true
    case Idle => false
  }

  lemma Goes(s: State, t: nat)
    requires Inv(s) && MayGo(s, t)
    ensures Left(ThreadOf(Next(s, Advance(t)), t)) < Left(ThreadOf(s, t)) && Next(s, Advance(t)).calls == s.calls
  {
    assert Believes(s, t);
    var th := ThreadOf(s, t);
    if th.at.Adding? { assert CellOk(s, s.calls[th.id].key); }
  }

  /** No deadlock: while a call is in progress, one of them may go. */
  lemma SomeoneGoes(s: State, t: nat) returns (u: nat)
    requires Inv(s) && ThreadOf(s, t).Busy?
    ensures MayGo(s, u)
  {
    if s.writer.Some? {
      u := s.writer.value;
      assert Locked(s, u);
    } else if s.readers != {} {
      u :| u in s.readers;
      assert Locked(s, u);
    } else {
      u := t;
    }
  }

  function LeftBelow(s: State, n: nat): nat
  {
    if n == 0 then 0 else LeftBelow(s, n - 1) + Left(ThreadOf(s, n - 1))
  }

  lemma {:induction false} LeftFalls(s: State, u: nat, s': State, n: nat)
    requires s' == Next(s, Advance(u)) && Left(ThreadOf(s', u)) < Left(ThreadOf(s, u))
    ensures LeftBelow(s', n) <= LeftBelow(s, n) && (u < n ==> LeftBelow(s', n) < LeftBelow(s, n))
  {
    if n > 0 {
      LeftFalls(s, u, s', n - 1);
      if n - 1 != u { OthersStay(s, Advance(u), n - 1); }
    }
  }

  lemma RunLast(s: State, actions: seq<Action>, a: Action)
    ensures Run(s, actions + [a]) == Next(Run(s, actions), a)
  {
    assert (actions + [a])[..|actions|] == actions;
  }

  lemma {:induction false} RunJoin(s: State, a: seq<Action>, b: seq<Action>)
    ensures Run(s, a + b) == Run(Run(s, a), b)
  {
    if b == [] {
      assert a + b == a;
    } else {
      var n := |b| - 1;
      RunJoin(s, a, b[..n]);
      RunLast(s, a + b[..n], b[n]);
      assert a + b[..n] + [b[n]] == a + b;
    }
  }

  ghost predicate Bounded(s: State, n: nat)
  {
    forall t: nat :: ThreadOf(s, t).Busy? ==> t < n
  }

  ghost predicate OnlyAdvances(actions: seq<Action>)
  {
    forall i :: 0 <= i < |actions| ==> actions[i].Advance?
  }

  ghost predicate AllIdle(s: State)
  {
    forall t :: ThreadOf(s, t).Idle?
  }

  lemma {:induction false} CanFinish(s: State, n: nat) returns (more: seq<Action>)
    requires Inv(s) && Bounded(s, n)
    ensures OnlyAdvances(more) && AllIdle(Run(s, more)) && Run(s, more).calls == s.calls
    decreases LeftBelow(s, n)
  {
    if t: nat :| ThreadOf(s, t).Busy? {
      var u := SomeoneGoes(s, t);
      var s' := Next(s, Advance(u));
      Goes(s, u);
      LeftFalls(s, u, s', n);
      forall v: nat | ThreadOf(s', v).Busy?
        ensures v < n
      {
        if v != u { OthersStay(s, Advance(u), v); }
      }
      InvNext(s, Advance(u));
      var rest := CanFinish(s', n);
      RunLast(s, [], Advance(u));
      assert [] + [Advance(u)] == [Advance(u)];
      RunJoin(s, [Advance(u)], rest);
      more := [Advance(u)] + rest;
    } else {
      more := [];
    }
  }

  lemma {:induction false} BoundFound(threads: set<nat>) returns (n: nat)
    ensures forall t :: t in threads ==> t < n
  {
    if threads == {} {
      n := 0;
    } else {
      var t :| t in threads;
      var m := BoundFound(threads - {t});
      n := if m <= t then t + 1 else m;
      assert forall u :: u in threads ==> u == t || u in threads - {t};
    }
  }

  /** From every reachable state the calls in progress can all be finished, without new ones,
      and then every key reads the 64-bit sum of all the deltas added under it. */
  lemma EveryRunCanFinish(actions: seq<Action>, key: string) returns (more: seq<Action>)
    ensures OnlyAdvances(more)
    ensures var s, end := Run(INIT, actions), Run(Run(INIT, actions), more);
            AllIdle(end) && end.calls == s.calls && Load(end, key) == Wrap64(SumAll(s.calls, key))
  {
    var s := Run(INIT, actions);
    InvInit();
    InvRun(INIT, actions);
    var n := BoundFound(s.threads.Keys);
    more := CanFinish(s, n);
    RunJoin(INIT, actions, more);
    NoDeltaLost(actions + more, key);
  }

  // ------------------------------------------------ a call nobody interrupts

  function Times(f: State -> State, s: State, k: nat): State
  {
    if k == 0 then s else f(Times(f, s, k - 1))
  }

  function Step(t: nat): State -> State
  {
    s => Next(s, Advance(t))
  }

  /** The thread moves k times, nobody else moving. */
  function Steps(s: State, t: nat, k: nat): State
  {
    Times(Step(t), s, k)
  }

  /** The thread is about to make its k-th step, the mutex is free and nothing was added. */
  ghost predicate Before(s: State, n: State, t: nat, id: nat, call: Call, at: Stage)
  {
    && ThreadOf(n, t) == Busy(id, at) && id < |n.calls| && n.calls[id] == call
    && n.done == s.done && n.values == s.values && n.cells == s.cells
  }

  /** The last step: the delta is in the cell. */
  lemma AddStep(n: State, t: nat, id: nat, call: Call, cell: nat)
    requires ThreadOf(n, t) == Busy(id, Adding(cell)) && id < |n.calls| && n.calls[id] == call
    requires Lookup(n, call.key) == Some(cell) && cell < |n.cells|
    ensures var m := Next(n, Advance(t));
            ThreadOf(m, t).Idle? && m.done == n.done + {id} && Load(m, call.key) == Wrap64(Load(n, call.key) + call.delta)
  {
  }

  lemma FirstThree(s: State, t: nat, call: Call)
    requires Inv(s) && ThreadOf(s, t).Idle? && s.writer == None && s.readers == {}
    ensures var n := Steps(Next(s, Begin(t, call)), t, 3); var id := |s.calls|;
            && Before(s, n, t, id, call, if call.key in s.values then Adding(s.values[call.key]) else Missed)
            && n.writer == None && n.readers == {}
  {
    var b := Next(s, Begin(t, call));
    var n1, n2 := Steps(b, t, 1), Steps(b, t, 2);
    assert Steps(b, t, 0) == b;
    assert Before(s, b, t, |s.calls|, call, Start) && b.writer == None && b.readers == {};
    assert Before(s, n1, t, |s.calls|, call, Reading) && n1.readers == {t} && n1.writer == None;
    assert Before(s, n2, t, |s.calls|, call, Looked(Lookup(s, call.key))) && n2.readers == {t} && n2.writer == None;
    assert {t} - {t} == {};
  }

  lemma NextFour(n: State, t: nat, id: nat, call: Call)
    requires ThreadOf(n, t) == Busy(id, Missed) && id < |n.calls| && n.calls[id] == call
    requires n.writer == None && n.readers == {} && call.key !in n.values
    ensures var m := Steps(n, t, 4);
            && ThreadOf(m, t) == Busy(id, Adding(|n.cells|)) && m.calls == n.calls && m.done == n.done
            && Lookup(m, call.key) == Some(|n.cells|) && m.cells == n.cells + [0]
  {
    assert Steps(n, t, 0) == n;
    var n1 := Steps(n, t, 1);
    assert n1 == Goto(n, t, id, Checking).(writer := Some(t));
    var n2 := Steps(n, t, 2);
    assert n2 == Goto(n1, t, id, Absent);
    var n3 := Steps(n, t, 3);
    assert n3 == Goto(n2, t, id, Have(|n.cells|)).(values := n.values[call.key := |n.cells|], cells := n.cells + [0]);
  }

  /** The call is through and its delta is added. */
  ghost predicate Through(s: State, n: State, t: nat, id: nat, call: Call)
  {
    ThreadOf(n, t).Idle? && n.done == s.done + {id} && Load(n, call.key) == Wrap64(Load(s, call.key) + call.delta)
  }

  lemma WithCell(s: State, n: State, t: nat, id: nat, call: Call, m: State)
    requires call.key in s.values && CellOk(s, call.key) && Before(s, n, t, id, call, Adding(s.values[call.key]))
    requires m == Next(n, Advance(t))
    ensures Through(s, m, t, id, call)
  {
    AddStep(n, t, id, call, s.values[call.key]);
  }

  lemma WithoutCell(s: State, n: State, t: nat, id: nat, call: Call, m: State)
    requires call.key !in s.values && Before(s, n, t, id, call, Missed) && n.writer == None && n.readers == {}
    requires m == Next(Steps(n, t, 4), Advance(t))
    ensures Through(s, m, t, id, call)
  {
    NextFour(n, t, id, call);
    AddStep(Steps(n, t, 4), t, id, call, |n.cells|);
  }

  lemma LastStep(s: State, t: nat, k: nat)
    ensures Steps(s, t, k + 1) == Next(Steps(s, t, k), Advance(t))
  {
  }

  /** A call run alone on a free mutex is through after four steps when its key has a cell,
      and after eight when it makes one; its delta has been added either way. */
  lemma CallAlone(s: State, t: nat, call: Call)
    requires Inv(s) && ThreadOf(s, t).Idle? && s.writer == None && s.readers == {}
    ensures Through(s, Steps(Next(s, Begin(t, call)), t, if call.key in s.values then 4 else 8), t, |s.calls|, call)
  {
    var b := Next(s, Begin(t, call));
    FirstThree(s, t, call);
    assert CellOk(s, call.key);
    if call.key in s.values {
      LastStep(b, t, 3);
      WithCell(s, Steps(b, t, 3), t, |s.calls|, call, Steps(b, t, 4));
    } else {
      TimesJoin(Step(t), b, 3, 4);
      LastStep(b, t, 7);
      WithoutCell(s, Steps(b, t, 3), t, |s.calls|, call, Steps(b, t, 8));
    }
  }

  lemma {:induction false} TimesJoin(f: State -> State, s: State, j: nat, k: nat)
    ensures Times(f, Times(f, s, j), k) == Times(f, s, j + k)
  {
    if k > 0 { TimesJoin(f, s, j, k - 1); }
  }
}
