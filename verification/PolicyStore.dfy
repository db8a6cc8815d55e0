/** Policy headers and their append-only versions (policy-service store.go), as interleaved
    transactions.

Uncommitted inserts and updates stay with their transaction until it commits. Taken from the
database: SELECT ... FOR UPDATE and UPDATE wait for a row that another transaction has
locked, and an insert waits for an uncommitted insert of the same unique key. Fresh UUIDs
are numbers from a counter. */
module PolicyStore {
  import opened Json

  datatype Header = Header(tenant: string, name: string, current: nat, deleted: bool)

  datatype Body = Body(document: string, createdBy: string, comment: string)

  datatype Version = Version(policy: nat, tenant: string, version: nat, body: Body)

  datatype Result =
    | Created(policy: nat)
    | Conflict
    | Appended(version: Version)
    | NotFound
    | Failed
    | Got(policy: nat, header: Header, found: Option<Version>)

  /** Where a call stands. */
  datatype Tx =
    | CreateStart(tenant: string, name: string, body: Body)
    | HeaderInserted(id: nat, tenant: string, name: string, body: Body)
    | FirstInserted(id: nat, tenant: string, name: string, body: Body)
    | AppendStart(tenant: string, policy: nat, body: Body)
    | Locked(tenant: string, policy: nat, body: Body, current: nat)
    | VersionInserted(tenant: string, policy: nat, body: Body, next: nat)
    | HeaderUpdated(tenant: string, policy: nat, body: Body, next: nat)
    | GetStart(tenant: string, policy: nat)
    | HeaderRead(tenant: string, policy: nat, header: Header)
    | Finished(result: Result)

  /** Committed rows, row locks by holder, and the calls in progress. */
  datatype State = State(
    policies: map<nat, Header>,
    versions: seq<Version>,
    locks: map<nat, nat>,
    txs: map<nat, Tx>,
    nextId: nat)

  const INIT: State := State(map[], [], map[], map[], 0)

  datatype Action = Begin(t: nat, tx: Tx) | Step(t: nat) | Abort(t: nat) | SoftDelete(t: nat, tenant: string, policy: nat)

  function Goto(s: State, t: nat, tx: Tx): State
  {
    s.(txs := s.txs[t := tx])
  }

  /** The row of a policy as every statement selects it: right tenant, not deleted. */
  function Live(s: State, tenant: string, policy: nat): Option<Header>
  {
    if policy in s.policies && s.policies[policy].tenant == tenant && !s.policies[policy].deleted
    then Some(s.policies[policy]) else None
  }

  predicate Creating(tx: Tx)
  {
    tx.HeaderInserted? || tx.FirstInserted?
  }

  predicate Holding(tx: Tx)
  {
    tx.Locked? || tx.VersionInserted? || tx.HeaderUpdated?
  }

  ghost predicate NamePending(s: State, tenant: string, name: string)
  {
    exists u :: u in s.txs && Creating(s.txs[u]) && s.txs[u].tenant == tenant && s.txs[u].name == name
  }

  /** Deleted rows keep their names. */
  ghost predicate NameTaken(s: State, tenant: string, name: string)
  {
    exists p :: p in s.policies && s.policies[p].tenant == tenant && s.policies[p].name == name
  }

  function FindVersion(versions: seq<Version>, tenant: string, policy: nat, version: nat): Option<Version>
  {
    if versions == [] then None
    else
      var v := versions[|versions| - 1];
      if v.policy == policy && v.tenant == tenant && v.version == version then Some(v)
      else FindVersion(versions[..|versions| - 1], tenant, policy, version)
  }

  ghost function Next(s: State, a: Action): State
  {
    match a
    case Begin(t, tx) =>
      if (t in s.txs && !s.txs[t].Finished?) || !(tx.CreateStart? || tx.AppendStart? || tx.GetStart?) then s else Goto(s, t, tx)
    case Step(t) => if t in s.txs then Move(s, t, s.txs[t]) else s
    case Abort(t) =>
      if t !in s.txs || s.txs[t].Finished? then s
      else if Holding(s.txs[t]) then Goto(s, t, Finished(Failed)).(locks := s.locks - {s.txs[t].policy})
      else Goto(s, t, Finished(Failed))
    case SoftDelete(t, tenant, policy) =>
      if Live(s, tenant, policy).None? || policy in s.locks then s
      else s.(policies := s.policies[policy := s.policies[policy].(deleted := true)])
  }

  ghost function Move(s: State, t: nat, tx: Tx): State
  {
    match tx
    case CreateStart(tenant, name, body) =>
      if NamePending(s, tenant, name) then s
      else if NameTaken(s, tenant, name) then Goto(s, t, Finished(Conflict))
      else Goto(s, t, HeaderInserted(s.nextId, tenant, name, body)).(nextId := s.nextId + 1)
    case HeaderInserted(id, tenant, name, body) => Goto(s, t, FirstInserted(id, tenant, name, body))
    case FirstInserted(id, tenant, name, body) =>
      Goto(s, t, Finished(Created(id))).(
        policies := s.policies[id := Header(tenant, name, 1, false)],
        versions := s.versions + [Version(id, tenant, 1, body)])
    case AppendStart(tenant, policy, body) =>
      if Live(s, tenant, policy).None? then Goto(s, t, Finished(NotFound))
      else if policy in s.locks then s
      else Goto(s, t, Locked(tenant, policy, body, s.policies[policy].current)).(locks := s.locks[policy := t])
    case Locked(tenant, policy, body, current) => Goto(s, t, VersionInserted(tenant, policy, body, current + 1))
    case VersionInserted(tenant, policy, body, next) => Goto(s, t, HeaderUpdated(tenant, policy, body, next))
    case HeaderUpdated(tenant, policy, body, next) =>
      if policy !in s.policies then s
      else
        Goto(s, t, Finished(Appended(Version(policy, tenant, next, body)))).(
          policies := s.policies[policy := s.policies[policy].(current := next)],
          versions := s.versions + [Version(policy, tenant, next, body)],
          locks := s.locks - {policy})
    case GetStart(tenant, policy) =>
      if Live(s, tenant, policy).None? then Goto(s, t, Finished(NotFound))
      else Goto(s, t, HeaderRead(tenant, policy, s.policies[policy]))
    case HeaderRead(tenant, policy, header) =>
      Goto(s, t, Finished(Got(policy, header, FindVersion(s.versions, tenant, policy, header.current))))
    case Finished(_) => s
  }

  ghost function Run(s: State, actions: seq<Action>): State
  {
    if actions == [] then s else Next(Run(s, actions[..|actions| - 1]), actions[|actions| - 1])
  }

  // ------------------------------------------------ invariant

  /** The version rows of a policy, in commit order. */
  function RowsOf(versions: seq<Version>, policy: nat): seq<Version>
  {
    if versions == [] then []
    else
      var v := versions[|versions| - 1];
      RowsOf(versions[..|versions| - 1], policy) + (if v.policy == policy then [v] else [])
  }

  /** The rows are numbered 1, 2, ..., n without gap or repeat. */
  ghost predicate NumberedAt(rows: seq<Version>, tenant: string, policy: nat, i: int)
  {
    0 <= i < |rows| ==> rows[i].version == i + 1 && rows[i].tenant == tenant && rows[i].policy == policy
  }

  ghost predicate Numbered(rows: seq<Version>, tenant: string, policy: nat)
  {
    forall i :: NumberedAt(rows, tenant, policy, i)
  }

  ghost predicate PolicyOk(s: State, p: nat)
  {
    var rows := RowsOf(s.versions, p);
    if p in s.policies then
      p < s.nextId && |rows| == s.policies[p].current >= 1 && Numbered(rows, s.policies[p].tenant, p)
    else rows == []
  }

  ghost predicate TxOk(s: State, t: nat)
  {
    t in s.txs ==>
      match s.txs[t]
      case HeaderInserted(id, tenant, name, _) => id < s.nextId && id !in s.policies && !NameTaken(s, tenant, name)
      case FirstInserted(id, tenant, name, _) => id < s.nextId && id !in s.policies && !NameTaken(s, tenant, name)
      case Locked(tenant, policy, _, current) => Owns(s, t, tenant, policy) && current == s.policies[policy].current
      case VersionInserted(tenant, policy, _, next) => Owns(s, t, tenant, policy) && next == s.policies[policy].current + 1
      case HeaderUpdated(tenant, policy, _, next) => Owns(s, t, tenant, policy) && next == s.policies[policy].current + 1
      case HeaderRead(tenant, policy, header) =>
        && policy in s.policies && tenant == header.tenant == s.policies[policy].tenant
        && header.name == s.policies[policy].name && 1 <= header.current <= s.policies[policy].current
      case Finished(Got(policy, header, found)) => found.Some? && Matches(policy, header, found.value)
      case _ => true
  }

  ghost predicate Owns(s: State, t: nat, tenant: string, policy: nat)
  {
    policy in s.locks && s.locks[policy] == t && Live(s, tenant, policy).Some?
  }

  /** The version is the one the header points to. */
  ghost predicate Matches(policy: nat, header: Header, version: Version)
  {
    version.policy == policy && version.tenant == header.tenant && version.version == header.current
  }

  ghost predicate LockOk(s: State, p: nat)
  {
    p in s.locks ==> s.locks[p] in s.txs && Holding(s.txs[s.locks[p]]) && s.txs[s.locks[p]].policy == p
  }

  /** Two creations in progress differ in id and in name. */
  ghost predicate Apart(s: State, t: nat, u: nat)
  {
    t != u && t in s.txs && u in s.txs && Creating(s.txs[t]) && Creating(s.txs[u]) ==>
      s.txs[t].id != s.txs[u].id && !(s.txs[t].tenant == s.txs[u].tenant && s.txs[t].name == s.txs[u].name)
  }

  ghost predicate NamesApart(s: State, p: nat, q: nat)
  {
    p != q && p in s.policies && q in s.policies ==>
      !(s.policies[p].tenant == s.policies[q].tenant && s.policies[p].name == s.policies[q].name)
  }

  ghost predicate Inv(s: State)
  {
    && (forall p: nat :: PolicyOk(s, p))
    && (forall t: nat :: TxOk(s, t))
    && (forall p: nat :: LockOk(s, p))
    && (forall t: nat, u: nat :: Apart(s, t, u))
    && (forall p: nat, q: nat :: NamesApart(s, p, q))
  }

  lemma InvInit()
    ensures Inv(INIT)
  {
  }

  // ------------------------------------------------ every step keeps it

  lemma RowsOne(versions: seq<Version>, v: Version, p: nat)
    ensures RowsOf(versions + [v], p) == if v.policy == p then RowsOf(versions, p) + [v] else RowsOf(versions, p)
  {
    assert (versions + [v])[..|versions|] == versions;
    assert RowsOf(versions, p) + [] == RowsOf(versions, p);
  }

  lemma NumberedOne(rows: seq<Version>, v: Version, tenant: string, p: nat)
    requires Numbered(rows, tenant, p) && v.policy == p && v.tenant == tenant && v.version == |rows| + 1
    ensures Numbered(rows + [v], tenant, p)
  {
    var more := rows + [v];
    forall i ensures NumberedAt(more, tenant, p, i) { assert NumberedAt(rows, tenant, p, i); }
  }

  lemma PolicyGrows(s: State, n: State, v: Version, p: nat)
    requires PolicyOk(s, p) && n.versions == s.versions + [v] && n.nextId >= s.nextId
    requires v.policy == p ==> p in n.policies && p < n.nextId && n.policies[p].current == v.version == |RowsOf(s.versions, p)| + 1
    requires v.policy == p ==> n.policies[p].tenant == v.tenant && (p in s.policies ==> s.policies[p].tenant == v.tenant)
    requires v.policy != p ==> (p in n.policies <==> p in s.policies) && (p in s.policies ==> n.policies[p] == s.policies[p])
    ensures PolicyOk(n, p)
  {
    RowsOne(s.versions, v, p);
    if v.policy == p { NumberedOne(RowsOf(s.versions, p), v, v.tenant, p); }
  }

  lemma PolicyMove(s: State, t: nat, p: nat)
    requires Inv(s) && t in s.txs
    ensures PolicyOk(Move(s, t, s.txs[t]), p)
  {
    assert PolicyOk(s, p) && TxOk(s, t);
    var tx := s.txs[t];
    if tx.FirstInserted? {
      PolicyGrows(s, Move(s, t, tx), Version(tx.id, tx.tenant, 1, tx.body), p);
    } else if tx.HeaderUpdated? {
      PolicyGrows(s, Move(s, t, tx), Version(tx.policy, tx.tenant, tx.next, tx.body), p);
    }
  }

  lemma PolicyNext(s: State, a: Action, p: nat)
    requires Inv(s)
    ensures PolicyOk(Next(s, a), p)
  {
    assert PolicyOk(s, p);
    if a.Step? && a.t in s.txs { PolicyMove(s, a.t, p); }
  }

  /** What a transaction may rely on of other transactions' steps: a policy keeps its tenant
      and name, its counter never falls, and a locked policy is left alone. */
  lemma PoliciesNext(s: State, a: Action, p: nat)
    requires Inv(s) && p in s.policies
    ensures var n := Next(s, a);
            && p in n.policies && n.policies[p].tenant == s.policies[p].tenant && n.policies[p].name == s.policies[p].name
            && n.policies[p].current >= s.policies[p].current
            && (p in s.locks && s.locks[p] != a.t ==> n.policies[p] == s.policies[p] && p in n.locks && n.locks[p] == s.locks[p])
  {
    if a.t in s.txs { assert TxOk(s, a.t); }
  }

  lemma MoveStays(s: State, t: nat, tx: Tx, u: nat)
    requires u != t
    ensures u in Move(s, t, tx).txs <==> u in s.txs
    ensures u in s.txs ==> Move(s, t, tx).txs[u] == s.txs[u]
  {
  }

  lemma OtherStays(s: State, a: Action, u: nat)
    requires u != a.t
    ensures u in Next(s, a).txs <==> u in s.txs
    ensures u in s.txs ==> Next(s, a).txs[u] == s.txs[u]
  {
    if a.Step? && a.t in s.txs { MoveStays(s, a.t, s.txs[a.t], u); }
  }

  /** A name becomes taken only by the creation that holds it. */
  lemma TakenNext(s: State, a: Action, u: nat)
    requires Inv(s) && u in s.txs && Creating(s.txs[u]) && u != a.t
    ensures s.txs[u].id !in Next(s, a).policies && !NameTaken(Next(s, a), s.txs[u].tenant, s.txs[u].name)
  {
    assert TxOk(s, u) && Apart(s, u, a.t);
    if a.t in s.txs { assert TxOk(s, a.t); }
    var n := Next(s, a);
    forall p | p in n.policies
      ensures !(n.policies[p].tenant == s.txs[u].tenant && n.policies[p].name == s.txs[u].name)
    {
      if p in s.policies { PoliciesNext(s, a, p); }
    }
  }

  /** The rows of a policy are found by number. */
  lemma {:induction false} RowFound(versions: seq<Version>, tenant: string, policy: nat, version: nat, i: nat)
    requires i < |RowsOf(versions, policy)|
    requires RowsOf(versions, policy)[i].tenant == tenant && RowsOf(versions, policy)[i].version == version
    ensures var found := FindVersion(versions, tenant, policy, version);
            found.Some? && found.value.policy == policy && found.value.tenant == tenant && found.value.version == version
  {
    var n := |versions| - 1;
    if i < |RowsOf(versions[..n], policy)| { RowFound(versions[..n], tenant, policy, version, i); }
  }

  /** Any header read so far still has its version row. */
  lemma HeaderHasRow(s: State, tenant: string, policy: nat, version: nat)
    requires Inv(s) && policy in s.policies && s.policies[policy].tenant == tenant && 1 <= version <= s.policies[policy].current
    ensures var found := FindVersion(s.versions, tenant, policy, version);
            found.Some? && found.value.policy == policy && found.value.tenant == tenant && found.value.version == version
  {
    assert PolicyOk(s, policy);
    assert NumberedAt(RowsOf(s.versions, policy), tenant, policy, version - 1);
    RowFound(s.versions, tenant, policy, version, version - 1);
  }

  lemma OtherTxNext(s: State, a: Action, u: nat)
    requires Inv(s) && u != a.t && u in s.txs
    ensures TxOk(Next(s, a), u)
  {
    assert TxOk(s, u);
    OtherStays(s, a, u);
    var tx := s.txs[u];
    if Creating(tx) {
      TakenNext(s, a, u);
      IdsGrow(s, a);
    } else if Holding(tx) || tx.HeaderRead? {
      PoliciesNext(s, a, tx.policy);
    }
  }

  lemma IdsGrow(s: State, a: Action)
    ensures Next(s, a).nextId >= s.nextId
  {
  }

  lemma OwnTxMove(s: State, t: nat)
    requires Inv(s) && t in s.txs
    ensures TxOk(Move(s, t, s.txs[t]), t)
  {
    assert TxOk(s, t);
    var tx := s.txs[t];
    match tx
    case CreateStart(tenant, name, _) => assert PolicyOk(s, s.nextId);
    case GetStart(tenant, policy) => if policy in s.policies { assert PolicyOk(s, policy); }
    case HeaderRead(tenant, policy, header) => HeaderHasRow(s, tenant, policy, header.current);
    case _ =>
  }

  lemma OwnTxNext(s: State, a: Action)
    requires Inv(s)
    ensures TxOk(Next(s, a), a.t)
  {
    assert TxOk(s, a.t);
    match a
    case Step(t) => if t in s.txs { OwnTxMove(s, t); }
    case SoftDelete(t, tenant, policy) => DeleteKeeps(s, a);
    case _ =>
  }

  lemma DeleteKeeps(s: State, a: Action)
    requires Inv(s) && a.SoftDelete?
    ensures TxOk(Next(s, a), a.t)
  {
    assert TxOk(s, a.t);
    if a.t in s.txs {
      var tx := s.txs[a.t];
      if Creating(tx) { NamesStay(s, a, tx.tenant, tx.name); }
    }
  }

  lemma NamesStay(s: State, a: Action, tenant: string, name: string)
    requires a.SoftDelete? && !NameTaken(s, tenant, name)
    ensures !NameTaken(Next(s, a), tenant, name)
  {
  }

  lemma LockMove(s: State, t: nat, p: nat)
    requires Inv(s) && t in s.txs
    ensures LockOk(Move(s, t, s.txs[t]), p)
  {
    assert LockOk(s, p) && TxOk(s, t);
  }

  lemma LockNext(s: State, a: Action, p: nat)
    requires Inv(s)
    ensures LockOk(Next(s, a), p)
  {
    assert LockOk(s, p);
    if a.t in s.txs {
      assert TxOk(s, a.t);
      if a.Step? { LockMove(s, a.t, p); }
    }
  }

  /** What a creation in progress was one step earlier. */
  ghost predicate WasCreating(s: State, t: nat, tx: Tx)
    requires Creating(tx)
  {
    t in s.txs && Creating(s.txs[t]) && s.txs[t].id == tx.id && s.txs[t].tenant == tx.tenant && s.txs[t].name == tx.name
  }

  lemma CreatingBefore(s: State, a: Action, t: nat)
    requires t in Next(s, a).txs && Creating(Next(s, a).txs[t])
    ensures var tx := Next(s, a).txs[t];
            WasCreating(s, t, tx) || (t == a.t && tx.id == s.nextId && !NamePending(s, tx.tenant, tx.name))
  {
    if t != a.t { OtherStays(s, a, t); }
  }

  lemma ApartNext(s: State, a: Action, n: State, t: nat, u: nat)
    requires Inv(s) && n == Next(s, a)
    ensures Apart(n, t, u)
  {
    assert Apart(s, t, u) && TxOk(s, t) && TxOk(s, u);
    if t != u && t in n.txs && u in n.txs && Creating(n.txs[t]) && Creating(n.txs[u]) {
      CreatingBefore(s, a, t);
      CreatingBefore(s, a, u);
    }
  }

  lemma NamesApartNext(s: State, a: Action, p: nat, q: nat)
    requires Inv(s)
    ensures NamesApart(Next(s, a), p, q)
  {
    assert NamesApart(s, p, q) && TxOk(s, a.t);
  }

  lemma InvNext(s: State, a: Action)
    requires Inv(s)
    ensures Inv(Next(s, a))
  {
    var n := Next(s, a);
    forall p: nat ensures PolicyOk(n, p) && LockOk(n, p) { PolicyNext(s, a, p); LockNext(s, a, p); }
    forall u: nat ensures TxOk(n, u) { TxNext(s, a, u); }
    forall t: nat, u: nat ensures Apart(n, t, u) { ApartNext(s, a, n, t, u); }
    forall p: nat, q: nat ensures NamesApart(n, p, q) { NamesApartNext(s, a, p, q); }
  }

  lemma TxNext(s: State, a: Action, u: nat)
    requires Inv(s)
    ensures TxOk(Next(s, a), u)
  {
    if u == a.t { OwnTxNext(s, a); }
    else if u in s.txs { OtherTxNext(s, a, u); }
    else { OtherStays(s, a, u); }
  }

  lemma {:induction false} InvRun(s: State, actions: seq<Action>)
    requires Inv(s)
    ensures Inv(Run(s, actions))
  {
    if actions != [] {
      InvRun(s, actions[..|actions| - 1]);
      InvNext(Run(s, actions[..|actions| - 1]), actions[|actions| - 1]);
    }
  }

  // ------------------------------------------------ what every interleaving gives

  lemma VersionsGrow(s: State, a: Action)
    ensures s.versions <= Next(s, a).versions
  {
  }

  /** A committed version row never changes and never disappears. */
  lemma {:induction false} VersionsImmutable(s: State, actions: seq<Action>)
    ensures s.versions <= Run(s, actions).versions
  {
    if actions != [] {
      VersionsImmutable(s, actions[..|actions| - 1]);
      VersionsGrow(Run(s, actions[..|actions| - 1]), actions[|actions| - 1]);
    }
  }

  /** In every reachable state a policy's versions are exactly 1 to current_version, each
      once, and no two policies of a tenant share a name. */
  lemma VersionsExact(actions: seq<Action>, p: nat)
    ensures var s := Run(INIT, actions); var rows := RowsOf(s.versions, p);
            if p in s.policies then
              |rows| == s.policies[p].current >= 1
              && forall i :: 0 <= i < |rows| ==> rows[i].version == i + 1 && rows[i].tenant == s.policies[p].tenant
            else rows == []
    ensures var s := Run(INIT, actions); forall q: nat :: NamesApart(s, p, q)
  {
    InvInit();
    InvRun(INIT, actions);
    var s := Run(INIT, actions);
    assert PolicyOk(s, p);
    forall i | p in s.policies && 0 <= i < |RowsOf(s.versions, p)|
      ensures var r := RowsOf(s.versions, p)[i]; r.version == i + 1 && r.tenant == s.policies[p].tenant
    {
      assert NumberedAt(RowsOf(s.versions, p), s.policies[p].tenant, p, i);
    }
  }

  lemma DeletedStep(s: State, a: Action, p: nat)
    requires Inv(s) && p in s.policies && s.policies[p].deleted
    ensures p in Next(s, a).policies && Next(s, a).policies[p] == s.policies[p]
    ensures RowsOf(Next(s, a).versions, p) == RowsOf(s.versions, p)
  {
    if a.Step? && a.t in s.txs {
      assert TxOk(s, a.t);
      var tx := s.txs[a.t];
      if tx.FirstInserted? {
        RowsOne(s.versions, Version(tx.id, tx.tenant, 1, tx.body), p);
      } else if tx.HeaderUpdated? {
        RowsOne(s.versions, Version(tx.policy, tx.tenant, tx.next, tx.body), p);
      }
    }
  }

  /** A deleted policy stays as it was and gains no version, whatever was in progress when it
      was deleted. */
  lemma {:induction false} DeletedGainsNone(s: State, actions: seq<Action>, p: nat)
    requires Inv(s) && p in s.policies && s.policies[p].deleted
    ensures p in Run(s, actions).policies && Run(s, actions).policies[p] == s.policies[p]
    ensures RowsOf(Run(s, actions).versions, p) == RowsOf(s.versions, p)
  {
    if actions != [] {
      var before := actions[..|actions| - 1];
      InvRun(s, before);
      DeletedGainsNone(s, before, p);
      DeletedStep(Run(s, before), actions[|actions| - 1], p);
    }
  }

  /** GetCurrent always returns a header and its own version, although it reads them
      separately. */
  lemma CurrentPairMatches(actions: seq<Action>, t: nat)
    ensures var s := Run(INIT, actions);
            t in s.txs && s.txs[t].Finished? && s.txs[t].result.Got? ==>
              s.txs[t].result.found.Some? && Matches(s.txs[t].result.policy, s.txs[t].result.header, s.txs[t].result.found.value)
  {
    InvInit();
    InvRun(INIT, actions);
    assert TxOk(Run(INIT, actions), t);
  }

  // ------------------------------------------------ a call nobody interrupts

  /** The transaction slot holds no call in progress. */
  ghost predicate Idle(s: State, t: nat)
  {
    t in s.txs ==> s.txs[t].Finished?
  }

  /** A call begun now and stepped k times, nobody else moving. */
  ghost function Alone(s: State, t: nat, tx: Tx, k: nat): State
  {
    if k == 0 then Next(s, Begin(t, tx)) else Next(Alone(s, t, tx, k - 1), Step(t))
  }

  /** The call ended with this result, and the other calls stand where they stood. */
  ghost predicate Ended(s: State, n: State, t: nat, result: Result)
  {
    n.txs == s.txs[t := Finished(result)]
  }

  ghost predicate SameRows(s: State, n: State)
  {
    n.policies == s.policies && n.versions == s.versions && n.locks == s.locks
  }

  /** A create under a new name adds a live header at version 1 and that version, under an id
      no policy has. */
  lemma CreateAlone(s: State, t: nat, tenant: string, name: string, body: Body)
    requires Inv(s) && Idle(s, t) && !NameTaken(s, tenant, name) && !NamePending(s, tenant, name)
    ensures var n := Alone(s, t, CreateStart(tenant, name, body), 3);
            && Ended(s, n, t, Created(s.nextId)) && n.locks == s.locks
            && s.nextId !in s.policies && n.policies == s.policies[s.nextId := Header(tenant, name, 1, false)]
            && n.versions == s.versions + [Version(s.nextId, tenant, 1, body)]
  {
    assert PolicyOk(s, s.nextId);
    var start := CreateStart(tenant, name, body);
    var b := Alone(s, t, start, 0);
    assert b.txs == s.txs[t := start] && SameRows(s, b) && b.nextId == s.nextId;
    NotPending(s, t, start, b, tenant, name);
    var c := Alone(s, t, start, 1);
    assert c.txs == s.txs[t := HeaderInserted(s.nextId, tenant, name, body)] && SameRows(s, c);
    var d := Alone(s, t, start, 2);
    assert d.txs == s.txs[t := FirstInserted(s.nextId, tenant, name, body)] && SameRows(s, d);
  }

  lemma NotPending(s: State, t: nat, start: Tx, b: State, tenant: string, name: string)
    requires Idle(s, t) && start.CreateStart? && b.txs == s.txs[t := start] && !NamePending(s, tenant, name)
    ensures !NamePending(b, tenant, name)
  {
  }

  /** A create under a name the tenant has used, deleted or not, ends in a conflict. */
  lemma CreateConflicts(s: State, t: nat, tenant: string, name: string, body: Body)
    requires Inv(s) && Idle(s, t) && NameTaken(s, tenant, name)
    ensures var n := Alone(s, t, CreateStart(tenant, name, body), 1);
            Ended(s, n, t, Conflict) && SameRows(s, n)
  {
    var start := CreateStart(tenant, name, body);
    var b := Alone(s, t, start, 0);
    assert b.txs == s.txs[t := start] && SameRows(s, b);
    TakenNotPending(s, tenant, name);
    NotPending(s, t, start, b, tenant, name);
  }

  lemma TakenNotPending(s: State, tenant: string, name: string)
    requires Inv(s) && NameTaken(s, tenant, name)
    ensures !NamePending(s, tenant, name)
  {
    forall u | u in s.txs && Creating(s.txs[u])
      ensures !(s.txs[u].tenant == tenant && s.txs[u].name == name)
    {
      assert TxOk(s, u);
    }
  }

  lemma AppendLocks(s: State, t: nat, tenant: string, policy: nat, body: Body, start: Tx)
    requires Idle(s, t) && Live(s, tenant, policy).Some? && policy !in s.locks && start == AppendStart(tenant, policy, body)
    ensures Alone(s, t, start, 1) ==
            Goto(s, t, Locked(tenant, policy, body, s.policies[policy].current)).(locks := s.locks[policy := t])
  {
    var b := Alone(s, t, start, 0);
    assert b == Goto(s, t, start);
    var end := Locked(tenant, policy, body, s.policies[policy].current);
    assert s.txs[t := start][t := end] == s.txs[t := end];
  }

  lemma AppendWrites(s: State, t: nat, tenant: string, policy: nat, body: Body, start: Tx)
    requires Idle(s, t) && Live(s, tenant, policy).Some? && policy !in s.locks && start == AppendStart(tenant, policy, body)
    ensures Alone(s, t, start, 3) ==
            Goto(s, t, HeaderUpdated(tenant, policy, body, s.policies[policy].current + 1)).(locks := s.locks[policy := t])
  {
    AppendLocks(s, t, tenant, policy, body, start);
    var c, d, e := Alone(s, t, start, 1), Alone(s, t, start, 2), Alone(s, t, start, 3);
    var inserted := VersionInserted(tenant, policy, body, s.policies[policy].current + 1);
    var updated := HeaderUpdated(tenant, policy, body, s.policies[policy].current + 1);
    assert d == Goto(c, t, inserted) && e == Goto(d, t, updated);
    assert c.txs[t := inserted][t := updated] == s.txs[t := updated];
  }

  /** An append to a live policy nobody has locked adds the next version, moves the header to
      it and nothing else, and releases the lock. */
  lemma AppendAlone(s: State, t: nat, tenant: string, policy: nat, body: Body)
    requires Idle(s, t) && Live(s, tenant, policy).Some? && policy !in s.locks
    ensures var n := Alone(s, t, AppendStart(tenant, policy, body), 4); var next := s.policies[policy].current + 1;
            && Ended(s, n, t, Appended(Version(policy, tenant, next, body))) && n.locks == s.locks
            && n.policies == s.policies[policy := s.policies[policy].(current := next)]
            && n.versions == s.versions + [Version(policy, tenant, next, body)]
  {
    AppendWrites(s, t, tenant, policy, body, AppendStart(tenant, policy, body));
    assert s.locks[policy := t] - {policy} == s.locks;
  }

  /** A get of a live policy returns its header and the committed version the header names. */
  lemma GetAlone(s: State, t: nat, tenant: string, policy: nat)
    requires Inv(s) && Idle(s, t) && Live(s, tenant, policy).Some?
    ensures var n := Alone(s, t, GetStart(tenant, policy), 2);
            && SameRows(s, n)
            && exists v :: v in s.versions && Matches(policy, s.policies[policy], v)
                           && Ended(s, n, t, Got(policy, s.policies[policy], Some(v)))
  {
    assert PolicyOk(s, policy);
    var header := s.policies[policy];
    var b := Alone(s, t, GetStart(tenant, policy), 0);
    assert b.txs == s.txs[t := GetStart(tenant, policy)] && SameRows(s, b);
    var c := Alone(s, t, GetStart(tenant, policy), 1);
    assert c.txs == s.txs[t := HeaderRead(tenant, policy, header)] && SameRows(s, c);
    HeaderHasRow(s, tenant, policy, header.current);
    FoundIsRow(s.versions, tenant, policy, header.current);
    var n := Alone(s, t, GetStart(tenant, policy), 2);
    var v := FindVersion(s.versions, tenant, policy, header.current).value;
    assert Ended(s, n, t, Got(policy, header, Some(v)));
  }

  lemma {:induction false} FoundIsRow(versions: seq<Version>, tenant: string, policy: nat, version: nat)
    ensures var found := FindVersion(versions, tenant, policy, version); found.Some? ==> found.value in versions
  {
    if versions != [] { FoundIsRow(versions[..|versions| - 1], tenant, policy, version); }
  }

  /** An append to or a get of a policy that is deleted, of another tenant or unknown finds
      nothing and changes nothing. */
  lemma NotLive(s: State, t: nat, tenant: string, policy: nat, body: Body)
    requires Idle(s, t) && Live(s, tenant, policy).None?
    ensures var n := Alone(s, t, AppendStart(tenant, policy, body), 1); Ended(s, n, t, NotFound) && SameRows(s, n)
    ensures var n := Alone(s, t, GetStart(tenant, policy), 1); Ended(s, n, t, NotFound) && SameRows(s, n)
  {
    var b := Alone(s, t, AppendStart(tenant, policy, body), 0);
    assert b.txs == s.txs[t := AppendStart(tenant, policy, body)] && SameRows(s, b);
    var c := Alone(s, t, GetStart(tenant, policy), 0);
    assert c.txs == s.txs[t := GetStart(tenant, policy)] && SameRows(s, c);
  }

  /** A delete of an unlocked live policy takes it away from every later append and get; its
      row, versions and name stay. */
  lemma DeleteAlone(s: State, t: nat, tenant: string, policy: nat)
    requires Live(s, tenant, policy).Some? && policy !in s.locks
    ensures var n := Next(s, SoftDelete(t, tenant, policy));
            && Live(n, tenant, policy).None? && n.policies.Keys == s.policies.Keys
            && n.policies[policy] == Header(tenant, s.policies[policy].name, s.policies[policy].current, true)
            && (forall q :: q in s.policies && q != policy ==> n.policies[q] == s.policies[q])
            && n.versions == s.versions && n.locks == s.locks && n.txs == s.txs && NameTaken(n, tenant, s.policies[policy].name)
  {
    var n := Next(s, SoftDelete(t, tenant, policy));
    assert n.policies[policy].name == s.policies[policy].name;
  }

  // ------------------------------------------------ where the rows come from

  ghost predicate Asked(actions: seq<Action>, tx: Tx)
  {
    exists i :: 0 <= i < |actions| && actions[i].Begin? && actions[i].tx == tx
  }

  /** The row carries the content of a create, or of an append to its policy. */
  ghost predicate RowAsked(actions: seq<Action>, v: Version)
  {
    || (v.version == 1 && exists name :: Asked(actions, CreateStart(v.tenant, name, v.body)))
    || Asked(actions, AppendStart(v.tenant, v.policy, v.body))
  }

  ghost predicate HeaderAsked(actions: seq<Action>, h: Header)
  {
    exists body :: Asked(actions, CreateStart(h.tenant, h.name, body))
  }

  ghost predicate TxAsked(actions: seq<Action>, tx: Tx)
  {
    match tx
    case CreateStart(_, _, _) => Asked(actions, tx)
    case HeaderInserted(_, tenant, name, body) => Asked(actions, CreateStart(tenant, name, body))
    case FirstInserted(_, tenant, name, body) => Asked(actions, CreateStart(tenant, name, body))
    case AppendStart(_, _, _) => Asked(actions, tx)
    case Locked(tenant, policy, body, _) => Asked(actions, AppendStart(tenant, policy, body))
    case VersionInserted(tenant, policy, body, _) => Asked(actions, AppendStart(tenant, policy, body))
    case HeaderUpdated(tenant, policy, body, _) => Asked(actions, AppendStart(tenant, policy, body))
    case _ => true
  }

  ghost predicate RowsAsked(actions: seq<Action>, versions: seq<Version>)
  {
    forall i :: 0 <= i < |versions| ==> RowAsked(actions, versions[i])
  }

  ghost predicate HeadersAsked(actions: seq<Action>, policies: map<nat, Header>)
  {
    forall p :: p in policies ==> HeaderAsked(actions, policies[p])
  }

  ghost predicate TxsAsked(actions: seq<Action>, txs: map<nat, Tx>)
  {
    forall t :: t in txs ==> TxAsked(actions, txs[t])
  }

  ghost predicate AllAsked(actions: seq<Action>, s: State)
  {
    RowsAsked(actions, s.versions) && HeadersAsked(actions, s.policies) && TxsAsked(actions, s.txs)
  }

  lemma AskedGrows(actions: seq<Action>, a: Action, tx: Tx)
    ensures Asked(actions, tx) ==> Asked(actions + [a], tx)
    ensures a.Begin? && a.tx == tx ==> Asked(actions + [a], tx)
  {
    var more := actions + [a];
    if i :| 0 <= i < |actions| && actions[i].Begin? && actions[i].tx == tx {
      assert more[i] == actions[i];
    }
    assert more[|actions|] == a;
  }

  lemma AllGrows(actions: seq<Action>, a: Action, s: State, more: seq<Action>)
    requires AllAsked(actions, s) && more == actions + [a]
    ensures AllAsked(more, s)
  {
    forall tx ensures Asked(actions, tx) ==> Asked(more, tx) { AskedGrows(actions, a, tx); }
    forall i | 0 <= i < |s.versions|
      ensures RowAsked(more, s.versions[i])
    {
      assert RowAsked(actions, s.versions[i]);
    }
    forall p | p in s.policies
      ensures HeaderAsked(more, s.policies[p])
    {
      assert HeaderAsked(actions, s.policies[p]);
    }
    forall t | t in s.txs
      ensures TxAsked(more, s.txs[t])
    {
      assert TxAsked(actions, s.txs[t]);
    }
  }

  lemma RowsOneMore(actions: seq<Action>, versions: seq<Version>, v: Version)
    requires RowsAsked(actions, versions) && RowAsked(actions, v)
    ensures RowsAsked(actions, versions + [v])
  {
  }

  lemma MoveRows(actions: seq<Action>, s: State, t: nat, tx: Tx)
    requires RowsAsked(actions, s.versions) && TxAsked(actions, tx)
    ensures RowsAsked(actions, Move(s, t, tx).versions)
  {
    if tx.FirstInserted? {
      var v := Version(tx.id, tx.tenant, 1, tx.body);
      assert RowAsked(actions, v);
      RowsOneMore(actions, s.versions, v);
    } else if tx.HeaderUpdated? {
      var v := Version(tx.policy, tx.tenant, tx.next, tx.body);
      assert RowAsked(actions, v);
      RowsOneMore(actions, s.versions, v);
    }
  }

  lemma HeadersOneMore(actions: seq<Action>, policies: map<nat, Header>, p: nat, h: Header)
    requires HeadersAsked(actions, policies) && HeaderAsked(actions, h)
    ensures HeadersAsked(actions, policies[p := h])
  {
  }

  lemma MoveHeaders(actions: seq<Action>, s: State, t: nat, tx: Tx)
    requires HeadersAsked(actions, s.policies) && TxAsked(actions, tx)
    ensures HeadersAsked(actions, Move(s, t, tx).policies)
  {
    if tx.FirstInserted? {
      var h := Header(tx.tenant, tx.name, 1, false);
      assert HeaderAsked(actions, h);
      HeadersOneMore(actions, s.policies, tx.id, h);
    } else if tx.HeaderUpdated? && tx.policy in s.policies {
      var h := s.policies[tx.policy].(current := tx.next);
      assert HeaderAsked(actions, s.policies[tx.policy]);
      HeadersOneMore(actions, s.policies, tx.policy, h);
    }
  }

  lemma MoveTxs(actions: seq<Action>, s: State, t: nat, tx: Tx)
    requires TxsAsked(actions, s.txs) && TxAsked(actions, tx)
    ensures TxsAsked(actions, Move(s, t, tx).txs)
  {
  }

  lemma MoveAsked(actions: seq<Action>, s: State, t: nat)
    requires AllAsked(actions, s) && t in s.txs
    ensures AllAsked(actions, Move(s, t, s.txs[t]))
  {
    assert TxAsked(actions, s.txs[t]);
    MoveRows(actions, s, t, s.txs[t]);
    MoveHeaders(actions, s, t, s.txs[t]);
    MoveTxs(actions, s, t, s.txs[t]);
  }

  /** Every version row and every header in the store is exactly what some caller asked for,
      under the tenant and policy it was asked for. */
  lemma {:induction false} RowsWereAskedFor(actions: seq<Action>)
    ensures AllAsked(actions, Run(INIT, actions))
  {
    if actions != [] {
      var before, a := actions[..|actions| - 1], actions[|actions| - 1];
      var s := Run(INIT, before);
      assert actions == before + [a];
      RowsWereAskedFor(before);
      AllGrows(before, a, s, actions);
      StepAsked(actions, s, a);
    }
  }

  lemma StepAsked(actions: seq<Action>, s: State, a: Action)
    requires AllAsked(actions, s) && (a.Begin? ==> Asked(actions, a.tx))
    ensures AllAsked(actions, Next(s, a))
  {
    if a.Step? && a.t in s.txs { MoveAsked(actions, s, a.t); }
  }
}
