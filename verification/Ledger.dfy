/** PgStore.Append (audit-service store.go) as interleaved SERIALIZABLE transactions
    over the audit table.

The table is the sequence of committed rows in commit order. The one fact taken from
Postgres is the commit rule: a transaction commits only if no append of the same
tenant committed after its snapshot. The id sequence is not transactional, so ids
reserved by aborted transactions are burned.

The hash is taken over the submitted values; the verifier recomputes it from what the
columns hand back. `Columns` is that read-back: a UUID column returns the canonical text of
the id it was given, a JSONB column its own rendering of the document. A value a column
refuses is an abort. */
module Ledger {
  import opened Json
  import opened Hasher

  datatype Row = Row(
    id: int,
    tenant: string,
    actor: Doc,
    action: string,
    resource: Doc,
    payload: Doc,
    prevHash: Bytes,
    entryHash: Bytes,
    createdAt: int
  )

  /** What the UUID and JSONB columns return for a value written to them. */
  datatype Columns = Columns(tenant: string -> string, doc: Doc -> Doc)

  /** The hash routines and the database a ledger runs on. */
  datatype Env = Env(lib: Library, db: Columns)

  /** The row as the hasher sees it. */
  function ToEntry(r: Row): Entry
  {
    Entry(r.tenant, r.id, Some(r.actor), r.action, Some(r.resource), Some(r.payload), r.prevHash, r.createdAt)
  }

  ghost predicate Recomputes(lib: Library, r: Row)
  {
    Compute(lib, ToEntry(r)) == Some(r.entryHash)
  }

  /** AppendInput: a None document is a nil map. */
  datatype Input = Input(
    tenant: string,
    actor: Option<Doc>,
    action: string,
    resource: Option<Doc>,
    payload: Option<Doc>
  )

  // ------------------------------------------------------- transaction steps

  datatype Txn =
    | Begun(input: Input)
    | Read(input: Input, snapshot: nat, prev: Bytes)
    | Reserved(input: Input, snapshot: nat, prev: Bytes, id: int, now: int)
    | Inserted(snapshot: nat, row: Row)
    | Done

  type TxnId = nat

  datatype State = State(log: seq<Row>, nextId: int, txns: map<TxnId, Txn>)

  const INIT := State([], 1, map[])

  datatype Action =
    | Begin(t: TxnId, input: Input)
    | ReadPrev(t: TxnId)
    | Reserve(t: TxnId, now: int)
    | Insert(t: TxnId)
    | Commit(t: TxnId)
    | Abort(t: TxnId)

  /** The committed rows of one tenant, in commit order. */
  function TenantRows(log: seq<Row>, tenant: string): seq<Row>
  {
    if log == [] then []
    else
      var last := log[|log| - 1];
      TenantRows(log[..|log| - 1], tenant) + (if last.tenant == tenant then [last] else [])
  }

  /** SELECT entry_hash ... ORDER BY id DESC LIMIT 1 over one tenant's rows. */
  function MaxIdRow(rows: seq<Row>): (r: Option<Row>)
    ensures r.None? <==> rows == []
    ensures r.Some? ==> r.value in rows && forall i :: 0 <= i < |rows| ==> rows[i].id <= r.value.id
  {
    if rows == [] then None
    else
      var last := rows[|rows| - 1];
      match MaxIdRow(rows[..|rows| - 1])
      case None => Some(last)
      case Some(r) => if last.id >= r.id then Some(last) else Some(r)
  }

  /** The prev_hash an append sees in its snapshot. */
  function PrevHash(log: seq<Row>, tenant: string): Bytes
  {
    match MaxIdRow(TenantRows(log, tenant))
    case None => ZeroHash()
    case Some(r) => r.entryHash
  }

  /** What is hashed for an input. */
  function Hashed(input: Input, prev: Bytes, id: int, now: int): Entry
  {
    Entry(input.tenant, id, input.actor, input.action, input.resource, input.payload, prev, now)
  }

  /** The row as it will be read back, or None when hashing fails. */
  ghost function NewRow(env: Env, input: Input, prev: Bytes, id: int, now: int): Option<Row>
  {
    match Compute(env.lib, Hashed(input, prev, id, now))
    case None => None
    case Some(hash) =>
      Some(Row(id, env.db.tenant(input.tenant), env.db.doc(Sanitize(input.actor)), input.action,
               env.db.doc(Sanitize(input.resource)), env.db.doc(Sanitize(input.payload)), prev, hash, now))
  }

  /** SERIALIZABLE: no row of this tenant committed since the snapshot. */
  predicate MayCommit(s: State, tenant: string, snapshot: nat)
  {
    forall i :: snapshot <= i < |s.log| ==> s.log[i].tenant != tenant
  }

  /** One step of one transaction. A step that is not enabled changes nothing. */
  ghost function Next(env: Env, s: State, a: Action): State
  {
    match a
    case Begin(t, input) =>
      if t in s.txns || input.tenant == "" || input.action == "" then s
      else s.(txns := s.txns[t := Begun(input)])
    case ReadPrev(t) =>
      if t in s.txns && s.txns[t].Begun? then
        var input := s.txns[t].input;
        s.(txns := s.txns[t := Read(input, |s.log|, PrevHash(s.log, env.db.tenant(input.tenant)))])
      else s
    case Reserve(t, now) =>
      if t in s.txns && s.txns[t].Read? then
        var x := s.txns[t];
        s.(nextId := s.nextId + 1, txns := s.txns[t := Reserved(x.input, x.snapshot, x.prev, s.nextId, now)])
      else s
    case Insert(t) =>
      if t in s.txns && s.txns[t].Reserved? then
        var x := s.txns[t];
        match NewRow(env, x.input, x.prev, x.id, x.now)
        case None => s.(txns := s.txns[t := Done])
        case Some(row) => s.(txns := s.txns[t := Inserted(x.snapshot, row)])
      else s
    case Commit(t) =>
      if t in s.txns && s.txns[t].Inserted? && MayCommit(s, s.txns[t].row.tenant, s.txns[t].snapshot) then
        s.(log := s.log + [s.txns[t].row], txns := s.txns[t := Done])
      else s
    case Abort(t) =>
      if t in s.txns then s.(txns := s.txns[t := Done]) else s
  }

  /** The state after an arbitrary interleaving of steps. */
  ghost function Run(env: Env, actions: seq<Action>): State
  {
    if actions == [] then INIT
    else Next(env, Run(env, actions[..|actions| - 1]), actions[|actions| - 1])
  }

  // ------------------------------------------------------------ the chain

  ghost predicate IdsAscend(rows: seq<Row>)
  {
    forall i, j :: 0 <= i < j < |rows| ==> rows[i].id < rows[j].id
  }

  ghost predicate AllRecompute(lib: Library, rows: seq<Row>)
  {
    forall r :: r in rows ==> Recomputes(lib, r)
  }

  ghost predicate Linked(rows: seq<Row>)
  {
    forall i :: 0 < i < |rows| ==> rows[i].prevHash == rows[i - 1].entryHash
  }

  /** A linear chain: it starts at the zero hash, every row links to its predecessor and
      ids ascend. */
  ghost predicate Chain(rows: seq<Row>)
  {
    && IdsAscend(rows)
    && (rows != [] ==> rows[0].prevHash == ZeroHash())
    && Linked(rows)
  }

  // ------------------------------------------------------------ invariant

  ghost predicate RowOk(s: State, r: Row)
  {
    0 < r.id < s.nextId && |r.prevHash| == HASH_SIZE && |r.entryHash| == HASH_SIZE && r.action != ""
  }

  /** A transaction's snapshot and its reserved id agree with the table: every row in
      the snapshot has a smaller id, and prev is what the snapshot shows. */
  ghost predicate TxnOk(env: Env, s: State, x: Txn)
  {
    match x
    case Begun(input) => input.tenant != "" && input.action != ""
    case Read(input, snap, prev) =>
      && snap <= |s.log| && prev == PrevHash(s.log[..snap], env.db.tenant(input.tenant))
      && input.tenant != "" && input.action != ""
    case Reserved(input, snap, prev, id, _) =>
      && snap <= |s.log| && prev == PrevHash(s.log[..snap], env.db.tenant(input.tenant))
      && input.tenant != "" && input.action != ""
      && (forall i :: 0 <= i < snap ==> s.log[i].id < id) && 0 < id < s.nextId
    case Inserted(snap, row) =>
      && snap <= |s.log| && row.prevHash == PrevHash(s.log[..snap], row.tenant)
      && (forall i :: 0 <= i < snap ==> s.log[i].id < row.id)
      && RowOk(s, row)
    case Done => true
  }

  function ReservedId(x: Txn): Option<int>
  {
    match x
    case Reserved(_, _, _, id, _) => Some(id)
    case Inserted(_, row) => Some(row.id)
    case _ => None
  }

  /** No id is held by two transactions, or by a transaction and a committed row. */
  ghost predicate IdsUnique(s: State)
  {
    && (forall t, u :: t in s.txns && u in s.txns && t != u && ReservedId(s.txns[t]).Some? ==>
          ReservedId(s.txns[t]) != ReservedId(s.txns[u]))
    && (forall t, i :: t in s.txns && 0 <= i < |s.log| ==> ReservedId(s.txns[t]) != Some(s.log[i].id))
    && (forall i, j :: 0 <= i < j < |s.log| ==> s.log[i].id != s.log[j].id)
  }

  ghost predicate Inv(env: Env, s: State)
  {
    && s.nextId > 0
    && (forall i :: 0 <= i < |s.log| ==> RowOk(s, s.log[i]))
    && (forall t :: t in s.txns ==> TxnOk(env, s, s.txns[t]))
    && IdsUnique(s)
    && (forall tenant :: Chain(TenantRows(s.log, tenant)))
  }

  // ------------------------------------------------------------ table lemmas

  lemma {:induction false} TenantRowsMember(log: seq<Row>, tenant: string, r: Row)
    requires r in TenantRows(log, tenant)
    ensures r in log && r.tenant == tenant
  {
    var n := |log| - 1;
    if r in TenantRows(log[..n], tenant) {
      TenantRowsMember(log[..n], tenant, r);
    }
  }

  lemma TenantRowsAppend(log: seq<Row>, r: Row, tenant: string)
    ensures TenantRows(log + [r], tenant) == TenantRows(log, tenant) + (if r.tenant == tenant then [r] else [])
  {
    assert (log + [r])[..|log|] == log;
  }

  /** Rows of other tenants do not show in a tenant's view. */
  lemma {:induction false} TenantRowsSince(log: seq<Row>, tenant: string, snap: nat)
    requires snap <= |log| && forall i :: snap <= i < |log| ==> log[i].tenant != tenant
    ensures TenantRows(log, tenant) == TenantRows(log[..snap], tenant)
  {
    if snap == |log| {
      assert log[..snap] == log;
    } else {
      var n := |log| - 1;
      TenantRowsSince(log[..n], tenant, snap);
      assert log[..n][..snap] == log[..snap];
    }
  }

  /** With ascending ids the row with the largest id is the last one committed. */
  lemma MaxIdIsLast(rows: seq<Row>)
    requires IdsAscend(rows) && rows != []
    ensures MaxIdRow(rows) == Some(rows[|rows| - 1])
  {
    var last := rows[|rows| - 1];
    var r := MaxIdRow(rows).value;
    var i :| 0 <= i < |rows| && rows[i] == r;
    assert last.id <= r.id;
  }

  lemma ChainSnoc(rows: seq<Row>, r: Row)
    requires Chain(rows)
    requires forall i :: 0 <= i < |rows| ==> rows[i].id < r.id
    requires if rows == [] then r.prevHash == ZeroHash() else r.prevHash == rows[|rows| - 1].entryHash
    ensures Chain(rows + [r])
  {
    assert Linked(rows + [r]);
  }

  /** What a snapshot without later rows of the tenant shows: a smaller id on every
      row, and the last row's hash. */
  lemma SnapshotShowsLast(log: seq<Row>, tenant: string, snap: nat, id: int)
    requires snap <= |log| && IdsAscend(TenantRows(log, tenant))
    requires forall i :: snap <= i < |log| ==> log[i].tenant != tenant
    requires forall i :: 0 <= i < snap ==> log[i].id < id
    ensures var rows := TenantRows(log, tenant);
            && (forall i :: 0 <= i < |rows| ==> rows[i].id < id)
            && PrevHash(log[..snap], tenant) == if rows == [] then ZeroHash() else rows[|rows| - 1].entryHash
  {
    var rows := TenantRows(log, tenant);
    TenantRowsSince(log, tenant, snap);
    forall i | 0 <= i < |rows|
      ensures rows[i].id < id
    {
      TenantRowsMember(log[..snap], tenant, rows[i]);
    }
    if rows != [] {
      MaxIdIsLast(rows);
    }
  }

  /** Appending a row that saw the whole tenant history extends the chain. */
  lemma ChainExtends(log: seq<Row>, snap: nat, r: Row)
    requires snap <= |log| && Chain(TenantRows(log, r.tenant))
    requires forall i :: snap <= i < |log| ==> log[i].tenant != r.tenant
    requires forall i :: 0 <= i < snap ==> log[i].id < r.id
    requires r.prevHash == PrevHash(log[..snap], r.tenant)
    ensures Chain(TenantRows(log + [r], r.tenant))
  {
    SnapshotShowsLast(log, r.tenant, snap, r.id);
    ChainSnoc(TenantRows(log, r.tenant), r);
    TenantRowsAppend(log, r, r.tenant);
  }

  // ------------------------------------------------------------ preservation

  /** Rows and transactions stay good when the table grows and the sequence advances. */
  lemma RowStaysOk(s: State, s': State, r: Row)
    requires s.nextId <= s'.nextId && RowOk(s, r)
    ensures RowOk(s', r)
  {
  }

  lemma TxnStaysOk(env: Env, s: State, s': State, x: Txn)
    requires s.nextId <= s'.nextId && s.log <= s'.log && TxnOk(env, s, x)
    ensures TxnOk(env, s', x)
  {
    match x
    case Begun(_) =>
    case Read(_, snap, _) => assert s.log[..snap] == s'.log[..snap];
    case Reserved(_, snap, _, _, _) => assert s.log[..snap] == s'.log[..snap];
    case Inserted(snap, row) =>
      assert s.log[..snap] == s'.log[..snap];
      RowStaysOk(s, s', row);
    case Done =>
  }

  lemma TxnIdBelowNext(env: Env, s: State, t: TxnId)
    requires t in s.txns && TxnOk(env, s, s.txns[t])
    ensures ReservedId(s.txns[t]) != Some(s.nextId)
  {
  }

  /** Updating one transaction, and possibly the sequence, keeps the invariant. */
  lemma TxnUpdateKeeps(env: Env, s: State, t: TxnId, x: Txn, nextId: int)
    requires Inv(env, s) && s.nextId <= nextId
    requires TxnOk(env, s.(nextId := nextId), x)
    requires ReservedId(x).Some? ==>
               || ReservedId(x) == Some(s.nextId)
               || (t in s.txns && ReservedId(s.txns[t]) == ReservedId(x))
    ensures Inv(env, s.(nextId := nextId, txns := s.txns[t := x]))
  {
    var s' := s.(nextId := nextId, txns := s.txns[t := x]);
    TxnUpdateKeepsIds(env, s, t, x, nextId);
    forall u | u in s'.txns
      ensures TxnOk(env, s', s'.txns[u])
    {
      if u != t { TxnStaysOk(env, s, s', s.txns[u]); } else { TxnStaysOk(env, s.(nextId := nextId), s', x); }
    }
    forall i | 0 <= i < |s.log|
      ensures RowOk(s', s'.log[i])
    {
      RowStaysOk(s, s', s.log[i]);
    }
  }

  lemma TxnUpdateKeepsIds(env: Env, s: State, t: TxnId, x: Txn, nextId: int)
    requires Inv(env, s)
    requires ReservedId(x).Some? ==>
               || ReservedId(x) == Some(s.nextId)
               || (t in s.txns && ReservedId(s.txns[t]) == ReservedId(x))
    ensures IdsUnique(s.(nextId := nextId, txns := s.txns[t := x]))
  {
    forall u | u in s.txns
      ensures ReservedId(s.txns[u]) != Some(s.nextId)
    {
      TxnIdBelowNext(env, s, u);
    }
    forall i | 0 <= i < |s.log|
      ensures s.log[i].id != s.nextId
    {
      assert RowOk(s, s.log[i]);
    }
  }

  lemma CommitKeeps(env: Env, s: State, t: TxnId)
    requires Inv(env, s) && t in s.txns && s.txns[t].Inserted?
    requires MayCommit(s, s.txns[t].row.tenant, s.txns[t].snapshot)
    ensures Inv(env, Next(env, s, Commit(t)))
  {
    var x := s.txns[t];
    var s' := Next(env, s, Commit(t));
    assert TxnOk(env, s, x);
    CommitKeepsIds(s, t);
    forall u | u in s'.txns
      ensures TxnOk(env, s', s'.txns[u])
    {
      if u != t { TxnStaysOk(env, s, s', s.txns[u]); }
    }
    forall i | 0 <= i < |s'.log|
      ensures RowOk(s', s'.log[i])
    {
      if i < |s.log| { RowStaysOk(s, s', s.log[i]); } else { RowStaysOk(s, s', x.row); }
    }
    forall tenant
      ensures Chain(TenantRows(s'.log, tenant))
    {
      CommitKeepsChain(s.log, x.snapshot, x.row, tenant);
    }
  }

  lemma CommitKeepsChain(log: seq<Row>, snap: nat, r: Row, tenant: string)
    requires snap <= |log| && Chain(TenantRows(log, tenant))
    requires forall i :: snap <= i < |log| ==> log[i].tenant != r.tenant
    requires forall i :: 0 <= i < snap ==> log[i].id < r.id
    requires r.prevHash == PrevHash(log[..snap], r.tenant)
    ensures Chain(TenantRows(log + [r], tenant))
  {
    if tenant == r.tenant {
      ChainExtends(log, snap, r);
    } else {
      TenantRowsAppend(log, r, tenant);
    }
  }

  lemma CommitKeepsIds(s: State, t: TxnId)
    requires IdsUnique(s) && t in s.txns && s.txns[t].Inserted?
    ensures IdsUnique(s.(log := s.log + [s.txns[t].row], txns := s.txns[t := Done]))
  {
    assert ReservedId(s.txns[t]) == Some(s.txns[t].row.id);
  }

  lemma NextKeeps(env: Env, s: State, a: Action)
    requires Inv(env, s)
    ensures Inv(env, Next(env, s, a))
  {
    if Next(env, s, a) != s {
      match a
      case Begin(t, input) => TxnUpdateKeeps(env, s, t, Begun(input), s.nextId);
      case ReadPrev(t) => ReadKeeps(env, s, t);
      case Reserve(t, now) => ReserveKeeps(env, s, t, now);
      case Insert(t) => InsertKeeps(env, s, t);
      case Commit(t) => CommitKeeps(env, s, t);
      case Abort(t) => TxnUpdateKeeps(env, s, t, Done, s.nextId);
    }
  }

  lemma ReadKeeps(env: Env, s: State, t: TxnId)
    requires Inv(env, s) && t in s.txns && s.txns[t].Begun?
    ensures Inv(env, Next(env, s, ReadPrev(t)))
  {
    assert TxnOk(env, s, s.txns[t]);
    assert s.log[..|s.log|] == s.log;
    TxnUpdateKeeps(env, s, t, Next(env, s, ReadPrev(t)).txns[t], s.nextId);
  }

  lemma ReserveKeeps(env: Env, s: State, t: TxnId, now: int)
    requires Inv(env, s) && t in s.txns && s.txns[t].Read?
    ensures Inv(env, Next(env, s, Reserve(t, now)))
  {
    assert TxnOk(env, s, s.txns[t]);
    assert forall i :: 0 <= i < |s.log| ==> RowOk(s, s.log[i]);
    TxnUpdateKeeps(env, s, t, Next(env, s, Reserve(t, now)).txns[t], s.nextId + 1);
  }

  lemma InsertKeeps(env: Env, s: State, t: TxnId)
    requires Inv(env, s) && t in s.txns && s.txns[t].Reserved?
    ensures Inv(env, Next(env, s, Insert(t)))
  {
    var x := s.txns[t];
    assert TxnOk(env, s, x);
    match NewRow(env, x.input, x.prev, x.id, x.now)
    case None => TxnUpdateKeeps(env, s, t, Done, s.nextId);
    case Some(row) =>
      TxnUpdateKeeps(env, s, t, Inserted(x.snapshot, row), s.nextId);
  }

  // ------------------------------------------------------------ main theorems

  /** Every interleaving keeps the invariant. */
  lemma {:induction false} Reachable(env: Env, actions: seq<Action>)
    ensures Inv(env, Run(env, actions))
  {
    if actions != [] {
      Reachable(env, actions[..|actions| - 1]);
      NextKeeps(env, Run(env, actions[..|actions| - 1]), actions[|actions| - 1]);
    }
  }

  /** For every interleaving of appends over any tenants, with aborts anywhere, each
      tenant's rows form one linear chain in commit order, and no id is used twice. */
  lemma ChainStaysLinear(env: Env, actions: seq<Action>, tenant: string)
    ensures Chain(TenantRows(Run(env, actions).log, tenant))
    ensures var log := Run(env, actions).log;
            forall i, j :: 0 <= i < j < |log| ==> log[i].id != log[j].id
  {
    Reachable(env, actions);
  }

  /** Committed rows are never changed or removed. */
  lemma {:induction false} AppendOnly(env: Env, before: seq<Action>, after: seq<Action>)
    ensures Run(env, before).log <= Run(env, before + after).log
  {
    if after == [] {
      assert before + after == before;
    } else {
      var n := |after| - 1;
      AppendOnly(env, before, after[..n]);
      var all := before + after;
      assert all[..|all| - 1] == before + after[..n];
    }
  }

  lemma PrevHashSize(log: seq<Row>, tenant: string)
    requires forall r :: r in log ==> |r.entryHash| == HASH_SIZE
    ensures |PrevHash(log, tenant)| == HASH_SIZE
  {
    var r := MaxIdRow(TenantRows(log, tenant));
    if r.Some? {
      TenantRowsMember(log, tenant, r.value);
    }
  }

  /** Hashing never fails in a reachable state: a reserved transaction always inserts. */
  lemma HashNeverFails(env: Env, actions: seq<Action>, t: TxnId)
    requires t in Run(env, actions).txns && Run(env, actions).txns[t].Reserved?
    ensures Next(env, Run(env, actions), Insert(t)).txns[t].Inserted?
  {
    var s := Run(env, actions);
    Reachable(env, actions);
    var x := s.txns[t];
    assert TxnOk(env, s, x);
    forall r | r in s.log[..x.snapshot]
      ensures |r.entryHash| == HASH_SIZE
    {
      var i :| 0 <= i < x.snapshot && s.log[i] == r;
      assert RowOk(s, s.log[i]);
    }
    PrevHashSize(s.log[..x.snapshot], env.db.tenant(x.input.tenant));
  }

  // ------------------------------------------------------------ progress

  /** A Commit step commits an inserted row exactly when no row of its tenant has been
      committed since its snapshot, and otherwise leaves the table as it is. */
  lemma CommitExactly(env: Env, s: State, t: TxnId)
    requires t in s.txns && s.txns[t].Inserted?
    ensures var row, snap, log := s.txns[t].row, s.txns[t].snapshot, Next(env, s, Commit(t)).log;
            && (log == s.log + [row] <==> forall i :: snap <= i < |s.log| ==> s.log[i].tenant != row.tenant)
            && (log == s.log || log == s.log + [row])
  {
  }

  /** One append, from start to commit. */
  function OneAppend(t: TxnId, input: Input, now: int): seq<Action>
  {
    [Begin(t, input), ReadPrev(t), Reserve(t, now), Insert(t), Commit(t)]
  }

  lemma RunStep(env: Env, before: seq<Action>, a: Action, s: State, n: State)
    requires Run(env, before) == s && Next(env, s, a) == n
    ensures Run(env, before + [a]) == n
  {
    assert (before + [a])[..|before|] == before;
  }

  lemma RunFive(env: Env, before: seq<Action>, a: Action, b: Action, c: Action, d: Action, e: Action,
                s: State, t: State, u: State, v: State, w: State, x: State)
    requires Run(env, before) == s && Next(env, s, a) == t && Next(env, t, b) == u && Next(env, u, c) == v
    requires Next(env, v, d) == w && Next(env, w, e) == x
    ensures Run(env, before + [a, b, c, d, e]) == x
  {
    assert before + [a, b, c, d, e] == before + [a] + [b] + [c] + [d] + [e];
    RunStep(env, before, a, s, t);
    RunStep(env, before + [a], b, t, u);
    RunStep(env, before + [a] + [b], c, u, v);
    RunStep(env, before + [a] + [b] + [c], d, v, w);
    RunStep(env, before + [a] + [b] + [c] + [d], e, w, x);
  }

  function With(s: State, t: TxnId, x: Txn): State
  {
    s.(txns := s.txns[t := x])
  }

  lemma StartsAlone(env: Env, s: State, t: TxnId, input: Input)
    requires t !in s.txns && input.tenant != "" && input.action != ""
    ensures Next(env, s, Begin(t, input)) == With(s, t, Begun(input))
    ensures Next(env, With(s, t, Begun(input)), ReadPrev(t)) ==
            With(s, t, Read(input, |s.log|, PrevHash(s.log, env.db.tenant(input.tenant))))
  {
  }

  lemma ReservesAlone(env: Env, s: State, t: TxnId, input: Input, prev: Bytes, now: int)
    ensures Next(env, With(s, t, Read(input, |s.log|, prev)), Reserve(t, now)) ==
            With(s.(nextId := s.nextId + 1), t, Reserved(input, |s.log|, prev, s.nextId, now))
  {
  }

  lemma InsertsAlone(env: Env, s: State, t: TxnId, input: Input, prev: Bytes, id: int, now: int, made: Option<Row>)
    requires made == NewRow(env, input, prev, id, now) && made.Some?
    ensures Next(env, With(s, t, Reserved(input, |s.log|, prev, id, now)), Insert(t)) ==
            With(s, t, Inserted(|s.log|, made.value))
  {
  }

  lemma CommitsAlone(env: Env, s: State, t: TxnId, row: Row)
    ensures Next(env, With(s, t, Inserted(|s.log|, row)), Commit(t)) == With(s.(log := s.log + [row]), t, Done)
  {
  }

  /** The hash a new row of the tenant links to: that of its row with the largest id, or the
      zero hash when it has none. */
  ghost predicate LinksToLast(log: seq<Row>, tenant: string, prev: Bytes)
  {
    && ((forall i :: 0 <= i < |log| ==> log[i].tenant != tenant) ==> prev == ZeroHash())
    && (forall i :: 0 <= i < |log| && LastOfTenant(log, tenant, i) ==> prev == log[i].entryHash)
  }

  ghost predicate LastOfTenant(log: seq<Row>, tenant: string, i: nat)
    requires i < |log|
  {
    log[i].tenant == tenant && forall j :: 0 <= j < |log| && log[j].tenant == tenant ==> log[j].id <= log[i].id
  }

  lemma {:induction false} TenantRowsHas(log: seq<Row>, tenant: string, i: nat)
    requires i < |log| && log[i].tenant == tenant
    ensures log[i] in TenantRows(log, tenant)
  {
    var n := |log| - 1;
    if i < n {
      TenantRowsHas(log[..n], tenant, i);
      assert log[..n][i] == log[i];
    }
  }

  lemma PrevHashLinks(log: seq<Row>, tenant: string)
    requires forall i, j :: 0 <= i < j < |log| ==> log[i].id != log[j].id
    ensures LinksToLast(log, tenant, PrevHash(log, tenant))
  {
    var rows := TenantRows(log, tenant);
    if rows != [] {
      TenantRowsMember(log, tenant, MaxIdRow(rows).value);
    }
    forall i | 0 <= i < |log| && LastOfTenant(log, tenant, i)
      ensures PrevHash(log, tenant) == log[i].entryHash
    {
      TenantRowsHas(log, tenant, i);
      var r := MaxIdRow(rows).value;
      TenantRowsMember(log, tenant, r);
      var j :| 0 <= j < |log| && log[j] == r;
      assert log[i].id <= r.id && log[j].id <= log[i].id;
    }
  }

  /** From every reachable state, an append that runs undisturbed commits one row: the
      submitted content under the next id, linked to the tenant's last row. */
  lemma LoneAppendCommits(env: Env, actions: seq<Action>, t: TxnId, input: Input, now: int) returns (row: Row)
    requires t !in Run(env, actions).txns && input.tenant != "" && input.action != ""
    ensures var s, n := Run(env, actions), Run(env, actions + OneAppend(t, input, now));
            && n.log == s.log + [row] && row.id == s.nextId && row.createdAt == now
            && Made(env, row, input) && LinksToLast(s.log, env.db.tenant(input.tenant), row.prevHash)
  {
    var s := Run(env, actions);
    var prev := PrevHash(s.log, env.db.tenant(input.tenant));
    Reachable(env, actions);
    PrevHashLinks(s.log, env.db.tenant(input.tenant));
    LogHashSizes(env, s);
    PrevHashSize(s.log, env.db.tenant(input.tenant));
    row := NewRow(env, input, prev, s.nextId, now).value;
    StartsAlone(env, s, t, input);
    ReservesAlone(env, s, t, input, prev, now);
    InsertsAlone(env, s.(nextId := s.nextId + 1), t, input, prev, s.nextId, now, Some(row));
    CommitsAlone(env, s.(nextId := s.nextId + 1), t, row);
    RunFive(env, actions, Begin(t, input), ReadPrev(t), Reserve(t, now), Insert(t), Commit(t), s,
            With(s, t, Begun(input)), With(s, t, Read(input, |s.log|, prev)),
            With(s.(nextId := s.nextId + 1), t, Reserved(input, |s.log|, prev, s.nextId, now)),
            With(s.(nextId := s.nextId + 1), t, Inserted(|s.log|, row)),
            With(s.(nextId := s.nextId + 1, log := s.log + [row]), t, Done));
  }

  lemma LogHashSizes(env: Env, s: State)
    requires Inv(env, s)
    ensures forall r :: r in s.log ==> |r.entryHash| == HASH_SIZE
  {
    forall r | r in s.log
      ensures |r.entryHash| == HASH_SIZE
    {
      var i :| 0 <= i < |s.log| && s.log[i] == r;
      assert RowOk(s, s.log[i]);
    }
  }

  // ------------------------------------------------------------ burned ids

  /** An id that was handed out and that neither a committed row nor an open transaction
      holds. */
  ghost predicate Burned(s: State, id: int)
  {
    && id < s.nextId
    && (forall i :: 0 <= i < |s.log| ==> s.log[i].id != id)
    && (forall t :: t in s.txns ==> ReservedId(s.txns[t]) != Some(id))
  }

  lemma BurnedNext(env: Env, s: State, a: Action, id: int)
    requires Burned(s, id)
    ensures Burned(Next(env, s, a), id)
  {
    if a.t in s.txns { assert ReservedId(s.txns[a.t]) != Some(id); }
  }

  /** An id burned by an abort appears in no later row, whatever happens next. */
  lemma {:induction false} BurnedForGood(env: Env, before: seq<Action>, after: seq<Action>, id: int)
    requires Burned(Run(env, before), id)
    ensures Burned(Run(env, before + after), id)
  {
    if after == [] {
      assert before + after == before;
    } else {
      var n := |after| - 1;
      BurnedForGood(env, before, after[..n], id);
      var all := before + after;
      assert all[..|all| - 1] == before + after[..n];
      BurnedNext(env, Run(env, before + after[..n]), after[n], id);
    }
  }

  // ------------------------------------------------------------ provenance

  ghost predicate Submitted(actions: seq<Action>, input: Input)
  {
    exists i :: 0 <= i < |actions| && actions[i].Begin? && actions[i].input == input
  }

  /** The row is what an append of this input stores and reads back. */
  ghost predicate Made(env: Env, r: Row, input: Input)
  {
    NewRow(env, input, r.prevHash, r.id, r.createdAt) == Some(r)
  }

  ghost predicate RowSubmitted(env: Env, actions: seq<Action>, r: Row)
  {
    exists input :: Submitted(actions, input) && Made(env, r, input)
  }

  ghost predicate TxnSubmitted(env: Env, actions: seq<Action>, x: Txn)
  {
    match x
    case Begun(input) => Submitted(actions, input)
    case Read(input, _, _) => Submitted(actions, input)
    case Reserved(input, _, _, _, _) => Submitted(actions, input)
    case Inserted(_, row) => RowSubmitted(env, actions, row)
    case Done => true
  }

  lemma SubmittedGrows(env: Env, actions: seq<Action>, a: Action)
    ensures forall input :: Submitted(actions, input) ==> Submitted(actions + [a], input)
    ensures a.Begin? ==> Submitted(actions + [a], a.input)
    ensures forall r :: RowSubmitted(env, actions, r) ==> RowSubmitted(env, actions + [a], r)
    ensures forall x :: TxnSubmitted(env, actions, x) ==> TxnSubmitted(env, actions + [a], x)
  {
    var all := actions + [a];
    forall input | Submitted(actions, input)
      ensures Submitted(all, input)
    {
      var i :| 0 <= i < |actions| && actions[i].Begin? && actions[i].input == input;
      assert all[i] == actions[i];
    }
    if a.Begin? { assert all[|actions|].input == a.input; }
  }

  /** Every committed row is the read-back of an input that was submitted, hashed as it was
      submitted. */
  lemma {:induction false} RowsComeFromInputs(env: Env, actions: seq<Action>)
    ensures forall i :: 0 <= i < |Run(env, actions).log| ==> RowSubmitted(env, actions, Run(env, actions).log[i])
    ensures forall t :: t in Run(env, actions).txns ==> TxnSubmitted(env, actions, Run(env, actions).txns[t])
  {
    if actions != [] {
      var before, a := actions[..|actions| - 1], actions[|actions| - 1];
      assert actions == before + [a];
      RowsComeFromInputs(env, before);
      SubmittedGrows(env, before, a);
      StepSubmitted(env, Run(env, before), actions, a);
    }
  }

  lemma StepSubmitted(env: Env, s: State, actions: seq<Action>, a: Action)
    requires forall i :: 0 <= i < |s.log| ==> RowSubmitted(env, actions, s.log[i])
    requires forall t :: t in s.txns ==> TxnSubmitted(env, actions, s.txns[t])
    requires a.Begin? ==> Submitted(actions, a.input)
    ensures var s' := Next(env, s, a);
            && (forall i :: 0 <= i < |s'.log| ==> RowSubmitted(env, actions, s'.log[i]))
            && (forall t :: t in s'.txns ==> TxnSubmitted(env, actions, s'.txns[t]))
  {
    assert a.t in s.txns ==> TxnSubmitted(env, actions, s.txns[a.t]);
    if a.Insert? && a.t in s.txns && s.txns[a.t].Reserved? {
      var x := s.txns[a.t];
      var row := NewRow(env, x.input, x.prev, x.id, x.now);
      assert row.Some? ==> Made(env, row.value, x.input);
    }
  }

  // ------------------------------------------------------------ recomputation

  /** The columns return the input as it was submitted, nil maps as empty ones. */
  ghost predicate Fixed(db: Columns, input: Input)
  {
    && db.tenant(input.tenant) == input.tenant
    && db.doc(Sanitize(input.actor)) == Sanitize(input.actor)
    && db.doc(Sanitize(input.resource)) == Sanitize(input.resource)
    && db.doc(Sanitize(input.payload)) == Sanitize(input.payload)
  }

  /** The entry behind a row, as it was hashed. */
  function HashedFor(r: Row, input: Input): Entry
  {
    Hashed(input, r.prevHash, r.id, r.createdAt)
  }

  /** An input the columns return unchanged makes a row that recomputes. */
  lemma FixedRecomputes(env: Env, r: Row, input: Input)
    requires Made(env, r, input) && Fixed(env.db, input)
    ensures Recomputes(env.lib, r)
  {
    assert Document(env.lib, HashedFor(r, input)) == Document(env.lib, ToEntry(r));
  }

  /** The two texts behind a row, hashed and read back, are sound: documents that encode,
      and not a digest collision. */
  ghost predicate Comparable(env: Env, r: Row, input: Input)
  {
    && WellFormed(HashedFor(r, input)) && WellFormed(ToEntry(r))
    && !Clash(env.lib, HashedFor(r, input), ToEntry(r))
  }

  /** A committed row recomputes exactly when the columns return its input unchanged. */
  lemma RowRecomputesExactly(env: Env, r: Row, input: Input)
    requires Faithful(env.lib) && Made(env, r, input) && Comparable(env, r, input)
    ensures Recomputes(env.lib, r) <==> Fixed(env.db, input)
  {
    if Fixed(env.db, input) {
      FixedRecomputes(env, r, input);
    }
    if Recomputes(env.lib, r) {
      TextInjective(env.lib, HashedFor(r, input), ToEntry(r));
    }
  }
}
