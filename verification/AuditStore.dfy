/** Reads of the audit table (audit-service store.go Query and StreamForVerify): the
    rows of one tenant that satisfy the WHERE clause, ordered by id. */
module AuditStore {
  import opened Ledger

  /** The rows satisfying p, in table order. */
  function Select(rows: seq<Row>, p: Row -> bool): seq<Row>
  {
    if rows == [] then []
    else
      var last := rows[|rows| - 1];
      Select(rows[..|rows| - 1], p) + (if p(last) then [last] else [])
  }

  /** ORDER BY id ASC. */
  function InsertById(rows: seq<Row>, r: Row): seq<Row>
  {
    if rows == [] || rows[|rows| - 1].id <= r.id then rows + [r]
    else InsertById(rows[..|rows| - 1], r) + [rows[|rows| - 1]]
  }

  function SortById(rows: seq<Row>): seq<Row>
  {
    if rows == [] then [] else InsertById(SortById(rows[..|rows| - 1]), rows[|rows| - 1])
  }

  lemma {:induction false} SelectMember(rows: seq<Row>, p: Row -> bool, r: Row)
    ensures r in Select(rows, p) <==> r in rows && p(r)
  {
    if rows != [] {
      var n := |rows| - 1;
      assert rows == rows[..n] + [rows[n]];
      SelectMember(rows[..n], p, r);
    }
  }

  lemma {:induction false} SelectAscends(rows: seq<Row>, p: Row -> bool)
    requires IdsAscend(rows)
    ensures IdsAscend(Select(rows, p))
  {
    if rows != [] {
      var n := |rows| - 1;
      var before := Select(rows[..n], p);
      SelectAscends(rows[..n], p);
      forall i | 0 <= i < |before|
        ensures before[i].id < rows[n].id
      {
        SelectMember(rows[..n], p, before[i]);
        assert before[i] in rows[..n];
      }
    }
  }

  /** Rows already in id order stay as they are. */
  lemma {:induction false} SortedAlready(rows: seq<Row>)
    requires IdsAscend(rows)
    ensures SortById(rows) == rows
  {
    if rows != [] {
      var n := |rows| - 1;
      SortedAlready(rows[..n]);
      assert rows == rows[..n] + [rows[n]];
    }
  }

  /** Bounds that are not positive are not applied. */
  predicate InSegment(r: Row, from: int, to: int)
  {
    (from > 0 ==> from <= r.id) && (to > 0 ==> r.id <= to)
  }

  function Segment(rows: seq<Row>, from: int, to: int): seq<Row>
  {
    Select(rows, r => InSegment(r, from, to))
  }

  /** The tenant is compared as a UUID, so any text of it selects the same rows. */
  function StreamForVerify(db: Columns, log: seq<Row>, tenant: string, from: int, to: int): seq<Row>
  {
    SortById(Segment(TenantRows(log, db.tenant(tenant)), from, to))
  }

  lemma {:induction false} InsertMember(rows: seq<Row>, r: Row, x: Row)
    ensures x in InsertById(rows, r) <==> x in rows || x == r
  {
    if rows != [] && rows[|rows| - 1].id > r.id {
      var n := |rows| - 1;
      InsertMember(rows[..n], r, x);
      assert rows == rows[..n] + [rows[n]];
    }
  }

  lemma {:induction false} SortMember(rows: seq<Row>, x: Row)
    ensures x in SortById(rows) <==> x in rows
  {
    if rows != [] {
      var n := |rows| - 1;
      SortMember(rows[..n], x);
      InsertMember(SortById(rows[..n]), rows[n], x);
      assert rows == rows[..n] + [rows[n]];
    }
  }

  lemma TenantMember(log: seq<Row>, tenant: string, r: Row)
    ensures r in TenantRows(log, tenant) <==> r in log && r.tenant == tenant
  {
    if r in TenantRows(log, tenant) { TenantRowsMember(log, tenant, r); }
    if i :| 0 <= i < |log| && log[i] == r && r.tenant == tenant { TenantRowsHas(log, tenant, i); }
  }

  /** The stream holds exactly the tenant's rows within the two id bounds, a bound that is not
      positive being none. */
  lemma StreamMember(db: Columns, log: seq<Row>, tenant: string, from: int, to: int, r: Row)
    ensures r in StreamForVerify(db, log, tenant, from, to) <==>
            r in log && r.tenant == db.tenant(tenant) && (from > 0 ==> from <= r.id) && (to > 0 ==> r.id <= to)
  {
    var rows := TenantRows(log, db.tenant(tenant));
    TenantMember(log, db.tenant(tenant), r);
    SelectMember(rows, x => InSegment(x, from, to), r);
    SortMember(Segment(rows, from, to), r);
  }
}
