/** Cursor paging over the audit table (audit-service entries.go ServeList on top of
    store.go Query), with appends committing between fetches. */
module Paging {
  import opened Json
  import opened Ledger
  import opened AuditStore
  import Canonical

  /** A query parameter: missing, unparseable, or a value. */
  datatype Param = Absent | Malformed | Given(n: int)

  datatype Request = Request(
    tenant: string,
    action: string,
    actorId: string,
    from: Param,
    to: Param,
    cursor: Param,
    limit: Param
  )

  datatype Config = Config(defaultPageSize: int, maxPageSize: int)

  datatype Response = BadRequest | Page(entries: seq<Row>, next: int)

  /** The zero time.Time, 1 January of year 1, in nanoseconds from the Unix epoch. */
  const ZERO_TIME: int := -62_135_596_800_000_000_000

  /** A bound that parses to the zero time counts as no bound. */
  predicate Bounds(p: Param)
  {
    p.Given? && p.n != ZERO_TIME
  }

  /** The WHERE clause without tenant and cursor. `text` is the ->> operator. */
  predicate Matches(text: Canonical.Tree -> Option<string>, q: Request, r: Row)
  {
    && (q.action != "" ==> r.action == q.action)
    && (q.actorId != "" ==> "id" in r.actor && text(r.actor["id"]) == Some(q.actorId))
    && (Bounds(q.from) ==> q.from.n <= r.createdAt)
    && (Bounds(q.to) ==> r.createdAt <= q.to.n)
  }

  function Where(text: Canonical.Tree -> Option<string>, q: Request): Row -> bool
  {
    r => Matches(text, q, r)
  }

  /** A cursor that is not positive is not applied. */
  predicate Beyond(cursor: int, r: Row)
  {
    cursor > 0 ==> r.id > cursor
  }

  function BeyondCursor(cursor: int): Row -> bool
  {
    r => Beyond(cursor, r)
  }

  function Both(p: Row -> bool, q: Row -> bool): Row -> bool
  {
    r => p(r) && q(r)
  }

  function Take(rows: seq<Row>, limit: int): seq<Row>
  {
    if 0 < limit < |rows| then rows[..limit] else rows
  }

  function Query(log: seq<Row>, tenant: string, where: Row -> bool, cursor: int, limit: int): seq<Row>
  {
    Take(SortById(Select(TenantRows(log, tenant), Both(where, BeyondCursor(cursor)))), limit)
  }

  function NextCursor(rows: seq<Row>): int
  {
    if rows == [] then 0 else rows[|rows| - 1].id
  }

  predicate WellFormedRequest(q: Request)
  {
    && q.tenant != "" && !q.from.Malformed? && !q.to.Malformed? && !q.cursor.Malformed?
    && !q.limit.Malformed? && (q.limit.Given? ==> q.limit.n > 0)
  }

  function Cursor(q: Request): int
  {
    if q.cursor.Given? then q.cursor.n else 0
  }

  function Limit(cfg: Config, q: Request): int
  {
    if !q.limit.Given? then cfg.defaultPageSize
    else if q.limit.n > cfg.maxPageSize then cfg.maxPageSize
    else q.limit.n
  }

  /** The tenant is compared as a UUID, so `db` turns its text into the stored one. */
  method ServeList(db: Columns, text: Canonical.Tree -> Option<string>, cfg: Config, log: seq<Row>, q: Request)
    returns (resp: Response)
    ensures resp.BadRequest? <==> !WellFormedRequest(q)
    ensures resp.Page? ==>
              && resp.entries == Query(log, db.tenant(q.tenant), Where(text, q), Cursor(q), Limit(cfg, q))
              && resp.next == NextCursor(resp.entries)
  {
    if q.tenant == "" || q.from.Malformed? || q.to.Malformed? {
      return BadRequest;
    }
    var cursor := 0;
    match q.cursor {
      case Absent =>
      case Malformed => return BadRequest;
      case Given(c) => cursor := c;
    }
    var limit := cfg.defaultPageSize;
    match q.limit {
      case Absent =>
      case Malformed => return BadRequest;
      case Given(n) =>
        if n <= 0 {
          return BadRequest;
        }
        limit := if n > cfg.maxPageSize then cfg.maxPageSize else n;
    }
    var rows := Query(log, db.tenant(q.tenant), Where(text, q), cursor, limit);
    var next := 0;
    if |rows| > 0 {
      next := rows[|rows| - 1].id;
    }
    return Page(rows, next);
  }

  // ------------------------------------------- queries as slices of one view

  /** All matching rows of a tenant, in commit order. */
  function View(log: seq<Row>, tenant: string, where: Row -> bool): seq<Row>
  {
    Select(TenantRows(log, tenant), where)
  }

  /** p separates the rows at or below the cursor from those beyond it. */
  ghost predicate Splits(view: seq<Row>, cursor: int, p: nat)
  {
    && p <= |view|
    && (forall i :: 0 <= i < p ==> view[i].id <= cursor)
    && (forall i :: p <= i < |view| ==> cursor < view[i].id)
  }

  lemma {:induction false} SplitExists(view: seq<Row>, cursor: int)
    requires IdsAscend(view)
    ensures exists p: nat :: Splits(view, cursor, p)
  {
    var n := |view| - 1;
    if view == [] {
      assert Splits(view, cursor, 0);
    } else if view[n].id <= cursor {
      assert Splits(view, cursor, |view|);
    } else {
      SplitExists(view[..n], cursor);
      var p: nat :| Splits(view[..n], cursor, p);
      assert forall i :: p <= i < n ==> view[i] == view[..n][i];
      assert forall i :: 0 <= i < p ==> view[i] == view[..n][i];
      assert Splits(view, cursor, p);
    }
  }

  /** How many rows of an id-ordered view lie at or below the cursor. */
  ghost function Position(view: seq<Row>, cursor: int): (p: nat)
    requires IdsAscend(view)
    ensures Splits(view, cursor, p)
  {
    SplitExists(view, cursor);
    var p: nat :| Splits(view, cursor, p);
    p
  }

  lemma {:induction false} SelectBoth(rows: seq<Row>, p: Row -> bool, q: Row -> bool)
    ensures Select(rows, Both(p, q)) == Select(Select(rows, p), q)
  {
    if rows != [] {
      var n := |rows| - 1;
      SelectBoth(rows[..n], p, q);
      var inner := Select(rows, p);
      if p(rows[n]) {
        assert inner == Select(rows[..n], p) + [rows[n]];
        assert inner[..|inner| - 1] == Select(rows[..n], p);
      } else {
        assert inner == Select(rows[..n], p);
      }
    }
  }

  lemma {:induction false} SelectNone(rows: seq<Row>, p: Row -> bool)
    requires forall i :: 0 <= i < |rows| ==> !p(rows[i])
    ensures Select(rows, p) == []
  {
    if rows != [] { SelectNone(rows[..|rows| - 1], p); }
  }

  lemma SuffixSnoc(view: seq<Row>, p: nat)
    requires p < |view|
    ensures view[p..] == view[..|view| - 1][p..] + [view[|view| - 1]]
  {
  }

  /** In an id-ordered view the rows beyond a cursor are a suffix. */
  lemma {:induction false} BeyondIsSuffix(view: seq<Row>, cursor: int, p: nat)
    requires Splits(view, cursor, p) && forall i :: 0 <= i < |view| ==> view[i].id > 0
    ensures Select(view, BeyondCursor(cursor)) == view[p..]
  {
    if p == |view| {
      SelectNone(view, BeyondCursor(cursor));
    } else {
      BeyondIsSuffix(view[..|view| - 1], cursor, p);
      SuffixSnoc(view, p);
    }
  }

  /** A view whose ids ascend, as every reachable ledger provides. */
  ghost predicate GoodView(view: seq<Row>)
  {
    IdsAscend(view) && forall i :: 0 <= i < |view| ==> view[i].id > 0
  }

  ghost function PageOf(view: seq<Row>, cursor: int, limit: int): seq<Row>
    requires IdsAscend(view)
  {
    Take(view[Position(view, cursor)..], limit)
  }

  lemma QueryIsSlice(log: seq<Row>, tenant: string, where: Row -> bool, cursor: int, limit: int)
    requires GoodView(View(log, tenant, where))
    ensures var view := View(log, tenant, where);
            Query(log, tenant, where, cursor, limit) == PageOf(view, cursor, limit)
  {
    var view := View(log, tenant, where);
    SelectBoth(TenantRows(log, tenant), where, BeyondCursor(cursor));
    BeyondIsSuffix(view, cursor, Position(view, cursor));
    SortedAlready(view[Position(view, cursor)..]);
  }

  // ------------------------------------------------------------ what a page holds

  /** The row is one the request asks for. */
  ghost predicate Answers(db: Columns, text: Canonical.Tree -> Option<string>, q: Request, r: Row)
  {
    && r.tenant == db.tenant(q.tenant)
    && (q.action != "" ==> r.action == q.action)
    && (q.actorId != "" ==> "id" in r.actor && text(r.actor["id"]) == Some(q.actorId))
    && (q.from.Given? && q.from.n != ZERO_TIME ==> q.from.n <= r.createdAt)
    && (q.to.Given? && q.to.n != ZERO_TIME ==> r.createdAt <= q.to.n)
    && (q.cursor.Given? && q.cursor.n > 0 ==> r.id > q.cursor.n)
  }

  /** The page is as long as it may be: the limit asked for, no more than the configured
      maximum, or the default. */
  ghost predicate Full(cfg: Config, q: Request, n: nat)
  {
    if q.limit.Given? then n == (if q.limit.n < cfg.maxPageSize then q.limit.n else cfg.maxPageSize)
    else n == cfg.defaultPageSize
  }

  lemma ViewMember(log: seq<Row>, tenant: string, where: Row -> bool, r: Row)
    ensures r in View(log, tenant, where) <==> r in log && r.tenant == tenant && where(r)
  {
    TenantMember(log, tenant, r);
    SelectMember(TenantRows(log, tenant), where, r);
  }

  lemma SliceMember(view: seq<Row>, cursor: int, limit: int, r: Row)
    requires GoodView(view)
    ensures var page := PageOf(view, cursor, limit);
            && (r in page ==> r in view && r.id > cursor)
            && (r in view && r.id > cursor && r !in page ==> page != [] && |page| == limit && page[|page| - 1].id < r.id)
  {
    var p := Position(view, cursor);
    var page := PageOf(view, cursor, limit);
    if r in page {
      var i :| 0 <= i < |page| && page[i] == r;
      assert view[p + i] == r;
    }
    if r in view && r.id > cursor && r !in page {
      var i :| 0 <= i < |view| && view[i] == r;
      Missing(view, p, limit, i);
    }
  }

  lemma Missing(view: seq<Row>, p: nat, limit: int, i: nat)
    requires IdsAscend(view) && p <= i < |view| && view[i] !in Take(view[p..], limit)
    ensures var page := Take(view[p..], limit); page != [] && |page| == limit && page[|page| - 1].id < view[i].id
  {
    var page := Take(view[p..], limit);
    assert forall k :: 0 <= k < |page| ==> page[k] == view[p + k];
    assert i - p >= |page|;
  }

  lemma AnswersIsWhere(db: Columns, text: Canonical.Tree -> Option<string>, q: Request, r: Row)
    requires r.id > 0
    ensures Answers(db, text, q, r) <==> r.tenant == db.tenant(q.tenant) && Where(text, q)(r) && r.id > Cursor(q)
  {
  }

  /** In every reachable ledger a page holds only rows the request asks for, and leaves one out
      only if it is full and the row's id is beyond its last. */
  lemma PageMeaning(env: Env, actions: seq<Action>, text: Canonical.Tree -> Option<string>, cfg: Config, q: Request,
                    page: seq<Row>, r: Row)
    requires page == Query(Run(env, actions).log, env.db.tenant(q.tenant), Where(text, q), Cursor(q), Limit(cfg, q))
    ensures r in page ==> r in Run(env, actions).log && Answers(env.db, text, q, r)
    ensures r in Run(env, actions).log && Answers(env.db, text, q, r) && r !in page ==>
              Full(cfg, q, |page|) && page != [] && page[|page| - 1].id < r.id
  {
    var log := Run(env, actions).log;
    var view := View(log, env.db.tenant(q.tenant), Where(text, q));
    ReachableView(env, actions, env.db.tenant(q.tenant), Where(text, q));
    QueryIsSlice(log, env.db.tenant(q.tenant), Where(text, q), Cursor(q), Limit(cfg, q));
    SliceMember(view, Cursor(q), Limit(cfg, q), r);
    ViewMember(log, env.db.tenant(q.tenant), Where(text, q), r);
    if r in log {
      PositiveId(env, actions, r);
      AnswersIsWhere(env.db, text, q, r);
    }
  }

  lemma PositiveId(env: Env, actions: seq<Action>, r: Row)
    requires r in Run(env, actions).log
    ensures r.id > 0
  {
    var s := Run(env, actions);
    Reachable(env, actions);
    var k :| 0 <= k < |s.log| && s.log[k] == r;
    assert RowOk(s, s.log[k]);
  }

  // ------------------------------------------------------------ sessions

  /** The cursor sent with fetch i: the caller's own, then each page's `next`. */
  function CursorAt(pages: seq<seq<Row>>, cursor: int, i: nat): int
    requires i <= |pages|
  {
    if i == 0 then cursor else NextCursor(pages[i - 1])
  }

  /** Element i extends the element before it. */
  ghost predicate Continues<T>(xs: seq<seq<T>>, i: nat)
    requires 0 < i < |xs|
  {
    xs[i - 1] <= xs[i]
  }

  /** Tables the ledger passes through: logs[i] is the table after the interleaving
      runs[i], and each interleaving continues the one before. */
  ghost predicate Tables(env: Env, runs: seq<seq<Action>>, logs: seq<seq<Row>>)
  {
    && |runs| == |logs|
    && (forall i :: 0 < i < |runs| ==> Continues(runs, i))
    && (forall i :: 0 <= i < |runs| ==> TableAt(env, runs, logs, i))
  }

  ghost predicate TableAt(env: Env, runs: seq<seq<Action>>, logs: seq<seq<Row>>, i: nat)
    requires i < |runs| == |logs|
  {
    logs[i] == Run(env, runs[i]).log
  }

  /** Fetch i reads the table logs[i] with the cursor the page before returned. */
  ghost predicate Session(logs: seq<seq<Row>>, tenant: string, where: Row -> bool,
                          cursor: int, limits: seq<int>, pages: seq<seq<Row>>)
  {
    && |logs| == |limits| == |pages|
    && (forall i :: 0 <= i < |pages| ==> FetchAt(logs, tenant, where, cursor, limits, pages, i))
  }

  ghost predicate FetchAt(logs: seq<seq<Row>>, tenant: string, where: Row -> bool,
                          cursor: int, limits: seq<int>, pages: seq<seq<Row>>, i: nat)
    requires i < |pages| == |limits| == |logs|
  {
    pages[i] == Query(logs[i], tenant, where, CursorAt(pages, cursor, i), limits[i])
  }

  function Flatten(pages: seq<seq<Row>>): seq<Row>
  {
    if pages == [] then [] else Flatten(pages[..|pages| - 1]) + pages[|pages| - 1]
  }

  lemma ReachableView(env: Env, actions: seq<Action>, tenant: string, where: Row -> bool)
    ensures GoodView(View(Run(env, actions).log, tenant, where))
  {
    var s := Run(env, actions);
    var rows := TenantRows(s.log, tenant);
    Reachable(env, actions);
    assert Chain(rows);
    SelectAscends(rows, where);
    var view := View(s.log, tenant, where);
    forall i | 0 <= i < |view|
      ensures view[i].id > 0
    {
      SelectMember(rows, where, view[i]);
      TenantRowsMember(s.log, tenant, view[i]);
      var k :| 0 <= k < |s.log| && s.log[k] == view[i];
      assert RowOk(s, s.log[k]);
    }
  }

  lemma {:induction false} ViewGrows(log: seq<Row>, more: seq<Row>, tenant: string, where: Row -> bool)
    ensures View(log, tenant, where) <= View(log + more, tenant, where)
  {
    if more == [] {
      assert log + more == log;
    } else {
      var n := |more| - 1;
      ViewGrows(log, more[..n], tenant, where);
      assert log + more == log + more[..n] + [more[n]];
      TenantRowsAppend(log + more[..n], more[n], tenant);
      var rows := TenantRows(log + more[..n], tenant);
      if more[n].tenant == tenant {
        assert (rows + [more[n]])[..|rows|] == rows;
      } else {
        assert rows + [] == rows;
      }
    }
  }

  lemma RunViewGrows(env: Env, before: seq<Action>, after: seq<Action>, tenant: string, where: Row -> bool)
    requires before <= after
    ensures View(Run(env, before).log, tenant, where) <= View(Run(env, after).log, tenant, where)
  {
    var rest := after[|before|..];
    assert after == before + rest;
    AppendOnly(env, before, rest);
    var log, log' := Run(env, before).log, Run(env, after).log;
    assert log' == log + log'[|log|..];
    ViewGrows(log, log'[|log|..], tenant, where);
  }

  lemma PositionOfMember(view: seq<Row>, i: nat)
    requires IdsAscend(view) && i < |view|
    ensures Position(view, view[i].id) == i + 1
  {
    assert Splits(view, view[i].id, i + 1);
    SplitUnique(view, view[i].id, i + 1, Position(view, view[i].id));
  }

  lemma SplitUnique(view: seq<Row>, cursor: int, p: nat, q: nat)
    requires Splits(view, cursor, p) && Splits(view, cursor, q)
    ensures p == q
  {
    assert p < |view| ==> cursor < view[p].id;
    assert q < |view| ==> cursor < view[q].id;
  }

  // --------------------------------------------- sessions over growing views

  ghost predicate GrowingViews(views: seq<seq<Row>>)
  {
    && (forall i :: 0 <= i < |views| ==> GoodAt(views, i))
    && (forall i :: 0 < i < |views| ==> Continues(views, i))
  }

  ghost predicate GoodAt(views: seq<seq<Row>>, i: nat)
    requires i < |views|
  {
    GoodView(views[i])
  }

  ghost predicate Fetches(views: seq<seq<Row>>, cursor: int, limits: seq<int>, pages: seq<seq<Row>>)
  {
    && |views| == |limits| == |pages|
    && forall i :: 0 <= i < |pages| ==> CutAt(views, cursor, limits, pages, i)
  }

  ghost predicate CutAt(views: seq<seq<Row>>, cursor: int, limits: seq<int>, pages: seq<seq<Row>>, i: nat)
    requires i < |pages| == |limits| == |views|
  {
    IdsAscend(views[i]) && pages[i] == PageOf(views[i], CursorAt(pages, cursor, i), limits[i])
  }

  /** The rows are those between the cursors, and `next` is the id of the last one. */
  ghost predicate Covers(view: seq<Row>, cursor: int, next: int, rows: seq<Row>)
  {
    && IdsAscend(view)
    && Position(view, cursor) < Position(view, next)
    && rows == view[Position(view, cursor)..Position(view, next)]
    && next == view[Position(view, next) - 1].id
  }

  lemma PageCovers(view: seq<Row>, cursor: int, limit: int)
    requires GoodView(view)
    ensures var page := PageOf(view, cursor, limit);
            if page == [] then Position(view, cursor) == |view| else Covers(view, cursor, NextCursor(page), page)
  {
    var page := PageOf(view, cursor, limit);
    var p := Position(view, cursor);
    if page != [] {
      var q := p + |page|;
      assert page == view[p..q] && NextCursor(page) == view[q - 1].id;
      PositionOfMember(view, q - 1);
    }
  }

  lemma PositionStable(before: seq<Row>, view: seq<Row>, cursor: int)
    requires IdsAscend(before) && IdsAscend(view) && before <= view && Position(before, cursor) < |before|
    ensures Position(view, cursor) == Position(before, cursor)
  {
    var p := Position(before, cursor);
    assert view[p] == before[p] && cursor < view[p].id;
    assert forall i :: 0 <= i < p ==> view[i] == before[i];
    assert Splits(view, cursor, p);
    SplitUnique(view, cursor, p, Position(view, cursor));
  }

  /** Rows committed later do not move the rows at or below a cursor already reached. */
  lemma CoversStable(before: seq<Row>, view: seq<Row>, cursor: int, next: int, rows: seq<Row>)
    requires GoodView(before) && GoodView(view) && before <= view && Covers(before, cursor, next, rows)
    ensures Covers(view, cursor, next, rows)
  {
    var q := Position(before, next);
    PositionStable(before, view, cursor);
    assert view[q - 1] == before[q - 1];
    PositionOfMember(view, q - 1);
  }

  lemma CoversJoin(view: seq<Row>, c0: int, c1: int, c2: int, a: seq<Row>, b: seq<Row>)
    requires Covers(view, c0, c1, a) && Covers(view, c1, c2, b)
    ensures Covers(view, c0, c2, a + b)
  {
  }

  /** One more fetch, from a table that may have grown, extends what is covered. */
  lemma FetchStep(before: seq<Row>, view: seq<Row>, cursor: int, c: int, limit: int, rows: seq<Row>)
    requires GoodView(before) && GoodView(view) && before <= view && Covers(before, cursor, c, rows)
    ensures var page := PageOf(view, c, limit);
            if page == [] then rows == view[Position(view, cursor)..]
            else Covers(view, cursor, NextCursor(page), rows + page)
  {
    var page := PageOf(view, c, limit);
    CoversStable(before, view, cursor, c, rows);
    PageCovers(view, c, limit);
    if page != [] {
      CoversJoin(view, cursor, c, NextCursor(page), rows, page);
    } else {
      assert view[Position(view, cursor)..|view|] == view[Position(view, cursor)..];
    }
  }

  /** What fetch n leaves behind, given what the fetches before it covered. */
  lemma FetchAfter(views: seq<seq<Row>>, cursor: int, limits: seq<int>, pages: seq<seq<Row>>, n: nat, rows: seq<Row>)
    requires GrowingViews(views) && Fetches(views, cursor, limits, pages) && 0 < n < |pages|
    requires Covers(views[n - 1], cursor, NextCursor(pages[n - 1]), rows)
    ensures GoodView(views[n])
    ensures if pages[n] == [] then rows == views[n][Position(views[n], cursor)..]
            else Covers(views[n], cursor, NextCursor(pages[n]), rows + pages[n])
  {
    assert GoodAt(views, n) && GoodAt(views, n - 1) && Continues(views, n);
    assert CutAt(views, cursor, limits, pages, n);
    FetchStep(views[n - 1], views[n], cursor, NextCursor(pages[n - 1]), limits[n], rows);
  }

  lemma FlattenSnoc(pages: seq<seq<Row>>, n: nat)
    requires n < |pages|
    ensures Flatten(pages[..n + 1]) == Flatten(pages[..n]) + pages[n]
  {
    assert pages[..n + 1][..n] == pages[..n];
  }

  ghost predicate FullAt(pages: seq<seq<Row>>, i: nat)
    requires i < |pages|
  {
    pages[i] != []
  }

  /** The first n pages are not empty. */
  ghost predicate FullPages(pages: seq<seq<Row>>, n: nat)
    requires n <= |pages|
  {
    forall i :: 0 <= i < n ==> FullAt(pages, i)
  }

  lemma {:induction false} FetchesCover(views: seq<seq<Row>>, cursor: int, limits: seq<int>, pages: seq<seq<Row>>, n: nat)
    requires GrowingViews(views) && Fetches(views, cursor, limits, pages) && n < |pages|
    requires FullPages(pages, n + 1)
    ensures Covers(views[n], cursor, NextCursor(pages[n]), Flatten(pages[..n + 1]))
  {
    assert FullAt(pages, n);
    FlattenSnoc(pages, n);
    if n == 0 {
      assert GoodAt(views, 0) && CutAt(views, cursor, limits, pages, 0);
      PageCovers(views[0], cursor, limits[0]);
      assert [] + pages[0] == pages[0];
    } else {
      FetchesCover(views, cursor, limits, pages, n - 1);
      FetchAfter(views, cursor, limits, pages, n, Flatten(pages[..n]));
    }
  }

  lemma LastFetchEmpty(views: seq<seq<Row>>, cursor: int, limits: seq<int>, pages: seq<seq<Row>>, n: nat)
    requires GrowingViews(views) && Fetches(views, cursor, limits, pages) && n < |pages|
    requires pages[n] == [] && FullPages(pages, n)
    ensures IdsAscend(views[n]) && Flatten(pages[..n + 1]) == views[n][Position(views[n], cursor)..]
  {
    FlattenSnoc(pages, n);
    assert Flatten(pages[..n]) + [] == Flatten(pages[..n]);
    if n == 0 {
      assert GoodAt(views, 0) && CutAt(views, cursor, limits, pages, 0);
      PageCovers(views[0], cursor, limits[0]);
      assert Flatten(pages[..0]) == [];
    } else {
      FetchesCover(views, cursor, limits, pages, n - 1);
      FetchAfter(views, cursor, limits, pages, n, Flatten(pages[..n]));
    }
  }

  // ------------------------------------------------------------ main theorems

  ghost function Views(logs: seq<seq<Row>>, tenant: string, where: Row -> bool): seq<seq<Row>>
  {
    seq(|logs|, i requires 0 <= i < |logs| => View(logs[i], tenant, where))
  }

  lemma TablesGrow(env: Env, runs: seq<seq<Action>>, logs: seq<seq<Row>>, tenant: string, where: Row -> bool)
    requires Tables(env, runs, logs)
    ensures GrowingViews(Views(logs, tenant, where))
  {
    var views := Views(logs, tenant, where);
    forall i | 0 <= i < |views|
      ensures GoodAt(views, i)
    {
      assert TableAt(env, runs, logs, i);
      ReachableView(env, runs[i], tenant, where);
    }
    forall i | 0 < i < |views|
      ensures Continues(views, i)
    {
      assert Continues(runs, i) && TableAt(env, runs, logs, i - 1) && TableAt(env, runs, logs, i);
      RunViewGrows(env, runs[i - 1], runs[i], tenant, where);
    }
  }

  lemma SessionFetches(logs: seq<seq<Row>>, tenant: string, where: Row -> bool,
                       cursor: int, limits: seq<int>, pages: seq<seq<Row>>)
    requires Session(logs, tenant, where, cursor, limits, pages) && GrowingViews(Views(logs, tenant, where))
    ensures Fetches(Views(logs, tenant, where), cursor, limits, pages)
  {
    var views := Views(logs, tenant, where);
    forall i | 0 <= i < |pages|
      ensures CutAt(views, cursor, limits, pages, i)
    {
      assert GoodAt(views, i) && FetchAt(logs, tenant, where, cursor, limits, pages, i);
      QueryIsSlice(logs[i], tenant, where, CursorAt(pages, cursor, i), limits[i]);
    }
  }

  lemma SessionOverViews(env: Env, runs: seq<seq<Action>>, logs: seq<seq<Row>>, tenant: string, where: Row -> bool,
                         cursor: int, limits: seq<int>, pages: seq<seq<Row>>) returns (views: seq<seq<Row>>)
    requires Tables(env, runs, logs) && Session(logs, tenant, where, cursor, limits, pages) && pages != []
    ensures GrowingViews(views) && Fetches(views, cursor, limits, pages)
    ensures |views| == |logs| && views[|logs| - 1] == View(logs[|logs| - 1], tenant, where)
  {
    views := Views(logs, tenant, where);
    TablesGrow(env, runs, logs, tenant, where);
    SessionFetches(logs, tenant, where, cursor, limits, pages);
  }

  lemma FetchesCoverAll(views: seq<seq<Row>>, cursor: int, limits: seq<int>, pages: seq<seq<Row>>, last: seq<Row>)
    requires GrowingViews(views) && Fetches(views, cursor, limits, pages) && pages != []
    requires FullPages(pages, |pages|)
    requires last == views[|pages| - 1]
    ensures Covers(last, cursor, NextCursor(pages[|pages| - 1]), Flatten(pages))
  {
    FetchesCover(views, cursor, limits, pages, |pages| - 1);
    assert pages[..|pages|] == pages;
  }

  /** While pages keep coming, together they are exactly the matching rows between the
      first cursor and the last one: none skipped, none repeated, in id order. */
  lemma PagesAreExact(env: Env, runs: seq<seq<Action>>, logs: seq<seq<Row>>, tenant: string, where: Row -> bool,
                      cursor: int, limits: seq<int>, pages: seq<seq<Row>>)
    requires Tables(env, runs, logs) && Session(logs, tenant, where, cursor, limits, pages) && pages != []
    requires FullPages(pages, |pages|)
    ensures Covers(View(logs[|logs| - 1], tenant, where), cursor, NextCursor(pages[|pages| - 1]), Flatten(pages))
  {
    var views := SessionOverViews(env, runs, logs, tenant, where, cursor, limits, pages);
    FetchesCoverAll(views, cursor, limits, pages, View(logs[|logs| - 1], tenant, where));
  }

  /** The rows are all those of the view beyond the cursor, each once, in id order. */
  ghost predicate Complete(rows: seq<Row>, view: seq<Row>, cursor: int)
  {
    IdsAscend(rows) && forall r :: r in rows <==> r in view && r.id > cursor
  }

  lemma SuffixMembers(view: seq<Row>, cursor: int)
    requires IdsAscend(view)
    ensures Complete(view[Position(view, cursor)..], view, cursor)
  {
    var p := Position(view, cursor);
    forall r | r in view && r.id > cursor
      ensures r in view[p..]
    {
      var i :| 0 <= i < |view| && view[i] == r;
      assert view[p..][i - p] == r;
    }
  }

  lemma FetchesComplete(views: seq<seq<Row>>, cursor: int, limits: seq<int>, pages: seq<seq<Row>>, last: seq<Row>)
    requires GrowingViews(views) && Fetches(views, cursor, limits, pages) && pages != []
    requires pages[|pages| - 1] == [] && FullPages(pages, |pages| - 1)
    requires last == views[|pages| - 1]
    ensures Complete(Flatten(pages), last, cursor)
  {
    LastFetchEmpty(views, cursor, limits, pages, |pages| - 1);
    assert pages[..|pages|] == pages;
    SuffixMembers(last, cursor);
  }

  /** A session that ends at the first empty page has returned every matching row
      beyond its first cursor, as of that last fetch, exactly once and in id order. */
  lemma PagingIsComplete(env: Env, runs: seq<seq<Action>>, logs: seq<seq<Row>>, tenant: string, where: Row -> bool,
                         cursor: int, limits: seq<int>, pages: seq<seq<Row>>)
    requires Tables(env, runs, logs) && Session(logs, tenant, where, cursor, limits, pages) && pages != []
    requires pages[|pages| - 1] == [] && FullPages(pages, |pages| - 1)
    ensures Complete(Flatten(pages), View(logs[|logs| - 1], tenant, where), cursor)
  {
    var views := SessionOverViews(env, runs, logs, tenant, where, cursor, limits, pages);
    FetchesComplete(views, cursor, limits, pages, View(logs[|logs| - 1], tenant, where));
  }
}
