/** Chain verification (audit-service verify.go) and what a verified segment proves. */
module Verifier {
  import opened Json
  import opened Hasher
  import opened Ledger
  import opened AuditStore

  datatype Reason = LinkMismatch | RecomputeMismatch

  datatype Verdict =
    | Ok(checked: nat, lastId: int)
    | Broken(at: int, expected: Bytes, actual: Bytes, reason: Reason, checked: nat)
    | InternalError

  // --------------------------------------------------------- specification

  ghost predicate LinkOk(rows: seq<Row>, i: nat)
    requires i < |rows|
  {
    i > 0 ==> rows[i].prevHash == rows[i - 1].entryHash
  }

  ghost predicate GoodAt(lib: Library, rows: seq<Row>, i: nat)
    requires i < |rows|
  {
    LinkOk(rows, i) && Recomputes(lib, rows[i])
  }

  /** Every row recomputes and every row but the first links to its predecessor. The
      first row's prev_hash is only an anchor. */
  ghost predicate Intact(lib: Library, rows: seq<Row>)
  {
    AllRecompute(lib, rows) && Linked(rows)
  }

  ghost predicate FirstBad(lib: Library, rows: seq<Row>, k: nat)
  {
    k < |rows| && !GoodAt(lib, rows, k) && forall i :: 0 <= i < k ==> GoodAt(lib, rows, i)
  }

  /** What is reported about an offending row: the link is checked before the hash. */
  ghost predicate Reports(lib: Library, rows: seq<Row>, k: nat, v: Verdict)
    requires k < |rows|
  {
    if !LinkOk(rows, k) then
      k > 0 && v == Broken(rows[k].id, rows[k - 1].entryHash, rows[k].prevHash, LinkMismatch, k + 1)
    else
      match Compute(lib, ToEntry(rows[k]))
      case None => v == InternalError
      case Some(got) => v == Broken(rows[k].id, got, rows[k].entryHash, RecomputeMismatch, k + 1)
  }

  lemma IntactIsGoodEverywhere(lib: Library, rows: seq<Row>)
    ensures Intact(lib, rows) <==> forall i :: 0 <= i < |rows| ==> GoodAt(lib, rows, i)
  {
    if forall i :: 0 <= i < |rows| ==> GoodAt(lib, rows, i) {
      forall r | r in rows
        ensures Recomputes(lib, r)
      {
        var i :| 0 <= i < |rows| && rows[i] == r;
        assert GoodAt(lib, rows, i);
      }
      forall i | 0 < i < |rows|
        ensures rows[i].prevHash == rows[i - 1].entryHash
      {
        assert GoodAt(lib, rows, i);
      }
    }
  }

  // --------------------------------------------------------- the handler loop

  lemma OffenceReported(lib: Library, rows: seq<Row>, k: nat, v: Verdict)
    requires FirstBad(lib, rows, k) && Reports(lib, rows, k, v) && !v.Ok?
    ensures !Intact(lib, rows)
    ensures exists k :: FirstBad(lib, rows, k) && Reports(lib, rows, k, v)
    ensures (forall r :: r in rows ==> |r.prevHash| == HASH_SIZE) ==> !v.InternalError?
  {
    IntactIsGoodEverywhere(lib, rows);
    assert rows[k] in rows;
  }

  method Verify(lib: Library, rows: seq<Row>) returns (v: Verdict)
    ensures v.Ok? <==> Intact(lib, rows)
    ensures v.Ok? ==> v.checked == |rows| && (rows != [] ==> v.lastId == rows[|rows| - 1].id)
    ensures !v.Ok? ==> exists k :: FirstBad(lib, rows, k) && Reports(lib, rows, k, v)
    ensures (forall r :: r in rows ==> |r.prevHash| == HASH_SIZE) ==> !v.InternalError?
  {
    var prev: Bytes := ZeroHash();
    var first, checked, lastId := true, 0, 0;
    while checked < |rows|
      invariant 0 <= checked <= |rows|
      invariant first == (checked == 0)
      invariant checked > 0 ==> prev == rows[checked - 1].entryHash && lastId == rows[checked - 1].id
      invariant forall i :: 0 <= i < checked ==> GoodAt(lib, rows, i)
    {
      var e := rows[checked];
      ghost var k := checked;
      assert LinkOk(rows, k) <==> first || e.prevHash == prev;
      checked := checked + 1;
      lastId := e.id;
      if !first && e.prevHash != prev {
        v := Broken(e.id, prev, e.prevHash, LinkMismatch, checked);
        OffenceReported(lib, rows, k, v);
        return;
      }
      var got := ComputeHash(lib, ToEntry(e));
      if got.None? {
        v := InternalError;
        OffenceReported(lib, rows, k, v);
        return;
      }
      if got.value != e.entryHash {
        v := Broken(e.id, got.value, e.entryHash, RecomputeMismatch, checked);
        OffenceReported(lib, rows, k, v);
        return;
      }
      prev := e.entryHash;
      first := false;
    }
    IntactIsGoodEverywhere(lib, rows);
    return Ok(checked, lastId);
  }

  // ----------------------------------------- which reachable segments verify

  lemma SegmentSnoc(rows: seq<Row>, from: int, to: int)
    requires rows != []
    ensures var n := |rows| - 1;
            Segment(rows, from, to) == Segment(rows[..n], from, to) + (if InSegment(rows[n], from, to) then [rows[n]] else [])
  {
  }

  lemma Slices<T>(s: seq<T>, n: nat, i: nat, j: nat)
    requires i <= j <= n < |s|
    ensures s[..n][i..j] == s[i..j]
    ensures s[i..n] + [s[n]] == s[i..n + 1] && s[n..n + 1] == [s[n]]
  {
  }

  /** Ascending rows up to an upper bound are all below it. */
  lemma LastInBound(rows: seq<Row>, n: nat, to: int)
    requires IdsAscend(rows) && 0 < n < |rows| && (to > 0 ==> rows[n].id <= to)
    ensures to > 0 ==> rows[n - 1].id <= to
  {
    assert rows[n - 1].id < rows[n].id;
  }

  /** A row after one in the interval leaves it only at the upper bound. */
  lemma LeavesAbove(rows: seq<Row>, i: nat, n: nat, from: int, to: int)
    requires IdsAscend(rows) && i < n < |rows| && InSegment(rows[i], from, to) && !InSegment(rows[n], from, to)
    ensures to > 0 && rows[n].id > to
  {
    assert rows[i].id < rows[n].id;
  }

  /** An id interval of ascending rows is a contiguous run of them. */
  lemma {:induction false} SegmentIsRun(rows: seq<Row>, from: int, to: int) returns (i: nat, j: nat)
    requires IdsAscend(rows)
    ensures i <= j <= |rows| && Segment(rows, from, to) == rows[i..j]
    ensures i < j && (to > 0 ==> rows[|rows| - 1].id <= to) ==> j == |rows|
    ensures i < j ==> InSegment(rows[i], from, to)
  {
    if rows == [] {
      return 0, 0;
    }
    var n := |rows| - 1;
    SegmentSnoc(rows, from, to);
    i, j := SegmentIsRun(rows[..n], from, to);
    Slices(rows, n, i, j);
    if !InSegment(rows[n], from, to) {
      if i < j { LeavesAbove(rows, i, n, from, to); }
    } else if i == j {
      i, j := n, n + 1;
    } else {
      LastInBound(rows, n, to);
      j := n + 1;
    }
  }

  /** In every reachable ledger a streamed segment is a contiguous run of the tenant's chain. */
  lemma StreamIsRun(env: Env, actions: seq<Action>, tenant: string, from: int, to: int) returns (i: nat, j: nat)
    ensures var rows := TenantRows(Run(env, actions).log, env.db.tenant(tenant));
            i <= j <= |rows| && StreamForVerify(env.db, Run(env, actions).log, tenant, from, to) == rows[i..j]
  {
    ChainStaysLinear(env, actions, env.db.tenant(tenant));
    i, j := SortedSegmentIsRun(TenantRows(Run(env, actions).log, env.db.tenant(tenant)), from, to);
  }

  lemma SortedSegmentIsRun(rows: seq<Row>, from: int, to: int) returns (i: nat, j: nat)
    requires IdsAscend(rows)
    ensures i <= j <= |rows| && SortById(Segment(rows, from, to)) == rows[i..j]
  {
    i, j := SegmentIsRun(rows, from, to);
    SortedAlready(rows[i..j]);
  }

  lemma RunOfChain(rows: seq<Row>, i: nat, j: nat)
    requires Chain(rows) && i <= j <= |rows|
    ensures Linked(rows[i..j]) && IdsAscend(rows[i..j])
  {
  }

  /** Every id segment of every reachable ledger is in id order and linked. */
  lemma ReachableSegmentsLink(env: Env, actions: seq<Action>, tenant: string, from: int, to: int)
    ensures var rows := StreamForVerify(env.db, Run(env, actions).log, tenant, from, to); Linked(rows) && IdsAscend(rows)
  {
    var i, j := StreamIsRun(env, actions, tenant, from, to);
    ChainStaysLinear(env, actions, env.db.tenant(tenant));
    RunOfChain(TenantRows(Run(env, actions).log, env.db.tenant(tenant)), i, j);
  }

  /** Some submitted input that the columns return unchanged made this row. */
  ghost predicate RowFixed(env: Env, actions: seq<Action>, r: Row)
  {
    exists input :: Submitted(actions, input) && Made(env, r, input) && Fixed(env.db, input)
  }

  /** The row and the inputs that can have made it are sound to compare. */
  ghost predicate RowComparable(env: Env, actions: seq<Action>, r: Row)
  {
    forall input :: Submitted(actions, input) && Made(env, r, input) ==> Comparable(env, r, input)
  }

  lemma RowVerdict(env: Env, actions: seq<Action>, r: Row)
    requires Faithful(env.lib) && RowSubmitted(env, actions, r) && RowComparable(env, actions, r)
    ensures Recomputes(env.lib, r) <==> RowFixed(env, actions, r)
  {
    var input :| Submitted(actions, input) && Made(env, r, input);
    RowRecomputesExactly(env, r, input);
    if RowFixed(env, actions, r) {
      var other :| Submitted(actions, other) && Made(env, r, other) && Fixed(env.db, other);
      FixedRecomputes(env, r, other);
    }
  }

  lemma StreamedRow(env: Env, actions: seq<Action>, tenant: string, from: int, to: int, r: Row)
    requires r in StreamForVerify(env.db, Run(env, actions).log, tenant, from, to)
    ensures RowSubmitted(env, actions, r)
  {
    var log := Run(env, actions).log;
    var i, j := StreamIsRun(env, actions, tenant, from, to);
    TenantRowsMember(log, env.db.tenant(tenant), r);
    RowsComeFromInputs(env, actions);
    var k :| 0 <= k < |log| && log[k] == r;
  }

  /** A segment of a reachable ledger verifies exactly when the columns return the input of
      each of its rows unchanged, given that no digest collides. */
  lemma SegmentVerifiesExactly(env: Env, actions: seq<Action>, tenant: string, from: int, to: int, rows: seq<Row>)
    requires Faithful(env.lib) && rows == StreamForVerify(env.db, Run(env, actions).log, tenant, from, to)
    requires forall r :: r in rows ==> RowComparable(env, actions, r)
    ensures Intact(env.lib, rows) <==> forall r :: r in rows ==> RowFixed(env, actions, r)
  {
    ReachableSegmentsLink(env, actions, tenant, from, to);
    forall r | r in rows
      ensures Recomputes(env.lib, r) <==> RowFixed(env, actions, r)
    {
      StreamedRow(env, actions, tenant, from, to, r);
      RowVerdict(env, actions, r);
    }
  }

  /** When the columns return every submitted input unchanged, every id segment of every
      tenant verifies. */
  lemma FixedInputsVerify(env: Env, actions: seq<Action>, tenant: string, from: int, to: int)
    requires forall input :: Submitted(actions, input) ==> Fixed(env.db, input)
    ensures Intact(env.lib, StreamForVerify(env.db, Run(env, actions).log, tenant, from, to))
  {
    ReachableSegmentsLink(env, actions, tenant, from, to);
    forall r | r in StreamForVerify(env.db, Run(env, actions).log, tenant, from, to)
      ensures Recomputes(env.lib, r)
    {
      StreamedRow(env, actions, tenant, from, to, r);
      var input :| Submitted(actions, input) && Made(env, r, input);
      FixedRecomputes(env, r, input);
    }
  }

  // ------------------------------------------------- inputs that do not verify

  /** A lone first append commits its row. */
  lemma OneAppendCommits(env: Env, input: Input, now: int, row: Row)
    requires input.tenant != "" && input.action != "" && NewRow(env, input, ZeroHash(), 1, now) == Some(row)
    ensures Run(env, OneAppend(0, input, now)).log == [row] && Made(env, row, input)
  {
    var r := LoneAppendCommits(env, [], 0, input, now);
    assert [] + OneAppend(0, input, now) == OneAppend(0, input, now);
    assert [] + [r] == [r];
  }

  lemma OneRowStream(db: Columns, row: Row, tenant: string)
    requires row.tenant == db.tenant(tenant)
    ensures StreamForVerify(db, [row], tenant, 0, 0) == [row]
  {
    assert [] + [row] == [row] && [row][..0] == [];
    TenantRowsAppend([], row, db.tenant(tenant));
    SegmentSnoc([row], 0, 0);
    SortedAlready([row]);
  }

  /** An input the columns change commits, and its ledger then fails verification, unless
      the two texts behind the row collide. */
  lemma ChangedInputBreaks(env: Env, input: Input, now: int, row: Row)
    requires Faithful(env.lib) && input.tenant != "" && input.action != "" && !Fixed(env.db, input)
    requires NewRow(env, input, ZeroHash(), 1, now) == Some(row) && Comparable(env, row, input)
    ensures var log := Run(env, OneAppend(0, input, now)).log;
            log == [row] && !Intact(env.lib, StreamForVerify(env.db, log, input.tenant, 0, 0))
  {
    OneAppendCommits(env, input, now, row);
    OneRowStream(env.db, row, input.tenant);
    RowRecomputesExactly(env, row, input);
    assert row in [row];
  }

  /** A tenant id in upper case is such an input: the UUID column returns lower case. */
  lemma UpperCaseTenantBreaks(env: Env, input: Input, now: int, row: Row)
    requires Faithful(env.lib) && input.action != "" && input.tenant == "A0EEBC99-9C0B-4EF8-BB6D-6BB9BD380A11"
    requires env.db.tenant(input.tenant) == "a0eebc99-9c0b-4ef8-bb6d-6bb9bd380a11"
    requires NewRow(env, input, ZeroHash(), 1, now) == Some(row) && Comparable(env, row, input)
    ensures !Intact(env.lib, StreamForVerify(env.db, Run(env, OneAppend(0, input, now)).log, input.tenant, 0, 0))
  {
    assert input.tenant[0] == 'A' && env.db.tenant(input.tenant)[0] == 'a';
    ChangedInputBreaks(env, input, now, row);
  }

  /** A payload with a negative zero is another: the JSONB column returns a plain zero. */
  lemma NegativeZeroBreaks(env: Env, input: Input, now: int, row: Row)
    requires Faithful(env.lib) && input.tenant != "" && input.action != ""
    requires input.payload == Some(map["n" := Num("-0")]) && env.db.doc(map["n" := Num("-0")]) == map["n" := Num("0")]
    requires NewRow(env, input, ZeroHash(), 1, now) == Some(row) && Comparable(env, row, input)
    ensures !Intact(env.lib, StreamForVerify(env.db, Run(env, OneAppend(0, input, now)).log, input.tenant, 0, 0))
  {
    var sent: Doc := map["n" := Num("-0")];
    var read: Doc := map["n" := Num("0")];
    assert sent["n"] != read["n"] by { assert |"-0"| != |"0"|; }
    ChangedInputBreaks(env, input, now, row);
  }

  // --------------------------------------------------------- tamper evidence

  ghost predicate Collide(lib: Library, a: Row, b: Row)
  {
    Clash(lib, ToEntry(a), ToEntry(b))
  }

  ghost predicate RowsWellFormed(rows: seq<Row>)
  {
    forall r :: r in rows ==> WellFormed(ToEntry(r))
  }

  ghost predicate SomeCollision(lib: Library, a: seq<Row>, b: seq<Row>)
  {
    exists r, q :: r in a && q in b && Collide(lib, r, q)
  }

  /** Without a collision, the entry hash determines the whole row. */
  lemma HashDeterminesRow(lib: Library, a: Row, b: Row)
    requires Faithful(lib) && WellFormed(ToEntry(a)) && WellFormed(ToEntry(b))
    requires Recomputes(lib, a) && Recomputes(lib, b) && a.entryHash == b.entryHash
    requires !Collide(lib, a, b)
    ensures a == b
  {
    TextInjective(lib, ToEntry(a), ToEntry(b));
  }

  lemma PrefixIntact(lib: Library, a: seq<Row>, n: nat)
    requires Intact(lib, a) && RowsWellFormed(a) && n <= |a|
    ensures Intact(lib, a[..n]) && RowsWellFormed(a[..n])
  {
  }

  lemma CollisionInPrefix(lib: Library, a: seq<Row>, b: seq<Row>, n: nat, m: nat)
    requires n <= |a| && m <= |b| && SomeCollision(lib, a[..n], b[..m])
    ensures SomeCollision(lib, a, b)
  {
    var r, q :| r in a[..n] && q in b[..m] && Collide(lib, r, q);
    assert r in a && q in b;
  }

  lemma LastRowsAgree(lib: Library, a: seq<Row>, b: seq<Row>)
    requires Faithful(lib) && RowsWellFormed(a) && RowsWellFormed(b)
    requires AllRecompute(lib, a) && AllRecompute(lib, b) && 0 < |a| && 0 < |b|
    requires a[|a| - 1].entryHash == b[|b| - 1].entryHash && !SomeCollision(lib, a, b)
    ensures a[|a| - 1] == b[|b| - 1]
  {
    assert a[|a| - 1] in a && b[|b| - 1] in b;
    HashDeterminesRow(lib, a[|a| - 1], b[|b| - 1]);
  }

  /** Two intact segments that end in the same hash agree row for row as far back as
      the shorter one goes, or exhibit a SHA-256 collision. */
  lemma {:induction false} LastHashFixesHistory(lib: Library, a: seq<Row>, b: seq<Row>)
    requires Faithful(lib) && RowsWellFormed(a) && RowsWellFormed(b)
    requires Intact(lib, a) && Intact(lib, b) && 0 < |a| <= |b|
    requires a[|a| - 1].entryHash == b[|b| - 1].entryHash
    ensures a == b[|b| - |a|..] || SomeCollision(lib, a, b)
  {
    var n, m := |a| - 1, |b| - 1;
    if !SomeCollision(lib, a, b) {
      LastRowsAgree(lib, a, b);
      if n > 0 {
        PrefixIntact(lib, a, n);
        PrefixIntact(lib, b, m);
        assert a[n - 1].entryHash == b[m - 1].entryHash;
        LastHashFixesHistory(lib, a[..n], b[..m]);
        if SomeCollision(lib, a[..n], b[..m]) {
          CollisionInPrefix(lib, a, b, n, m);
        } else {
          assert a == a[..n] + [a[n]];
          assert b[m - n..] == b[..m][m - n..] + [b[m]];
        }
      }
    }
  }

  /** A run of a chain, and another sequence that ends in the same row as the run, both
      suffixes of one longer sequence: with the same first row they are the same. */
  lemma SameStart(chain: seq<Row>, i: nat, j: nat, d: nat)
    requires IdsAscend(chain) && i < j <= |chain| && d < j && chain[d] == chain[i]
    ensures chain[d..j] == chain[i..j]
  {
    assert d == i;
  }

  /** Before a chain's first row there is only a row that hashes to the zero hash. */
  lemma LongerThanChain(chain: seq<Row>, b: seq<Row>)
    requires Chain(chain) && Linked(b) && 0 < |chain| < |b| && chain == b[|b| - |chain|..]
    ensures exists r :: r in b && r.entryHash == ZeroHash()
  {
    var d := |b| - |chain|;
    assert b[d] == chain[0];
    assert b[d].prevHash == b[d - 1].entryHash && b[d - 1] in b;
  }

  lemma PrefixOfChain(chain: seq<Row>, j: nat)
    requires Chain(chain) && j <= |chain|
    ensures Chain(chain[..j])
  {
  }

  /** The rows a forger would need: a collision with a genuine row, or a row whose hash is
      all zeros. */
  ghost predicate Forgery(lib: Library, chain: seq<Row>, b: seq<Row>)
  {
    || SomeCollision(lib, chain, b) || SomeCollision(lib, b, chain)
    || exists r :: r in b && r.entryHash == ZeroHash()
  }

  lemma RunFixed(lib: Library, chain: seq<Row>, i: nat, j: nat, b: seq<Row>)
    requires Faithful(lib) && Chain(chain) && Intact(lib, chain) && RowsWellFormed(chain) && i < j <= |chain|
    requires b != [] && Intact(lib, b) && RowsWellFormed(b)
    requires b[0] == chain[i] && b[|b| - 1].entryHash == chain[j - 1].entryHash
    ensures b == chain[i..j] || Forgery(lib, chain, b)
  {
    var head := chain[..j];
    PrefixIntact(lib, chain, j);
    PrefixOfChain(chain, j);
    if |head| < |b| {
      LastHashFixesHistory(lib, head, b);
      if SomeCollision(lib, head, b) {
        assert b[..|b|] == b;
        CollisionInPrefix(lib, chain, b, j, |b|);
      } else {
        LongerThanChain(head, b);
      }
    } else {
      LastHashFixesHistory(lib, b, head);
      if SomeCollision(lib, b, head) {
        assert b[..|b|] == b;
        CollisionInPrefix(lib, b, chain, |b|, j);
      } else {
        SuffixIsRun(chain, i, j, b);
      }
    }
  }

  lemma SuffixIsRun(chain: seq<Row>, i: nat, j: nat, b: seq<Row>)
    requires IdsAscend(chain) && i < j <= |chain| && 0 < |b| <= j
    requires b == chain[..j][j - |b|..] && b[0] == chain[i]
    ensures b == chain[i..j]
  {
    var d := j - |b|;
    assert chain[..j][d..] == chain[d..j];
    assert b[0] == chain[d];
    SameStart(chain, i, j, d);
  }

  /** An intact segment that keeps a ledger segment's first row and last hash is that
      segment: no interior row was edited, reordered, dropped or inserted. Otherwise it holds
      a collision with a row of the ledger, or a row whose hash is all zeros. */
  lemma InteriorTamperDetected(env: Env, actions: seq<Action>, tenant: string, from: int, to: int,
                               chain: seq<Row>, a: seq<Row>, b: seq<Row>)
    requires chain == TenantRows(Run(env, actions).log, env.db.tenant(tenant))
    requires a == StreamForVerify(env.db, Run(env, actions).log, tenant, from, to) && a != []
    requires Faithful(env.lib) && Intact(env.lib, chain) && RowsWellFormed(chain)
    requires b != [] && Intact(env.lib, b) && RowsWellFormed(b)
    requires b[0] == a[0] && b[|b| - 1].entryHash == a[|a| - 1].entryHash
    ensures b == a || Forgery(env.lib, chain, b)
  {
    ChainStaysLinear(env, actions, env.db.tenant(tenant));
    var i, j := StreamIsRun(env, actions, tenant, from, to);
    RunEnds(chain, i, j, a);
    RunFixed(env.lib, chain, i, j, b);
  }

  lemma RunEnds(chain: seq<Row>, i: nat, j: nat, a: seq<Row>)
    requires i <= j <= |chain| && a == chain[i..j] && a != []
    ensures i < j && a[0] == chain[i] && a[|a| - 1] == chain[j - 1]
  {
  }

  /** No collision and no row whose hash is the chain's own anchor. */
  ghost predicate Sound(lib: Library, a: seq<Row>)
  {
    && Faithful(lib) && RowsWellFormed(a) && Intact(lib, a) && !SomeCollision(lib, a, a)
    && forall r :: r in a ==> r.entryHash != a[0].prevHash
  }

  /** From wherever it starts, a linked sequence of genuine rows follows the chain. */
  lemma {:induction false} FollowsChain(lib: Library, a: seq<Row>, b: seq<Row>, q: nat, k: nat)
    requires Sound(lib, a) && Linked(b) && k < |b| && q < |a| && a[q] == b[0]
    requires forall i :: 0 <= i < |b| ==> b[i] in a
    ensures q + k < |a| && b[k] == a[q + k]
  {
    if k > 0 {
      FollowsChain(lib, a, b, q, k - 1);
      FollowStep(lib, a, b, q + k - 1, k);
    }
  }

  lemma FollowStep(lib: Library, a: seq<Row>, b: seq<Row>, x: nat, k: nat)
    requires Sound(lib, a) && Linked(b) && 0 < k < |b| && x < |a| && b[k - 1] == a[x] && b[k] in a
    ensures x + 1 < |a| && a[x + 1] == b[k]
  {
    assert b[k].prevHash == b[k - 1].entryHash;
    LinkedRowIsNext(lib, a, x, b[k]);
  }

  lemma LinkedRowIsNext(lib: Library, a: seq<Row>, x: nat, r: Row)
    requires Sound(lib, a) && x < |a| && r in a && r.prevHash == a[x].entryHash
    ensures x + 1 < |a| && a[x + 1] == r
  {
    var q :| 0 <= q < |a| && a[q] == r;
    SuccessorUnique(lib, a, x, q);
  }

  /** Only the next row links to a given row. */
  lemma SuccessorUnique(lib: Library, a: seq<Row>, x: nat, q: nat)
    requires Sound(lib, a) && x < |a| && q < |a| && a[q].prevHash == a[x].entryHash
    ensures q == x + 1
  {
    assert a[x] in a;
    assert a[q].prevHash == a[q - 1].entryHash && a[q - 1] in a;
    HashDeterminesRow(lib, a[q - 1], a[x]);
    if q - 1 < x { RowsDistinct(lib, a, q - 1, x); }
    if x < q - 1 { RowsDistinct(lib, a, x, q - 1); }
  }

  /** A chain that never returns to its anchor does not repeat a row. */
  lemma {:induction false} RowsDistinct(lib: Library, a: seq<Row>, x: nat, y: nat)
    requires Sound(lib, a) && x < y < |a|
    ensures a[x] != a[y]
  {
    assert a[y].prevHash == a[y - 1].entryHash && a[y - 1] in a;
    if x > 0 && a[x] == a[y] {
      assert a[x].prevHash == a[x - 1].entryHash && a[x - 1] in a;
      HashDeterminesRow(lib, a[x - 1], a[y - 1]);
      RowsDistinct(lib, a, x - 1, y - 1);
    }
  }

  /** Among rearrangements of genuine rows, the verifier accepts exactly the
      contiguous runs: cutting off either end goes unnoticed, anything else is caught. */
  lemma AcceptsExactlyContiguousRuns(lib: Library, a: seq<Row>, b: seq<Row>)
    requires Sound(lib, a) && b != []
    requires forall r :: r in b ==> r in a
    ensures Intact(lib, b) <==> exists i, j :: 0 <= i < j <= |a| && b == a[i..j]
  {
    if Intact(lib, b) {
      var i, j := IntactIsRun(lib, a, b);
    }
    if i, j :| 0 <= i < j <= |a| && b == a[i..j] {
      RunIsIntact(lib, a, i, j);
    }
  }

  lemma RunIsIntact(lib: Library, a: seq<Row>, i: nat, j: nat)
    requires Intact(lib, a) && i <= j <= |a|
    ensures Intact(lib, a[i..j])
  {
    assert forall r :: r in a[i..j] ==> r in a;
    assert Linked(a[i..j]);
  }

  ghost predicate SameAt(a: seq<Row>, b: seq<Row>, q: nat, k: nat)
  {
    k < |b| ==> q + k < |a| && b[k] == a[q + k]
  }

  lemma SameIsRun(a: seq<Row>, b: seq<Row>, q: nat)
    requires b != [] && forall k: nat :: SameAt(a, b, q, k)
    ensures q + |b| <= |a| && b == a[q..q + |b|]
  {
    assert SameAt(a, b, q, |b| - 1);
    var run := a[q..q + |b|];
    forall k: nat | k < |b|
      ensures b[k] == run[k]
    {
      assert SameAt(a, b, q, k);
    }
  }

  lemma IntactIsRun(lib: Library, a: seq<Row>, b: seq<Row>) returns (i: nat, j: nat)
    requires Sound(lib, a) && b != [] && Linked(b)
    requires forall r :: r in b ==> r in a
    ensures i < j <= |a| && b == a[i..j]
  {
    assert b[0] in a;
    var q: nat :| q < |a| && a[q] == b[0];
    forall k: nat
      ensures SameAt(a, b, q, k)
    {
      if k < |b| { FollowsChain(lib, a, b, q, k); }
    }
    SameIsRun(a, b, q);
    i, j := q, q + |b|;
  }
}
