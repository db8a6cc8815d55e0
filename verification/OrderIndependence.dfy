/** When the rollup is independent of the order of its events: exactly when no two
    accepted contributions share a metric and a fingerprint but not their labels, and the
    amounts on each series have one float sum in every order. */
module OrderIndependence {
  import opened Json
  import opened Contracts
  import opened Lint
  import opened Projection
  import opened StringOrder
  import opened Fingerprints
  import opened Sums
  import opened Float64
  import opened Aggregator

  ghost predicate NoCollision(cs: seq<Contribution>)
  {
    forall c, f :: c in cs && f in cs && Collide(c, f) ==> c.labels == f.labels
  }

  /** Both land on one series. */
  ghost predicate Collide(c: Contribution, f: Contribution)
  {
    c.metric == f.metric && Fingerprint(c.labels) == Fingerprint(f.labels)
  }

  // ------------------------------------------------ order does not matter

  lemma CommittedMember(env: Env, ds: seq<Delivery>, c: Contribution)
    ensures c in AllCommitted(env, ds) <==> exists d :: d in ds && c in CommittedBy(env)(d)
  {
    FlattenMember(ds, CommittedBy(env), c);
  }

  ghost predicate SameMembers<T(!new)>(a: seq<T>, b: seq<T>)
  {
    forall x :: x in a <==> x in b
  }

  lemma PermutedMembers(env: Env, a: seq<Delivery>, b: seq<Delivery>)
    requires multiset(a) == multiset(b)
    ensures SameMembers(AllCommitted(env, a), AllCommitted(env, b))
  {
    forall c
      ensures c in AllCommitted(env, a) <==> c in AllCommitted(env, b)
    {
      CommittedMember(env, a, c);
      CommittedMember(env, b, c);
      assert forall d :: d in a <==> d in multiset(a);
      assert forall d :: d in b <==> d in multiset(b);
    }
  }

  /** What a cell holds is fixed by the members and their sum, when none collide. */
  lemma CellFixed(fl: Float, x: Option<Series>, a: seq<Contribution>, y: Option<Series>, b: seq<Contribution>,
                  metric: string, key: string)
    requires Holds(fl, x, a, metric, key) && Holds(fl, y, b, metric, key)
    requires SameMembers(a, b) && NoCollision(a)
    requires Folded(fl, Landing(a, metric, key)) == Folded(fl, Landing(b, metric, key))
    ensures x == y
  {
    assert forall i :: 0 <= i < |a| ==> a[i] in b;
    assert forall j :: 0 <= j < |b| ==> b[j] in a;
    if x.Some? && y.Some? {
      var i: nat :| FirstLanding(a, metric, key, i) && x.value.labels == a[i].labels;
      var j: nat :| FirstLanding(b, metric, key, j) && y.value.labels == b[j].labels;
      assert Collide(a[i], b[j]);
    }
  }

  /** These amounts have one float sum, however they are arranged. */
  ghost predicate FoldsAlike(fl: Float, xs: seq<real>)
  {
    forall ys :: multiset(ys) == multiset(xs) ==> Folded(fl, ys) == Folded(fl, xs)
  }

  /** On every series. */
  ghost predicate AllFoldAlike(fl: Float, cs: seq<Contribution>)
  {
    forall m, k :: FoldsAlike(fl, Landing(cs, m, k))
  }

  /** No labels collide, and every series has one float sum in every order. */
  ghost predicate OrderFree(env: Env, ds: seq<Delivery>)
  {
    NoCollision(AllCommitted(env, ds)) && AllFoldAlike(env.fl, AllCommitted(env, ds))
  }

  ghost predicate NoEmptyFamily(counters: Counters)
  {
    forall m :: m in counters ==> counters[m] != map[]
  }

  lemma {:induction false} FamiliesFilled(fl: Float, cs: seq<Contribution>)
    ensures NoEmptyFamily(AddAll(fl, map[], cs))
  {
    if cs != [] {
      FamiliesFilled(fl, cs[..|cs| - 1]);
    }
  }

  lemma SameFamily(x: Counters, y: Counters, m: string)
    requires NoEmptyFamily(x) && m in x
    requires forall k :: Cell(x, m, k) == Cell(y, m, k)
    ensures m in y && x[m] == y[m]
  {
    assert x[m].Keys != {};
    var k :| k in x[m];
    assert Cell(x, m, k).Some?;
    forall k
      ensures k in x[m] <==> k in y[m]
      ensures k in x[m] ==> x[m][k] == y[m][k]
    {
      assert Cell(x, m, k) == Cell(y, m, k);
    }
  }

  lemma SameCounters(x: Counters, y: Counters)
    requires NoEmptyFamily(x) && NoEmptyFamily(y)
    requires forall m, k :: Cell(x, m, k) == Cell(y, m, k)
    ensures x == y
  {
    forall m | m in x ensures m in y && x[m] == y[m] { SameFamily(x, y, m); }
    forall m | m in y ensures m in x { SameFamily(y, x, m); }
  }

  lemma LandingPermuted(env: Env, a: seq<Delivery>, b: seq<Delivery>, m: string, k: string)
    requires multiset(a) == multiset(b)
    ensures multiset(Landing(AllCommitted(env, a), m, k)) == multiset(Landing(AllCommitted(env, b), m, k))
  {
    LandingEvents(env, a, m, k);
    LandingEvents(env, b, m, k);
    FlattenPermuted(a, b, LandingBy(env, m, k));
  }

  lemma CellPermuted(env: Env, a: seq<Delivery>, b: seq<Delivery>, m: string, k: string)
    requires multiset(a) == multiset(b) && OrderFree(env, a)
    ensures Cell(Run(env, a).counters, m, k) == Cell(Run(env, b).counters, m, k)
  {
    SeriesAreSums(env, a, m, k);
    SeriesAreSums(env, b, m, k);
    PermutedMembers(env, a, b);
    LandingPermuted(env, a, b, m, k);
    assert FoldsAlike(env.fl, Landing(AllCommitted(env, a), m, k));
    CellFixed(env.fl, Cell(Run(env, a).counters, m, k), AllCommitted(env, a),
              Cell(Run(env, b).counters, m, k), AllCommitted(env, b), m, k);
  }

  lemma SeriesPermuted(env: Env, a: seq<Delivery>, b: seq<Delivery>)
    requires multiset(a) == multiset(b) && OrderFree(env, a)
    ensures Run(env, a).counters == Run(env, b).counters
  {
    forall m, k ensures Cell(Run(env, a).counters, m, k) == Cell(Run(env, b).counters, m, k) { CellPermuted(env, a, b, m, k); }
    RunCommits(env, a);
    RunCommits(env, b);
    FamiliesFilled(env.fl, AllCommitted(env, a));
    FamiliesFilled(env.fl, AllCommitted(env, b));
    SameCounters(Run(env, a).counters, Run(env, b).counters);
  }

  lemma CountersPermuted(env: Env, a: seq<Delivery>, b: seq<Delivery>)
    requires multiset(a) == multiset(b)
    ensures Run(env, a).rejected == Run(env, b).rejected && Run(env, a).processed == Run(env, b).processed
  {
    forall r: Reason
      ensures Count(Run(env, a).rejected, r) == Count(Run(env, b).rejected, r)
      ensures r in Run(env, a).rejected ==> Run(env, a).rejected[r] > 0
      ensures r in Run(env, b).rejected ==> Run(env, b).rejected[r] > 0
      ensures Run(env, a).processed == Run(env, b).processed
    {
      RunCounts(env, a, r);
      RunCounts(env, b, r);
      SumPermuted(a, b, RejectedFor(env, r));
      SumPermuted(a, b, AcceptedOne(env));
    }
    SameTally(Run(env, a).rejected, Run(env, b).rejected);
    assert Count(Run(env, a).rejected, Forbidden) == Count(Run(env, b).rejected, Forbidden);
  }

  lemma SameTally(x: map<Reason, nat>, y: map<Reason, nat>)
    requires forall r :: Count(x, r) == Count(y, r)
    requires forall r :: r in x ==> x[r] > 0
    requires forall r :: r in y ==> y[r] > 0
    ensures x == y
  {
    forall r ensures r in x <==> r in y && (r in x ==> x[r] == y[r]) { assert Count(x, r) == Count(y, r); }
  }

  /** Any two orders of the same events end in the same state. */
  lemma OrderIndependent(env: Env, a: seq<Delivery>, b: seq<Delivery>)
    requires multiset(a) == multiset(b) && OrderFree(env, a)
    ensures Run(env, a) == Run(env, b)
  {
    SeriesPermuted(env, a, b);
    CountersPermuted(env, a, b);
  }

  // ------------------------------------------------ one event never collides with itself

  /** The order in which a projection emits its metrics. */
  function Rank(metric: string): int
  {
    match metric
    case "llm_requests_total" => 0
    case "llm_input_tokens_total" => 1
    case "llm_output_tokens_total" => 2
    case "llm_total_tokens_total" => 3
    case "llm_cost_usd_total" => 4
    case "llm_errors_total" => 4
    case "llm_timeouts_total" => 4
    case "llm_rate_limit_events_total" => 4
    case "llm_retries_total" => 5
    case _ => -1
  }

  ghost predicate Ranked(cs: seq<Contribution>, lo: int, hi: int)
  {
    && (forall i :: 0 <= i < |cs| ==> lo <= Rank(cs[i].metric) < hi)
    && (forall i, j :: 0 <= i < j < |cs| ==> Rank(cs[i].metric) < Rank(cs[j].metric))
  }

  lemma RankedJoin(a: seq<Contribution>, b: seq<Contribution>, lo: int, mid: int, hi: int)
    requires Ranked(a, lo, mid) && Ranked(b, mid, hi) && lo <= mid <= hi
    ensures Ranked(a + b, lo, hi)
  {
    var c := a + b;
    forall i | 0 <= i < |c|
      ensures lo <= Rank(c[i].metric) < hi
      ensures forall j :: 0 <= j < i ==> Rank(c[j].metric) < Rank(c[i].metric)
    {
      if i >= |a| { assert c[i] == b[i - |a|]; }
    }
  }

  lemma CountedRanked(fl: Float, event: Event, field: string, metric: string, labels: Labels, scale: real, r: int)
    requires Rank(metric) == r
    ensures Ranked(Counted(fl, event, field, metric, labels, scale), r, r + 1)
  {
  }

  lemma UsageRanked(fl: Float, event: Event)
    ensures Ranked(ProjectUsage(fl, event), 0, 5)
  {
    var base := BaseLabels(event);
    var a := Counted(fl, event, "request_count", "llm_requests_total", base, 1.0);
    var b := Counted(fl, event, "input_tokens", "llm_input_tokens_total", base, 1.0);
    var c := Counted(fl, event, "output_tokens", "llm_output_tokens_total", base, 1.0);
    var d := Counted(fl, event, "total_tokens", "llm_total_tokens_total", base, 1.0);
    var e := Counted(fl, event, "cost_usd_minor_units", "llm_cost_usd_total", base, 100.0);
    CountedRanked(fl, event, "request_count", "llm_requests_total", base, 1.0, 0);
    CountedRanked(fl, event, "input_tokens", "llm_input_tokens_total", base, 1.0, 1);
    CountedRanked(fl, event, "output_tokens", "llm_output_tokens_total", base, 1.0, 2);
    CountedRanked(fl, event, "total_tokens", "llm_total_tokens_total", base, 1.0, 3);
    CountedRanked(fl, event, "cost_usd_minor_units", "llm_cost_usd_total", base, 100.0, 4);
    RankedJoin(a, b, 0, 1, 2);
    RankedJoin(a + b, c, 0, 2, 3);
    RankedJoin(a + b + c, d, 0, 3, 4);
    RankedJoin(a + b + c + d, e, 0, 4, 5);
  }

  lemma StatusRanks()
    ensures Rank("llm_errors_total") == Rank("llm_timeouts_total") == Rank("llm_rate_limit_events_total") == 4
  {
  }

  lemma OneRanked(c: Contribution, r: int)
    requires Rank(c.metric) == r
    ensures Ranked([c], r, r + 1)
  {
  }

  lemma StatusRanked(event: Event)
    ensures Ranked(StatusContribution(event), 4, 5)
  {
    StatusRanks();
    var cs := StatusContribution(event);
    if cs != [] { OneRanked(cs[0], 4); }
  }

  lemma RuntimeRanked(fl: Float, event: Event)
    ensures Ranked(ProjectRuntime(fl, event), 0, 6)
  {
    var base := BaseLabels(event);
    var a := [Contribution("llm_requests_total", WithBoth(event), 1.0)];
    var b := Counted(fl, event, "input_tokens", "llm_input_tokens_total", base, 1.0);
    var c := Counted(fl, event, "output_tokens", "llm_output_tokens_total", base, 1.0);
    var d := Counted(fl, event, "total_tokens", "llm_total_tokens_total", base, 1.0);
    var e := StatusContribution(event);
    var f := Counted(fl, event, "retry_count", "llm_retries_total", WithError(event), 1.0);
    CountedRanked(fl, event, "input_tokens", "llm_input_tokens_total", base, 1.0, 1);
    CountedRanked(fl, event, "output_tokens", "llm_output_tokens_total", base, 1.0, 2);
    CountedRanked(fl, event, "total_tokens", "llm_total_tokens_total", base, 1.0, 3);
    CountedRanked(fl, event, "retry_count", "llm_retries_total", WithError(event), 1.0, 5);
    StatusRanked(event);
    RankedJoin(a, b, 0, 1, 2);
    RankedJoin(a + b, c, 0, 2, 3);
    RankedJoin(a + b + c, d, 0, 3, 4);
    RankedJoin(a + b + c + d, e, 0, 4, 5);
    RankedJoin(a + b + c + d + e, f, 0, 5, 6);
  }

  lemma ProjectedRanked(fl: Float, topic: string, event: Event, cs: seq<Contribution>)
    requires Project(fl, topic, event) == Some(cs)
    ensures Ranked(cs, 0, 6)
  {
    if topic == USAGE {
      UsageRanked(fl, event);
    } else {
      RuntimeRanked(fl, event);
    }
  }

  lemma OnePerMetric(env: Env, d: Delivery, c: Contribution, f: Contribution)
    requires c in Committed(env, d) && f in Committed(env, d) && c.metric == f.metric
    ensures c == f
  {
    AcceptedWhole(env, d);
    ProjectedRanked(env.fl, d.topic, d.payload.value, Committed(env, d));
    RankedOnce(Committed(env, d), c, f);
  }

  lemma RankedOnce(cs: seq<Contribution>, c: Contribution, f: Contribution)
    requires Ranked(cs, 0, 6) && c in cs && f in cs && c.metric == f.metric
    ensures c == f
  {
    var i :| 0 <= i < |cs| && cs[i] == c;
    var j :| 0 <= j < |cs| && cs[j] == f;
    assert !(i < j) && !(j < i);
  }

  // ------------------------------------------------ a collision shows

  /** The first event to reach a series gives it its labels for good. */
  lemma HeadLabels(env: Env, d: Delivery, rest: seq<Delivery>, c: Contribution)
    requires c in Committed(env, d)
    ensures var cell := Cell(Run(env, [d] + rest).counters, c.metric, Fingerprint(c.labels));
            cell.Some? && cell.value.labels == c.labels
  {
    var key := Fingerprint(c.labels);
    var own := Committed(env, d);
    var cs := AllCommitted(env, [d] + rest);
    FlattenCons(d, rest, CommittedBy(env));
    SeriesAreSums(env, [d] + rest, c.metric, key);
    var n :| 0 <= n < |own| && own[n] == c;
    assert cs[n] == c && Lands(cs[n], c.metric, key);
    var i: nat :| FirstLanding(cs, c.metric, key, i)
                  && Cell(Run(env, [d] + rest).counters, c.metric, key).value.labels == cs[i].labels;
    assert i <= n;
    assert cs[i] == own[i];
    OnePerMetric(env, d, c, own[i]);
  }

  /** Every series is filed under the fingerprint of its own labels. */
  ghost predicate Keyed(counters: Counters)
  {
    forall m, k :: m in counters && k in counters[m] ==> k == Fingerprint(counters[m][k].labels)
  }

  lemma RunKeyed(env: Env, ds: seq<Delivery>)
    ensures Keyed(Run(env, ds).counters)
  {
    var counters: Counters := Run(env, ds).counters;
    forall m, k | m in counters && k in counters[m]
      ensures k == Fingerprint(counters[m][k].labels)
    {
      SeriesAreSums(env, ds, m, k);
      assert Cell(counters, m, k) == Some(counters[m][k]);
    }
  }

  lemma SameKeys(a: set<string>, b: set<string>)
    requires Sorted(a) == Sorted(b)
    ensures a == b
  {
  }

  lemma SameEntries(x: Family, y: Family, keys: seq<string>)
    requires x.Keys == y.Keys && forall k :: k in x ==> k in keys
    requires forall i :: 0 <= i < |keys| ==> keys[i] in x && x[keys[i]] == y[keys[i]]
    ensures x == y
  {
  }

  lemma SameListing(x: Family, p: seq<string>, y: Family, q: seq<string>)
    requires forall k :: k in p ==> k in x
    requires forall k :: k in q ==> k in y
    requires SeriesIn(x, p) == SeriesIn(y, q)
    requires forall k :: k in x ==> k == Fingerprint(x[k].labels)
    requires forall k :: k in y ==> k == Fingerprint(y[k].labels)
    ensures p == q && forall i :: 0 <= i < |p| ==> x[p[i]] == y[p[i]]
  {
    var s := SeriesIn(x, p);
    assert |p| == |s| == |q|;
    forall i | 0 <= i < |p|
      ensures p[i] == q[i] && x[p[i]] == y[p[i]]
    {
      assert s[i] == x[p[i]];
      assert SeriesIn(y, q)[i] == y[q[i]];
    }
  }

  lemma FamilyFromSeries(x: Family, y: Family)
    requires SeriesIn(x, Sorted(x.Keys)) == SeriesIn(y, Sorted(y.Keys))
    requires forall k :: k in x ==> k == Fingerprint(x[k].labels)
    requires forall k :: k in y ==> k == Fingerprint(y[k].labels)
    ensures x == y
  {
    var p := Sorted(x.Keys);
    SameListing(x, p, y, Sorted(y.Keys));
    SameKeys(x.Keys, y.Keys);
    SameEntries(x, y, p);
  }

  lemma ViewName(counters: Counters, names: seq<string>, i: nat)
    requires i < |names| && forall n :: n in names ==> n in counters
    ensures ViewsIn(counters, names)[i] == ViewOf(counters, names[i])
  {
  }

  lemma SameViews(x: Counters, y: Counters, p: seq<string>, q: seq<string>)
    requires forall n :: n in p ==> n in x
    requires forall n :: n in q ==> n in y
    requires ViewsIn(x, p) == ViewsIn(y, q)
    ensures p == q && forall n :: n in p ==> ViewOf(x, n) == ViewOf(y, n)
  {
    assert |p| == |ViewsIn(x, p)| == |ViewsIn(y, q)| == |q|;
    forall i | 0 <= i < |p|
      ensures p[i] == q[i] && ViewOf(x, p[i]) == ViewOf(y, p[i])
    {
      ViewName(x, p, i);
      ViewName(y, q, i);
    }
  }

  /** A snapshot shows the whole state. */
  lemma SnapshotFaithful(s: State, t: State)
    requires Keyed(s.counters) && Keyed(t.counters)
    requires SnapshotOf(s) == SnapshotOf(t)
    ensures s == t
  {
    var x, y := s.counters, t.counters;
    SameViews(x, y, Sorted(x.Keys), Sorted(y.Keys));
    SameKeys(x.Keys, y.Keys);
    forall n | n in x
      ensures x[n] == y[n]
    {
      assert ViewOf(x, n) == ViewOf(y, n);
      FamilyFromSeries(x[n], y[n]);
    }
  }

  ghost function ToFront<T>(ds: seq<T>, i: nat): (r: seq<T>)
    requires i < |ds|
    ensures multiset(r) == multiset(ds)
  {
    assert ds == ds[..i] + [ds[i]] + ds[i + 1..];
    [ds[i]] + (ds[..i] + ds[i + 1..])
  }

  /** The promise of the snapshot. */
  ghost predicate AnyOrderSameSnapshot(env: Env, ds: seq<Delivery>)
  {
    forall es :: multiset(es) == multiset(ds) ==> SnapshotOf(Run(env, es)) == SnapshotOf(Run(env, ds))
  }

  lemma CollisionShows(env: Env, ds: seq<Delivery>, c: Contribution, f: Contribution)
    requires c in AllCommitted(env, ds) && f in AllCommitted(env, ds)
    requires Collide(c, f) && c.labels != f.labels
    ensures !AnyOrderSameSnapshot(env, ds)
  {
    CommittedMember(env, ds, c);
    CommittedMember(env, ds, f);
    var d :| d in ds && c in CommittedBy(env)(d);
    var e :| e in ds && f in CommittedBy(env)(e);
    var i :| 0 <= i < |ds| && ds[i] == d;
    var j :| 0 <= j < |ds| && ds[j] == e;
    var x, y := ToFront(ds, i), ToFront(ds, j);
    HeadLabels(env, d, ds[..i] + ds[i + 1..], c);
    HeadLabels(env, e, ds[..j] + ds[j + 1..], f);
    RunKeyed(env, x);
    RunKeyed(env, y);
    if SnapshotOf(Run(env, x)) == SnapshotOf(Run(env, y)) {
      SnapshotFaithful(Run(env, x), Run(env, y));
    }
  }

  // ------------------------------------------------ a float sum that depends on order shows

  lemma OneLanding(env: Env, metric: string, key: string)
    ensures AtMostOne(LandingBy(env, metric, key))
  {
    forall d
      ensures |LandingBy(env, metric, key)(d)| <= 1
    {
      var cs := Committed(env, d);
      forall i, j | 0 <= i < j < |cs| && cs[i].metric == cs[j].metric
        ensures false
      {
        DistinctMetrics(env, d, i, j);
      }
      LandingOfDistinct(cs, metric, key);
    }
  }

  lemma DistinctMetrics(env: Env, d: Delivery, i: nat, j: nat)
    requires i < j < |Committed(env, d)|
    ensures Committed(env, d)[i].metric != Committed(env, d)[j].metric
  {
    AcceptedWhole(env, d);
    ProjectedRanked(env.fl, d.topic, d.payload.value, Committed(env, d));
  }

  /** A list that names each metric once lands at most once on a series. */
  lemma {:induction false} LandingOfDistinct(cs: seq<Contribution>, metric: string, key: string)
    requires forall i, j :: 0 <= i < j < |cs| ==> cs[i].metric != cs[j].metric
    ensures |Landing(cs, metric, key)| <= 1
  {
    if cs != [] {
      var n := |cs| - 1;
      LandingOfDistinct(cs[..n], metric, key);
      if Lands(cs[n], metric, key) {
        NoneLanding(cs[..n], metric, key);
      }
    }
  }

  lemma LandingShows(env: Env, ds: seq<Delivery>, m: string, k: string, ys: seq<real>)
    requires AnyOrderSameSnapshot(env, ds) && multiset(ys) == multiset(Landing(AllCommitted(env, ds), m, k))
    ensures Folded(env.fl, ys) == Folded(env.fl, Landing(AllCommitted(env, ds), m, k))
  {
    LandingEvents(env, ds, m, k);
    OneLanding(env, m, k);
    var es := LiftPermutation(ds, LandingBy(env, m, k), ys);
    LandingEvents(env, es, m, k);
    RunKeyed(env, ds);
    RunKeyed(env, es);
    SnapshotFaithful(Run(env, es), Run(env, ds));
    SeriesAreSums(env, ds, m, k);
    SeriesAreSums(env, es, m, k);
    SameFold(env.fl, Cell(Run(env, ds).counters, m, k), AllCommitted(env, ds), AllCommitted(env, es), m, k);
  }

  /** Two lists that build the same cell fold to the same sum. */
  lemma SameFold(fl: Float, cell: Option<Series>, a: seq<Contribution>, b: seq<Contribution>, m: string, k: string)
    requires Holds(fl, cell, a, m, k) && Holds(fl, cell, b, m, k)
    ensures Folded(fl, Landing(a, m, k)) == Folded(fl, Landing(b, m, k))
  {
    if cell.None? {
      NoneLanding(a, m, k);
      NoneLanding(b, m, k);
    }
  }

  /** Snapshots are independent of the order of events exactly when no two accepted
      contributions collide with different labels and the amounts on each series have one
      float sum in every order. */
  lemma OrderIndependentExactly(env: Env, ds: seq<Delivery>)
    ensures AnyOrderSameSnapshot(env, ds) <==> OrderFree(env, ds)
  {
    if OrderFree(env, ds) {
      forall es | multiset(es) == multiset(ds)
        ensures SnapshotOf(Run(env, es)) == SnapshotOf(Run(env, ds))
      {
        OrderIndependent(env, ds, es);
      }
    }
    if AnyOrderSameSnapshot(env, ds) {
      SameSnapshotNoCollision(env, ds);
      forall m, k
        ensures FoldsAlike(env.fl, Landing(AllCommitted(env, ds), m, k))
      {
        forall ys | multiset(ys) == multiset(Landing(AllCommitted(env, ds), m, k))
          ensures Folded(env.fl, ys) == Folded(env.fl, Landing(AllCommitted(env, ds), m, k))
        {
          LandingShows(env, ds, m, k, ys);
        }
      }
    }
  }

  lemma SameSnapshotNoCollision(env: Env, ds: seq<Delivery>)
    requires AnyOrderSameSnapshot(env, ds)
    ensures NoCollision(AllCommitted(env, ds))
  {
    var cs := AllCommitted(env, ds);
    forall c, f | c in cs && f in cs && Collide(c, f)
      ensures c.labels == f.labels
    {
      if c.labels != f.labels { CollisionShows(env, ds, c, f); }
    }
  }

  // ------------------------------------------------ whole amounts sum alike in every order

  ghost predicate WholeAmounts(xs: seq<real>)
  {
    forall i :: 0 <= i < |xs| ==> Whole(xs[i]) && xs[i] >= 1.0
  }

  function Id(): real -> real
  {
    x => x
  }

  /** Positive whole amounts whose exact total is at most 2 to the power 53. */
  ghost predicate SmallWhole(xs: seq<real>)
  {
    WholeAmounts(xs) && Sum(xs, Id()) <= EXACT as real
  }

  lemma SmallFront(xs: seq<real>)
    requires xs != [] && SmallWhole(xs)
    ensures var n := |xs| - 1;
            && SmallWhole(xs[..n]) && Whole(xs[n]) && xs[n] >= 1.0
            && Sum(xs, Id()) == Sum(xs[..n], Id()) + xs[n] <= EXACT as real
  {
  }

  lemma WholeStep(fl: Float, sum: real, x: real)
    requires ExactOnWhole(fl) && Whole(sum) && sum >= 0.0 && Whole(x) && x >= 1.0 && sum + x <= EXACT as real
    ensures fl.plus(sum, x) == sum + x && Whole(sum + x)
  {
    assert ExactSum(fl, sum, x);
    WholeAdds(sum, sum.Floor, x, x.Floor);
  }

  lemma {:induction false} WholeFold(fl: Float, xs: seq<real>)
    requires ExactOnWhole(fl) && SmallWhole(xs)
    ensures Folded(fl, xs) == Sum(xs, Id()) && Whole(Sum(xs, Id())) && Sum(xs, Id()) >= 0.0
  {
    if xs != [] {
      var n := |xs| - 1;
      SmallFront(xs);
      WholeFold(fl, xs[..n]);
      WholeStep(fl, Sum(xs[..n], Id()), xs[n]);
    }
  }

  lemma WholeFoldsAlike(fl: Float, xs: seq<real>)
    requires ExactOnWhole(fl) && SmallWhole(xs)
    ensures FoldsAlike(fl, xs)
  {
    WholeFold(fl, xs);
    forall ys | multiset(ys) == multiset(xs)
      ensures Folded(fl, ys) == Folded(fl, xs)
    {
      SumPermuted(ys, xs, Id());
      WholePermuted(xs, ys);
      WholeFold(fl, ys);
    }
  }

  lemma WholePermuted(xs: seq<real>, ys: seq<real>)
    requires multiset(ys) == multiset(xs) && WholeAmounts(xs)
    ensures WholeAmounts(ys)
  {
    forall i | 0 <= i < |ys|
      ensures Whole(ys[i]) && ys[i] >= 1.0
    {
      assert ys[i] in multiset(xs);
    }
  }

  /** Every series collects positive whole amounts, at most 2 to the power 53 in all. */
  ghost predicate WholeSeries(env: Env, ds: seq<Delivery>)
  {
    forall m, k :: SmallWhole(Landing(AllCommitted(env, ds), m, k))
  }

  // ------------------------------------------------ events with whole amounts

  const COUNTED: set<string> := {"request_count", "input_tokens", "output_tokens", "total_tokens", "retry_count"}

  /** Counts are whole numbers, and there is no cost to divide into dollars. */
  ghost predicate WholeEvent(event: Event)
  {
    && (forall f :: f in COUNTED ==> Whole(Amount(event, f)))
    && Amount(event, "cost_usd_minor_units") == 0.0
  }

  ghost predicate AllWhole(cs: seq<Contribution>)
  {
    forall c :: c in cs ==> Whole(c.value) && c.value >= 1.0
  }

  lemma WholeJoin(a: seq<Contribution>, b: seq<Contribution>)
    requires AllWhole(a) && AllWhole(b)
    ensures AllWhole(a + b)
  {
  }

  lemma CountedWhole(fl: Float, event: Event, field: string, metric: string, labels: Labels)
    requires Whole(Amount(event, field))
    ensures AllWhole(Counted(fl, event, field, metric, labels, 1.0))
  {
  }

  lemma UsageWhole(fl: Float, event: Event)
    requires WholeEvent(event)
    ensures AllWhole(ProjectUsage(fl, event))
  {
    var base := BaseLabels(event);
    CountedWhole(fl, event, "request_count", "llm_requests_total", base);
    CountedWhole(fl, event, "input_tokens", "llm_input_tokens_total", base);
    CountedWhole(fl, event, "output_tokens", "llm_output_tokens_total", base);
    CountedWhole(fl, event, "total_tokens", "llm_total_tokens_total", base);
    assert Counted(fl, event, "cost_usd_minor_units", "llm_cost_usd_total", base, 100.0) == [];
  }

  lemma StatusWhole(event: Event)
    ensures AllWhole(StatusContribution(event))
  {
    var cs := StatusContribution(event);
    if cs != [] { OneWhole(cs, cs[0]); }
  }

  lemma OneWhole(cs: seq<Contribution>, c: Contribution)
    requires cs == [c] && c.value == 1.0
    ensures AllWhole(cs)
  {
  }

  lemma RuntimeWhole(fl: Float, event: Event)
    requires WholeEvent(event)
    ensures AllWhole(ProjectRuntime(fl, event))
  {
    var base := BaseLabels(event);
    var a := [Contribution("llm_requests_total", WithBoth(event), 1.0)];
    var b := Counted(fl, event, "input_tokens", "llm_input_tokens_total", base, 1.0);
    var c := Counted(fl, event, "output_tokens", "llm_output_tokens_total", base, 1.0);
    var d := Counted(fl, event, "total_tokens", "llm_total_tokens_total", base, 1.0);
    var e := StatusContribution(event);
    var f := Counted(fl, event, "retry_count", "llm_retries_total", WithError(event), 1.0);
    CountedWhole(fl, event, "input_tokens", "llm_input_tokens_total", base);
    CountedWhole(fl, event, "output_tokens", "llm_output_tokens_total", base);
    CountedWhole(fl, event, "total_tokens", "llm_total_tokens_total", base);
    CountedWhole(fl, event, "retry_count", "llm_retries_total", WithError(event));
    StatusWhole(event);
    WholeJoin(a, b);
    WholeJoin(a + b, c);
    WholeJoin(a + b + c, d);
    WholeJoin(a + b + c + d, e);
    WholeJoin(a + b + c + d + e, f);
  }

  lemma ProjectedWhole(fl: Float, topic: string, event: Event, cs: seq<Contribution>)
    requires WholeEvent(event) && Project(fl, topic, event) == Some(cs)
    ensures AllWhole(cs)
  {
    if topic == USAGE {
      UsageWhole(fl, event);
    } else {
      RuntimeWhole(fl, event);
    }
  }

  ghost predicate WholeDelivery(d: Delivery)
  {
    d.payload.Some? ==> WholeEvent(d.payload.value)
  }

  lemma CommittedWhole(env: Env, ds: seq<Delivery>)
    requires forall d :: d in ds ==> WholeDelivery(d)
    ensures AllWhole(AllCommitted(env, ds))
  {
    forall c | c in AllCommitted(env, ds)
      ensures Whole(c.value) && c.value >= 1.0
    {
      CommittedMember(env, ds, c);
      var d :| d in ds && c in CommittedBy(env)(d);
      AcceptedWhole(env, d);
      ProjectedWhole(env.fl, d.topic, d.payload.value, Committed(env, d));
    }
  }

  lemma {:induction false} LandingWhole(cs: seq<Contribution>, m: string, k: string)
    requires AllWhole(cs)
    ensures WholeAmounts(Landing(cs, m, k))
  {
    if cs != [] {
      LandingWhole(cs[..|cs| - 1], m, k);
    }
  }

  /** The exact total landing on a series stays in the range where doubles count exactly. */
  ghost predicate InRange(env: Env, ds: seq<Delivery>, m: string, k: string)
  {
    Sum(Landing(AllCommitted(env, ds), m, k), Id()) <= EXACT as real
  }

  /** Requests, errors, tokens and retries: whole events in range. */
  lemma WholeEventsSeries(env: Env, ds: seq<Delivery>)
    requires (forall d :: d in ds ==> WholeDelivery(d)) && forall m, k :: InRange(env, ds, m, k)
    ensures WholeSeries(env, ds)
  {
    CommittedWhole(env, ds);
    forall m, k
      ensures SmallWhole(Landing(AllCommitted(env, ds), m, k))
    {
      LandingWhole(AllCommitted(env, ds), m, k);
      assert InRange(env, ds, m, k);
    }
  }

  /** Label values free of NUL and whole amounts in range keep the promise of the snapshot. */
  lemma WholeOrderFree(env: Env, ds: seq<Delivery>)
    requires ExactOnWhole(env.fl) && WholeSeries(env, ds) && forall d :: d in ds ==> NulFree(d)
    ensures OrderFree(env, ds)
  {
    NulFreeNoCollision(env, ds);
    forall m, k
      ensures FoldsAlike(env.fl, Landing(AllCommitted(env, ds), m, k))
    {
      assert SmallWhole(Landing(AllCommitted(env, ds), m, k));
      WholeFoldsAlike(env.fl, Landing(AllCommitted(env, ds), m, k));
    }
  }

  // ------------------------------------------------ labels free of NUL never collide

  /** No label of the event contains NUL. */
  ghost predicate NulFree(d: Delivery)
  {
    d.payload.Some? ==> forall k :: k in LABELS ==> '\0' !in GetStr(d.payload.value, k)
  }

  lemma StatusNulFree(event: Event)
    ensures '\0' !in StatusCode(event)
  {
  }

  lemma LabelNames(k: string)
    requires k in LABELS
    ensures '=' !in k && '\0' !in k
  {
  }

  lemma LabelledPlain(event: Event, c: Contribution, allowed: set<string>)
    requires Labelled(event, c, allowed) && forall k :: k in LABELS ==> '\0' !in GetStr(event, k)
    ensures Plain(c.labels)
  {
    AllowedInLabels(c.metric);
    StatusNulFree(event);
    forall k | k in c.labels
      ensures '=' !in k && '\0' !in k && '\0' !in c.labels[k]
    {
      LabelNames(k);
    }
  }

  lemma NulFreePlain(env: Env, d: Delivery, c: Contribution)
    requires NulFree(d) && c in Committed(env, d)
    ensures Plain(c.labels)
  {
    AcceptedWhole(env, d);
    var allowed := ProjectionLabelled(env.fl, d.topic, d.payload.value, Committed(env, d), c);
    LabelledPlain(d.payload.value, c, allowed);
  }

  /** Without NUL in label values no labels collide. */
  lemma NulFreeNoCollision(env: Env, ds: seq<Delivery>)
    requires forall d :: d in ds ==> NulFree(d)
    ensures NoCollision(AllCommitted(env, ds))
  {
    var cs := AllCommitted(env, ds);
    forall c, f | c in cs && f in cs && Collide(c, f)
      ensures c.labels == f.labels
    {
      CommittedMember(env, ds, c);
      CommittedMember(env, ds, f);
      var d :| d in ds && c in CommittedBy(env)(d);
      var e :| e in ds && f in CommittedBy(env)(e);
      NulFreePlain(env, d, c);
      NulFreePlain(env, e, f);
      FingerprintInjective(c.labels, f.labels);
    }
  }
}
