/** The in-memory rollup (metrics-endpoint aggregator.go): Apply as a state machine over
    lint, projection and commit, and the sorted Snapshot. */
module Aggregator {
  import opened Json
  import opened Contracts
  import opened Lint
  import opened Projection
  import opened StringOrder
  import opened Fingerprints
  import opened Sums
  import opened Float64

  datatype Reason = DecodeFailed | SchemaInvalid | Forbidden | Cardinality | TopicUnknown

  /** strings.ToLower and the float operations the service runs on. */
  datatype Env = Env(lower: Lower, fl: Float)

  datatype Series = Series(labels: Labels, sum: real)

  type Family = map<string, Series>
  type Counters = map<string, Family>

  datatype State = State(counters: Counters, rejected: map<Reason, nat>, processed: nat)

  /** One message body on a topic; None when it does not decode to an object. */
  datatype Delivery = Delivery(topic: string, payload: Option<Event>)

  const EMPTY: State := State(map[], map[], 0)

  // ------------------------------------------------ one event

  datatype Outcome = Rejected(reason: Reason) | Accepted(contribs: seq<Contribution>)

  predicate Lintable(env: Env, cs: seq<Contribution>)
  {
    forall i :: 0 <= i < |cs| ==> MetricOk(env.lower, cs[i].metric, cs[i].labels)
  }

  ghost function Decide(env: Env, d: Delivery): Outcome
  {
    if d.topic !in TOPICS then Rejected(TopicUnknown)
    else if d.payload.None? then Rejected(DecodeFailed)
    else if HasForbidden(env.lower, Obj(d.payload.value)) then Rejected(Forbidden)
    else if !EventOk(env.lower, d.topic, d.payload.value) then Rejected(SchemaInvalid)
    else
      DecideProjected(env, Project(env.fl, d.topic, d.payload.value))
  }

  /** An event that passed the lint commits all its contributions or none. */
  function DecideProjected(env: Env, contribs: Option<seq<Contribution>>): Outcome
  {
    match contribs
    case None => Rejected(TopicUnknown)
    case Some(cs) => if Lintable(env, cs) then Accepted(cs) else Rejected(Cardinality)
  }

  function Bump(rejected: map<Reason, nat>, r: Reason): map<Reason, nat>
  {
    rejected[r := (if r in rejected then rejected[r] else 0) + 1]
  }

  /** Commit one contribution: a new series keeps the labels that created it. */
  ghost function Add(fl: Float, counters: Counters, c: Contribution): Counters
  {
    var family := if c.metric in counters then counters[c.metric] else map[];
    var key := Fingerprint(c.labels);
    var s := if key in family then family[key] else Series(c.labels, 0.0);
    counters[c.metric := family[key := Series(s.labels, fl.plus(s.sum, c.value))]]
  }

  ghost function AddAll(fl: Float, counters: Counters, cs: seq<Contribution>): Counters
  {
    if cs == [] then counters
    else Add(fl, AddAll(fl, counters, cs[..|cs| - 1]), cs[|cs| - 1])
  }

  ghost function After(env: Env, s: State, d: Delivery): State
  {
    match Decide(env, d)
    case Rejected(r) => s.(rejected := Bump(s.rejected, r))
    case Accepted(cs) => s.(counters := AddAll(env.fl, s.counters, cs), processed := s.processed + 1)
  }

  ghost function Run(env: Env, ds: seq<Delivery>): State
  {
    if ds == [] then EMPTY
    else After(env, Run(env, ds[..|ds| - 1]), ds[|ds| - 1])
  }

  // ------------------------------------------------ the snapshot

  datatype MetricView = MetricView(name: string, series: seq<Series>)

  datatype Snapshot = Snapshot(counters: seq<MetricView>, rejected: map<Reason, nat>, processed: nat)

  /** The series of a family, in the order of `keys`. */
  ghost function SeriesIn(family: Family, keys: seq<string>): seq<Series>
    requires forall k :: k in keys ==> k in family
  {
    seq(|keys|, i requires 0 <= i < |keys| => family[keys[i]])
  }

  ghost function ViewOf(counters: Counters, name: string): MetricView
    requires name in counters
  {
    MetricView(name, SeriesIn(counters[name], Sorted(counters[name].Keys)))
  }

  ghost function ViewsIn(counters: Counters, names: seq<string>): seq<MetricView>
    requires forall n :: n in names ==> n in counters
  {
    seq(|names|, i requires 0 <= i < |names| => ViewOf(counters, names[i]))
  }

  ghost function SnapshotOf(s: State): Snapshot
  {
    Snapshot(ViewsIn(s.counters, Sorted(s.counters.Keys)), s.rejected, s.processed)
  }

  /** The keys of a family in dictionary order, each with its series. */
  ghost predicate Listed(family: Family, keys: seq<string>, series: seq<Series>)
  {
    && |keys| == |series| && (forall k :: k in keys <==> k in family)
    && (forall i, j :: 0 <= i < j < |keys| ==> Precedes(keys[i], keys[j]))
    && forall i :: 0 <= i < |keys| ==> keys[i] in family && series[i] == family[keys[i]]
  }

  lemma FamilyListed(family: Family)
    ensures Listed(family, Sorted(family.Keys), SeriesIn(family, Sorted(family.Keys)))
  {
    SortedIsDictionary(family.Keys);
  }

  lemma NamesListed(counters: Counters, names: seq<string>, views: seq<MetricView>)
    requires names == Sorted(counters.Keys) && views == ViewsIn(counters, names)
    ensures |views| == |names| && forall i :: 0 <= i < |views| ==> views[i].name == names[i]
    ensures forall i, j :: 0 <= i < j < |views| ==> Precedes(views[i].name, views[j].name)
  {
    SortedIsDictionary(counters.Keys);
  }

  /** A view of one of the metrics, its series in order. */
  ghost predicate ViewListed(counters: Counters, v: MetricView)
  {
    v.name in counters && exists keys :: Listed(counters[v.name], keys, v.series)
  }

  lemma ViewIsListed(counters: Counters, name: string)
    requires name in counters
    ensures ViewListed(counters, ViewOf(counters, name))
  {
    FamilyListed(counters[name]);
  }

  /** A snapshot lists the metrics by name and each metric's series by fingerprint, in
      dictionary order, and leaves none out. */
  lemma SnapshotInOrder(s: State, views: seq<MetricView>)
    requires views == SnapshotOf(s).counters
    ensures forall i, j :: 0 <= i < j < |views| ==> Precedes(views[i].name, views[j].name)
    ensures forall n :: n in s.counters ==> exists i :: 0 <= i < |views| && views[i].name == n
    ensures forall i :: 0 <= i < |views| ==> ViewListed(s.counters, views[i])
  {
    var names := Sorted(s.counters.Keys);
    NamesListed(s.counters, names, views);
    forall n | n in s.counters
      ensures exists i :: 0 <= i < |views| && views[i].name == n
    {
      var i :| 0 <= i < |names| && names[i] == n;
      assert views[i].name == n;
    }
    forall i | 0 <= i < |views|
      ensures ViewListed(s.counters, views[i])
    {
      ViewIsListed(s.counters, names[i]);
    }
  }

  method SeriesFor(family: Family, keys: seq<string>) returns (series: seq<Series>)
    requires forall k :: k in keys ==> k in family
    ensures series == SeriesIn(family, keys)
  {
    series := [];
    for i := 0 to |keys|
      invariant series == SeriesIn(family, keys)[..i]
    {
      series := series + [family[keys[i]]];
    }
  }

  method ViewsFor(counters: Counters, names: seq<string>) returns (views: seq<MetricView>)
    requires forall n :: n in names ==> n in counters
    ensures views == ViewsIn(counters, names)
  {
    views := [];
    for i := 0 to |names|
      invariant views == ViewsIn(counters, names)[..i]
    {
      var family := counters[names[i]];
      var keys := SortedKeys(family);
      var series := SeriesFor(family, keys);
      views := views + [MetricView(names[i], series)];
    }
  }

  // ------------------------------------------------ the object

  class Aggregator {
    const env: Env
    var counters: Counters
    var rejected: map<Reason, nat>
    var processed: nat

    ghost function View(): State
      reads this
    {
      State(counters, rejected, processed)
    }

    constructor (env: Env)
      ensures View() == EMPTY && this.env == env
    {
      this.env := env;
      counters, rejected, processed := map[], map[], 0;
    }

    method BumpReject(r: Reason)
      modifies this`rejected
      ensures rejected == Bump(old(rejected), r)
    {
      rejected := rejected[r := (if r in rejected then rejected[r] else 0) + 1];
    }

    /** One pass of the commit loop. */
    method Commit(c: Contribution)
      modifies this`counters
      ensures counters == Add(env.fl, old(counters), c)
    {
      var family: Family := if c.metric in counters then counters[c.metric] else map[];
      var key := LabelFingerprint(c.labels);
      var series := if key in family then family[key] else Series(c.labels, 0.0);
      family := family[key := series.(sum := env.fl.plus(series.sum, c.value))];
      counters := counters[c.metric := family];
    }

    /** The cardinality pass: does every contribution lint? */
    method LintAll(cs: seq<Contribution>) returns (ok: bool)
      ensures ok == Lintable(env, cs)
    {
      for i := 0 to |cs|
        invariant forall j :: 0 <= j < i ==> MetricOk(env.lower, cs[j].metric, cs[j].labels)
      {
        if !MetricOk(env.lower, cs[i].metric, cs[i].labels) {
          return false;
        }
      }
      return true;
    }

    method CommitAll(cs: seq<Contribution>)
      modifies this`counters
      ensures counters == AddAll(env.fl, old(counters), cs)
    {
      for i := 0 to |cs|
        invariant counters == AddAll(env.fl, old(counters), cs[..i])
      {
        Commit(cs[i]);
        assert cs[..i + 1][..i] == cs[..i];
      }
      assert cs[..|cs|] == cs;
    }

    method Apply(topic: string, payload: Option<Event>)
      modifies this
      ensures View() == After(env, old(View()), Delivery(topic, payload))
    {
      if topic !in TOPICS {
        BumpReject(TopicUnknown);
        return;
      }
      if payload.None? {
        BumpReject(DecodeFailed);
        return;
      }
      var event := payload.value;
      if HasForbidden(env.lower, Obj(event)) {
        BumpReject(Forbidden);
        return;
      }
      var issues := LintEvent(env.lower, topic, payload);
      if issues != [] {
        BumpReject(SchemaInvalid);
        return;
      }
      var contribs := Project(env.fl, topic, event);
      if contribs.None? {
        BumpReject(TopicUnknown);
        return;
      }
      if |contribs.value| == 0 {
        processed := processed + 1;
        return;
      }
      var ok := LintAll(contribs.value);
      if !ok {
        BumpReject(Cardinality);
        return;
      }
      CommitAll(contribs.value);
      processed := processed + 1;
    }

    method TakeSnapshot() returns (out: Snapshot)
      ensures out == SnapshotOf(View())
    {
      var names := SortedKeys(counters);
      var views := ViewsFor(counters, names);
      out := Snapshot(views, rejected, processed);
    }
  }

  // ------------------------------------------------ one step

  /** A count of one reason, absent meaning zero. */
  function Count(rejected: map<Reason, nat>, r: Reason): nat
  {
    if r in rejected then rejected[r] else 0
  }

  /** Apply ticks exactly one of processed and the reject reasons. */
  lemma OneTick(env: Env, s: State, d: Delivery)
    ensures var t := After(env, s, d);
            || (t.processed == s.processed + 1 && t.rejected == s.rejected)
            || (t.processed == s.processed && t.counters == s.counters
                && exists r :: Count(t.rejected, r) == Count(s.rejected, r) + 1
                               && forall q :: q != r ==> Count(t.rejected, q) == Count(s.rejected, q))
  {
    var t := After(env, s, d);
    if Decide(env, d).Rejected? {
      var r := Decide(env, d).reason;
      assert Count(t.rejected, r) == Count(s.rejected, r) + 1;
    }
  }

  lemma AcceptedWhole(env: Env, d: Delivery)
    requires Decide(env, d).Accepted?
    ensures d.payload.Some? && EventOk(env.lower, d.topic, d.payload.value)
    ensures Project(env.fl, d.topic, d.payload.value) == Some(Decide(env, d).contribs)
    ensures Lintable(env, Decide(env, d).contribs)
  {
    var contribs := Project(env.fl, d.topic, d.payload.value);
    assert Decide(env, d) == DecideProjected(env, contribs);
  }

  /** A rejected event leaves every series as it was, even when only its last contribution
      fails the metric lint. */
  lemma RejectedLeavesSeries(env: Env, s: State, d: Delivery, cs: seq<Contribution>, i: nat)
    requires d.payload.Some? && Project(env.fl, d.topic, d.payload.value) == Some(cs)
    requires i < |cs| && !MetricOk(env.lower, cs[i].metric, cs[i].labels)
    ensures After(env, s, d).counters == s.counters && After(env, s, d).processed == s.processed
  {
    assert !Lintable(env, cs);
    if Decide(env, d).Accepted? {
      AcceptedWhole(env, d);
    }
  }

  lemma AllOrNoneLint(env: Env, topic: string, event: Event, cs: seq<Contribution>)
    requires LowerFixesLabels(env.lower) && EventOk(env.lower, topic, event)
    requires Project(env.fl, topic, event) == Some(cs) && cs != []
    ensures Lintable(env, cs) <==> MandatoryAreStrings(event)
  {
    forall c | c in cs
      ensures MetricOk(env.lower, c.metric, c.labels) <==> MandatoryAreStrings(event)
    {
      ContributionVerdict(env.lower, env.fl, topic, event, c);
    }
    assert cs[0] in cs;
  }

  lemma LintedDecides(env: Env, d: Delivery, contribs: Option<seq<Contribution>>)
    requires d.payload.Some? && EventOk(env.lower, d.topic, d.payload.value)
    requires contribs == Project(env.fl, d.topic, d.payload.value)
    ensures Decide(env, d) == DecideProjected(env, contribs)
  {
  }

  /** The only way past the event lint into a cardinality rejection is a mandatory label
      field that is present but not a string. */
  lemma CardinalityVerdict(env: Env, d: Delivery)
    requires LowerFixesLabels(env.lower)
    requires d.payload.Some? && EventOk(env.lower, d.topic, d.payload.value)
    requires Project(env.fl, d.topic, d.payload.value).Some? && Project(env.fl, d.topic, d.payload.value).value != []
    ensures Decide(env, d) == Rejected(Cardinality) <==> !MandatoryAreStrings(d.payload.value)
    ensures Decide(env, d).Accepted? <==> MandatoryAreStrings(d.payload.value)
  {
    var contribs := Project(env.fl, d.topic, d.payload.value);
    LintedDecides(env, d, contribs);
    AllOrNoneLint(env, d.topic, d.payload.value, contribs.value);
  }

  /** A field the topic requires is missing or zero, or the schema version or the request
      hash is not of its form. */
  ghost predicate BreaksSchema(topic: string, event: Event)
  {
    || (exists k :: k in Required(topic) && !Filled(event, k))
    || ("schema_version" in event && event["schema_version"] != Str("1"))
    || ("request_id_hash" in event && !(event["request_id_hash"].Str? && IsHex64(event["request_id_hash"].s)))
  }

  lemma EventOkExactly(lower: Lower, topic: string, event: Event)
    ensures EventOk(lower, topic, event) <==>
            topic in TOPICS && (forall steps :: !Witness(lower, Obj(event), steps)) && !BreaksSchema(topic, event)
  {
    WalksAgree(lower, Obj(event), "");
  }

  /** The reason of a rejection: the topic comes before the payload, a forbidden key anywhere
      before the schema, and a known topic that is not counted is unknown only after those. */
  lemma DecideExactly(env: Env, d: Delivery)
    ensures Decide(env, d) == Rejected(DecodeFailed) <==> d.topic in TOPICS && d.payload.None?
    ensures Decide(env, d) == Rejected(Forbidden) <==>
            d.topic in TOPICS && d.payload.Some? && exists steps :: Witness(env.lower, Obj(d.payload.value), steps)
    ensures Decide(env, d) == Rejected(SchemaInvalid) <==>
            && d.topic in TOPICS && d.payload.Some? && BreaksSchema(d.topic, d.payload.value)
            && forall steps :: !Witness(env.lower, Obj(d.payload.value), steps)
    ensures Decide(env, d) == Rejected(TopicUnknown) <==>
            || d.topic !in TOPICS
            || (&& d.topic != "llm.usage.normalized" && d.topic != "llm.runtime.normalized"
                && d.payload.Some? && EventOk(env.lower, d.topic, d.payload.value))
  {
    if d.payload.Some? {
      EventOkExactly(env.lower, d.topic, d.payload.value);
      WalksAgree(env.lower, Obj(d.payload.value), "");
    }
  }

  // ------------------------------------------------ what a run holds

  /** The contributions an event commits. */
  ghost function Committed(env: Env, d: Delivery): seq<Contribution>
  {
    match Decide(env, d)
    case Rejected(_) => []
    case Accepted(cs) => cs
  }

  ghost function CommittedBy(env: Env): Delivery -> seq<Contribution>
  {
    d => Committed(env, d)
  }

  ghost function AllCommitted(env: Env, ds: seq<Delivery>): seq<Contribution>
  {
    Flatten(ds, CommittedBy(env))
  }

  /** c lands on the series of this metric and key. */
  ghost predicate Lands(c: Contribution, metric: string, key: string)
  {
    c.metric == metric && Fingerprint(c.labels) == key
  }

  ghost function Cell(counters: Counters, metric: string, key: string): Option<Series>
  {
    if metric in counters && key in counters[metric] then Some(counters[metric][key]) else None
  }

  /** The amounts that land on a series, in order of arrival. */
  ghost function Landing(cs: seq<Contribution>, metric: string, key: string): seq<real>
  {
    if cs == [] then []
    else
      var n := |cs| - 1;
      Landing(cs[..n], metric, key) + (if Lands(cs[n], metric, key) then [cs[n].value] else [])
  }

  /** Float additions from zero, one after another. */
  ghost function Folded(fl: Float, xs: seq<real>): real
  {
    if xs == [] then 0.0 else fl.plus(Folded(fl, xs[..|xs| - 1]), xs[|xs| - 1])
  }

  /** The first contribution to land on a series. */
  ghost predicate FirstLanding(cs: seq<Contribution>, metric: string, key: string, i: nat)
  {
    i < |cs| && Lands(cs[i], metric, key) && forall j :: 0 <= j < i ==> !Lands(cs[j], metric, key)
  }

  /** A series is absent until a contribution lands on it; then it holds the additions of all
      that landed, in order of arrival, under the labels of the first. */
  ghost predicate Holds(fl: Float, cell: Option<Series>, cs: seq<Contribution>, metric: string, key: string)
  {
    match cell
    case None => forall i :: 0 <= i < |cs| ==> !Lands(cs[i], metric, key)
    case Some(s) =>
      && s.sum == Folded(fl, Landing(cs, metric, key))
      && exists i: nat :: FirstLanding(cs, metric, key, i) && s.labels == cs[i].labels
  }

  /** A cell after one more contribution. */
  ghost function CellAfter(fl: Float, before: Option<Series>, c: Contribution, metric: string, key: string): Option<Series>
  {
    if !Lands(c, metric, key) then before
    else if before.None? then Some(Series(c.labels, fl.plus(0.0, c.value)))
    else Some(Series(before.value.labels, fl.plus(before.value.sum, c.value)))
  }

  lemma AddCell(fl: Float, counters: Counters, c: Contribution, metric: string, key: string)
    ensures Cell(Add(fl, counters, c), metric, key) == CellAfter(fl, Cell(counters, metric, key), c, metric, key)
  {
  }

  lemma {:induction false} AddAllHolds(fl: Float, cs: seq<Contribution>, metric: string, key: string)
    ensures Holds(fl, Cell(AddAll(fl, map[], cs), metric, key), cs, metric, key)
  {
    if cs != [] {
      var n := |cs| - 1;
      AddAllHolds(fl, cs[..n], metric, key);
      AddCell(fl, AddAll(fl, map[], cs[..n]), cs[n], metric, key);
      HoldsStep(fl, Cell(AddAll(fl, map[], cs[..n]), metric, key), cs, metric, key);
    }
  }

  lemma {:induction false} NoneLanding(cs: seq<Contribution>, metric: string, key: string)
    requires forall i :: 0 <= i < |cs| ==> !Lands(cs[i], metric, key)
    ensures Landing(cs, metric, key) == []
  {
    if cs != [] { NoneLanding(cs[..|cs| - 1], metric, key); }
  }

  lemma FoldedOne(fl: Float, xs: seq<real>, x: real)
    ensures Folded(fl, xs + [x]) == fl.plus(Folded(fl, xs), x)
  {
    assert (xs + [x])[..|xs|] == xs;
  }

  lemma HoldsStep(fl: Float, before: Option<Series>, cs: seq<Contribution>, metric: string, key: string)
    requires cs != [] && Holds(fl, before, cs[..|cs| - 1], metric, key)
    ensures Holds(fl, CellAfter(fl, before, cs[|cs| - 1], metric, key), cs, metric, key)
  {
    var n := |cs| - 1;
    FoldedOne(fl, Landing(cs[..n], metric, key), cs[n].value);
    assert forall j :: 0 <= j < n ==> cs[j] == cs[..n][j];
    if before.None? {
      NoneLanding(cs[..n], metric, key);
      if Lands(cs[n], metric, key) { assert FirstLanding(cs, metric, key, n); }
    } else {
      var i: nat :| FirstLanding(cs[..n], metric, key, i) && before.value.labels == cs[..n][i].labels;
      assert FirstLanding(cs, metric, key, i);
      if !Lands(cs[n], metric, key) { assert Landing(cs[..n], metric, key) + [] == Landing(cs[..n], metric, key); }
    }
  }

  lemma SameNext(fl: Float, x: Counters, a: seq<Contribution>, y: Counters, b: seq<Contribution>, c: Contribution)
    requires AddAll(fl, x, a) == AddAll(fl, y, b)
    ensures AddAll(fl, x, a + [c]) == AddAll(fl, y, b + [c])
  {
    assert (a + [c])[..|a|] == a && (b + [c])[..|b|] == b;
  }

  lemma SplitLast<T>(a: seq<T>, b: seq<T>)
    requires b != []
    ensures var n := |b| - 1; a + b == (a + b[..n]) + [b[n]] && b == b[..n] + [b[n]]
  {
  }

  lemma {:induction false} AddAllJoin(fl: Float, counters: Counters, a: seq<Contribution>, b: seq<Contribution>)
    ensures AddAll(fl, counters, a + b) == AddAll(fl, AddAll(fl, counters, a), b)
  {
    if b == [] {
      assert a + b == a;
    } else {
      var n := |b| - 1;
      SplitLast(a, b);
      AddAllJoin(fl, counters, a, b[..n]);
      SameNext(fl, counters, a + b[..n], AddAll(fl, counters, a), b[..n], b[n]);
    }
  }

  lemma {:induction false} RunCommits(env: Env, ds: seq<Delivery>)
    ensures Run(env, ds).counters == AddAll(env.fl, map[], AllCommitted(env, ds))
  {
    if ds != [] {
      var n := |ds| - 1;
      RunCommits(env, ds[..n]);
      AddAllJoin(env.fl, map[], AllCommitted(env, ds[..n]), Committed(env, ds[n]));
    }
  }

  /** In every run each series holds exactly the float additions, in order of arrival, of the
      accepted contributions with its metric and key, and every such contribution has its
      series. */
  lemma SeriesAreSums(env: Env, ds: seq<Delivery>, metric: string, key: string)
    ensures Holds(env.fl, Cell(Run(env, ds).counters, metric, key), AllCommitted(env, ds), metric, key)
  {
    RunCommits(env, ds);
    AddAllHolds(env.fl, AllCommitted(env, ds), metric, key);
  }

  // ------------------------------------------------ the counters of a run

  ghost function RejectedFor(env: Env, r: Reason): Delivery -> real
  {
    d => if Decide(env, d) == Rejected(r) then 1.0 else 0.0
  }

  ghost function AcceptedOne(env: Env): Delivery -> real
  {
    d => if Decide(env, d).Accepted? then 1.0 else 0.0
  }

  /** What an event adds to a series: at most one amount. */
  ghost function LandingBy(env: Env, metric: string, key: string): Delivery -> seq<real>
  {
    d => Landing(Committed(env, d), metric, key)
  }

  lemma {:induction false} LandingJoin(a: seq<Contribution>, b: seq<Contribution>, metric: string, key: string)
    ensures Landing(a + b, metric, key) == Landing(a, metric, key) + Landing(b, metric, key)
  {
    if b == [] {
      assert a + b == a;
    } else {
      var n := |b| - 1;
      LandingJoin(a, b[..n], metric, key);
      assert (a + b)[..|a + b| - 1] == a + b[..n];
    }
  }

  lemma {:induction false} LandingEvents(env: Env, ds: seq<Delivery>, metric: string, key: string)
    ensures Landing(AllCommitted(env, ds), metric, key) == Flatten(ds, LandingBy(env, metric, key))
  {
    if ds != [] {
      var n := |ds| - 1;
      LandingEvents(env, ds[..n], metric, key);
      LandingJoin(AllCommitted(env, ds[..n]), Committed(env, ds[n]), metric, key);
    }
  }

  lemma {:induction false} RunCounts(env: Env, ds: seq<Delivery>, r: Reason)
    ensures Count(Run(env, ds).rejected, r) as real == Sum(ds, RejectedFor(env, r))
    ensures r in Run(env, ds).rejected ==> Run(env, ds).rejected[r] > 0
    ensures Run(env, ds).processed as real == Sum(ds, AcceptedOne(env))
  {
    if ds != [] {
      RunCounts(env, ds[..|ds| - 1], r);
    }
  }
}
