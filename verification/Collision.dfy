/** Two accepted events whose label values contain NUL and whose order shows in the
    snapshot: the NUL separator of the fingerprint is not escaped. */
module Collision {
  import opened Json
  import opened Contracts
  import opened Lint
  import opened Projection
  import opened StringOrder
  import opened Fingerprints
  import opened Float64
  import opened Sums
  import opened Aggregator
  import opened OrderIndependence

  /** A usage event with one numeric field. */
  function Sample(env: string, model: string, counted: string, amount: real): Event
  {
    map k | k in USAGE_REQUIRED :: SampleField(k, env, model, counted, amount)
  }

  function SampleField(k: string, env: string, model: string, counted: string, amount: real): Value
  {
    if k == "schema_version" then Str(SCHEMA_VERSION)
    else if k == "env" then Str(env)
    else if k == "model" then Str(model)
    else if k == counted then Num(amount)
    else Str("x")
  }

  const TOKENS := "input_tokens"
  const COST := "cost_usd_minor_units"

  function SampleLabels(env: string, model: string): Labels
  {
    map["provider" := "x", "model" := model, "operation" := "x", "tenant" := "x", "team" := "x", "env" := env]
  }

  lemma RequiredNotForbidden(k: string)
    requires k in USAGE_REQUIRED
    ensures k !in FORBIDDEN_FIELDS
  {
    var i :| 0 <= i < |USAGE_REQUIRED| && USAGE_REQUIRED[i] == k;
  }

  lemma OptionalNotRequired(k: string)
    requires k in USAGE_REQUIRED
    ensures k !in {"request_id_hash", "request_count", "app", "project", "region"}
  {
    var i :| 0 <= i < |USAGE_REQUIRED| && USAGE_REQUIRED[i] == k;
  }

  /** strings.ToLower leaves the required field names alone. */
  ghost predicate LowerFixesRequired(lower: Lower)
  {
    forall k :: k in USAGE_REQUIRED ==> lower(k) == k
  }

  lemma SampleOk(svc: Env, env: string, model: string, counted: string, amount: real)
    requires LowerFixesRequired(svc.lower) && env != "" && model != ""
    ensures EventOk(svc.lower, USAGE, Sample(env, model, counted, amount))
  {
    var event := Sample(env, model, counted, amount);
    forall k | k in event
      ensures !Banned(svc.lower, k) && !HasForbidden(svc.lower, event[k]) && Filled(event, k)
    {
      RequiredNotForbidden(k);
    }
    if "request_id_hash" in USAGE_REQUIRED { OptionalNotRequired("request_id_hash"); }
  }

  lemma SampleAbsent(event: Event, k: string)
    requires event.Keys <= (set x | x in USAGE_REQUIRED) && k in {"request_count", "app", "project", "region"}
    ensures k !in event
  {
    if k in USAGE_REQUIRED { OptionalNotRequired(k); }
  }

  lemma SampleString(env: string, model: string, counted: string, amount: real, i: nat)
    requires 5 <= i <= 10 && (counted == TOKENS || counted == COST)
    ensures GetStr(Sample(env, model, counted, amount), USAGE_REQUIRED[i]) ==
            if USAGE_REQUIRED[i] == "env" then env else if USAGE_REQUIRED[i] == "model" then model else "x"
  {
    assert USAGE_REQUIRED[i] in Sample(env, model, counted, amount);
  }

  lemma SampleStrings(env: string, model: string, counted: string, amount: real)
    requires counted == TOKENS || counted == COST
    ensures var event := Sample(env, model, counted, amount);
            && GetStr(event, "provider") == "x" && GetStr(event, "model") == model && GetStr(event, "operation") == "x"
            && GetStr(event, "tenant") == "x" && GetStr(event, "team") == "x" && GetStr(event, "env") == env
  {
    SampleString(env, model, counted, amount, 5);
    SampleString(env, model, counted, amount, 6);
    SampleString(env, model, counted, amount, 7);
    SampleString(env, model, counted, amount, 8);
    SampleString(env, model, counted, amount, 9);
    SampleString(env, model, counted, amount, 10);
  }

  /** The numeric fields a usage event can count. */
  ghost predicate OnlyCounts(event: Event, counted: string, amount: real)
  {
    forall f :: f in {"request_count", "input_tokens", "output_tokens", "total_tokens", "cost_usd_minor_units"} ==>
      GetNum(event, f) == if f == counted then Some(amount) else None
  }

  lemma SampleNumbers(env: string, model: string, counted: string, amount: real)
    requires counted == TOKENS || counted == COST
    ensures OnlyCounts(Sample(env, model, counted, amount), counted, amount)
  {
    SampleAbsent(Sample(env, model, counted, amount), "request_count");
    assert USAGE_REQUIRED[11] == TOKENS && USAGE_REQUIRED[14] == COST;
  }

  lemma SampleBase(env: string, model: string, counted: string, amount: real)
    requires counted == TOKENS || counted == COST
    ensures BaseLabels(Sample(env, model, counted, amount)) == SampleLabels(env, model)
  {
    var event := Sample(env, model, counted, amount);
    SampleStrings(env, model, counted, amount);
    SampleAbsent(event, "app");
    SampleAbsent(event, "project");
    SampleAbsent(event, "region");
  }

  lemma OneCounted(fl: Float, event: Event, base: Labels)
    requires base == BaseLabels(event) && OnlyCounts(event, TOKENS, 1.0)
    ensures ProjectUsage(fl, event) == [Contribution("llm_input_tokens_total", base, 1.0)]
  {
  }

  lemma OneCosted(fl: Float, event: Event, base: Labels, cents: real)
    requires base == BaseLabels(event) && OnlyCounts(event, COST, cents) && cents > 0.0
    ensures ProjectUsage(fl, event) == [Contribution("llm_cost_usd_total", base, fl.div(cents, 100.0))]
  {
  }

  lemma MandatoryStrings(env: string, model: string, counted: string, amount: real)
    requires counted == TOKENS || counted == COST
    ensures MandatoryAreStrings(Sample(env, model, counted, amount))
  {
    MandatoryRequired(USAGE);
  }

  /** What the sample commits is what it projects. */
  lemma SampleAccepted(svc: Env, env: string, model: string, counted: string, amount: real, cs: seq<Contribution>)
    requires LowerFixesRequired(svc.lower) && LowerFixesLabels(svc.lower) && env != "" && model != ""
    requires (counted == TOKENS || counted == COST) && cs != []
    requires ProjectUsage(svc.fl, Sample(env, model, counted, amount)) == cs
    ensures Committed(svc, Delivery(USAGE, Some(Sample(env, model, counted, amount)))) == cs
  {
    var d := Delivery(USAGE, Some(Sample(env, model, counted, amount)));
    SampleOk(svc, env, model, counted, amount);
    MandatoryStrings(env, model, counted, amount);
    CardinalityVerdict(svc, d);
    AcceptedWhole(svc, d);
  }

  lemma TokensAccepted(svc: Env, env: string, model: string)
    requires LowerFixesRequired(svc.lower) && LowerFixesLabels(svc.lower) && env != "" && model != ""
    ensures Committed(svc, Delivery(USAGE, Some(Sample(env, model, TOKENS, 1.0)))) ==
            [Contribution("llm_input_tokens_total", SampleLabels(env, model), 1.0)]
  {
    SampleNumbers(env, model, TOKENS, 1.0);
    SampleBase(env, model, TOKENS, 1.0);
    OneCounted(svc.fl, Sample(env, model, TOKENS, 1.0), SampleLabels(env, model));
    SampleAccepted(svc, env, model, TOKENS, 1.0, [Contribution("llm_input_tokens_total", SampleLabels(env, model), 1.0)]);
  }

  /** A usage event that costs this many cents. */
  function Cost(cents: real): Delivery
  {
    Delivery(USAGE, Some(Sample("x", "x", COST, cents)))
  }

  function CostContribution(fl: Float, cents: real): Contribution
  {
    Contribution("llm_cost_usd_total", SampleLabels("x", "x"), fl.div(cents, 100.0))
  }

  lemma CostAccepted(svc: Env, cents: real)
    requires LowerFixesRequired(svc.lower) && LowerFixesLabels(svc.lower) && cents > 0.0
    ensures Committed(svc, Cost(cents)) == [CostContribution(svc.fl, cents)]
  {
    SampleNumbers("x", "x", COST, cents);
    SampleBase("x", "x", COST, cents);
    OneCosted(svc.fl, Sample("x", "x", COST, cents), SampleLabels("x", "x"), cents);
    SampleAccepted(svc, "x", "x", COST, cents, [CostContribution(svc.fl, cents)]);
  }

  const SAMPLE_KEYS: set<string> := {"env", "model", "operation", "provider", "team", "tenant"}

  lemma LeastIs(s: set<string>, k: string)
    requires IsLeast(k, s)
    ensures Least(s) == k
  {
    if Least(s) != k {
      Transitive(k, Least(s), k);
      Irreflexive(k);
    }
  }

  lemma FirstTwo()
    ensures Sorted(SAMPLE_KEYS) == ["env"] + (["model"] + Sorted(SAMPLE_KEYS - {"env"} - {"model"}))
  {
    assert Less("env", "model") && Less("env", "operation") && Less("env", "provider") && Less("env", "team") && Less("env", "tenant");
    LeastIs(SAMPLE_KEYS, "env");
    assert Less("model", "operation") && Less("model", "provider") && Less("model", "team") && Less("model", "tenant");
    LeastIs(SAMPLE_KEYS - {"env"}, "model");
  }

  function Head(k: string, v: string, l: string, w: string): string
  {
    Pair(k, v) + "\0" + (Pair(l, w) + "\0")
  }

  lemma TwoPairs(labels: Labels, k: string, l: string, rest: seq<string>)
    requires rest != [] && k in labels && l in labels && forall x :: x in rest ==> x in labels
    ensures Joined(labels, [k] + ([l] + rest)) == Head(k, labels[k], l, labels[l]) + Joined(labels, rest)
  {
    var keys := [k] + ([l] + rest);
    assert keys[1..] == [l] + rest;
    assert keys[1..][1..] == rest;
  }

  lemma {:induction false} TailJoined(a: Labels, b: Labels, keys: seq<string>)
    requires forall k :: k in keys ==> k in a && k in b && a[k] == b[k]
    ensures Joined(a, keys) == Joined(b, keys)
  {
    if |keys| > 1 { TailJoined(a, b, keys[1..]); }
  }

  lemma SameHead(k: string, v: string, l: string, between: string, w: string)
    ensures Head(k, v + ("\0" + Pair(l, between)), l, w) == Head(k, v, l, between + ("\0" + Pair(l, w)))
  {
    var x := k + ("=" + (v + ("\0" + (l + ("=" + (between + ("\0" + (l + ("=" + (w + "\0"))))))))));
    assert Head(k, v + ("\0" + Pair(l, between)), l, w) == x;
    assert Head(k, v, l, between + ("\0" + Pair(l, w))) == x;
  }

  ghost function OtherKeys(): seq<string>
  {
    Sorted(SAMPLE_KEYS - {"env"} - {"model"})
  }

  ghost function OtherPairs(): string
  {
    Joined(SampleLabels("", ""), OtherKeys())
  }

  lemma OthersSame(labels: Labels, env: string, model: string)
    requires labels == SampleLabels(env, model)
    ensures forall k :: k in OtherKeys() ==> k in labels
    ensures Joined(labels, OtherKeys()) == OtherPairs()
  {
    TailJoined(labels, SampleLabels("", ""), OtherKeys());
  }

  lemma StartsWithTwo(labels: Labels, rest: seq<string>)
    requires labels.Keys == SAMPLE_KEYS && rest == OtherKeys()
    ensures rest != [] && forall k :: k in rest ==> k in labels
    ensures Fingerprint(labels) == Head("env", labels["env"], "model", labels["model"]) + Joined(labels, rest)
  {
    FirstTwo();
    assert "team" in rest;
    TwoPairs(labels, "env", "model", rest);
  }

  lemma SampleEntries(labels: Labels, env: string, model: string)
    requires labels == SampleLabels(env, model)
    ensures labels.Keys == SAMPLE_KEYS && labels["env"] == env && labels["model"] == model
  {
  }

  lemma SampleFingerprint(labels: Labels, env: string, model: string)
    requires labels == SampleLabels(env, model)
    ensures Fingerprint(labels) == Head("env", env, "model", model) + OtherPairs()
  {
    SampleEntries(labels, env, model);
    OthersSame(labels, env, model);
    StartsWithTwo(labels, OtherKeys());
  }

  /** Moving a pair across the boundary of two neighbouring values keeps the fingerprint. */
  lemma BoundaryMoves(env: string, between: string, model: string, longEnv: string, longModel: string)
    requires longEnv == env + ("\0" + Pair("model", between)) && longModel == between + ("\0" + Pair("model", model))
    ensures Fingerprint(SampleLabels(longEnv, model)) == Fingerprint(SampleLabels(env, longModel))
  {
    SampleFingerprint(SampleLabels(longEnv, model), longEnv, model);
    SampleFingerprint(SampleLabels(env, longModel), env, longModel);
    SameHead("env", env, "model", between, model);
  }

  /** The promise that a snapshot does not depend on the order of events fails for this
      family: the two events land on one series, which keeps the labels of whichever came
      first. */
  lemma OrderShows(svc: Env, env: string, between: string, model: string)
    requires LowerFixesRequired(svc.lower) && LowerFixesLabels(svc.lower)
    requires env != "" && between != "" && model != ""
    ensures var d := Delivery(USAGE, Some(Sample(env + ("\0" + Pair("model", between)), model, TOKENS, 1.0)));
            var e := Delivery(USAGE, Some(Sample(env, between + ("\0" + Pair("model", model)), TOKENS, 1.0)));
            !AnyOrderSameSnapshot(svc, [d, e])
  {
    var longEnv, longModel := env + ("\0" + Pair("model", between)), between + ("\0" + Pair("model", model));
    var d := Delivery(USAGE, Some(Sample(longEnv, model, TOKENS, 1.0)));
    var e := Delivery(USAGE, Some(Sample(env, longModel, TOKENS, 1.0)));
    TokensAccepted(svc, longEnv, model);
    TokensAccepted(svc, env, longModel);
    BoundaryMoves(env, between, model, longEnv, longModel);
    assert SampleLabels(longEnv, model)["env"] != SampleLabels(env, longModel)["env"];
    PairCollides(svc, d, e, SampleLabels(longEnv, model), SampleLabels(env, longModel));
  }

  lemma PairCollides(svc: Env, d: Delivery, e: Delivery, a: Labels, b: Labels)
    requires Committed(svc, d) == [Contribution("llm_input_tokens_total", a, 1.0)]
    requires Committed(svc, e) == [Contribution("llm_input_tokens_total", b, 1.0)]
    requires Fingerprint(a) == Fingerprint(b) && a != b
    ensures !AnyOrderSameSnapshot(svc, [d, e])
  {
    var c := Contribution("llm_input_tokens_total", a, 1.0);
    var f := Contribution("llm_input_tokens_total", b, 1.0);
    assert c in CommittedBy(svc)(d) && f in CommittedBy(svc)(e);
    CommittedMember(svc, [d, e], c);
    CommittedMember(svc, [d, e], f);
    CollisionShows(svc, [d, e], c, f);
  }

  // ------------------------------------------------ cents whose order shows

  lemma LandingSingle(c: Contribution)
    ensures Landing([c], c.metric, Fingerprint(c.labels)) == [c.value]
  {
    assert [c][..0] == [];
  }

  /** Three contributions on one series. */
  lemma ThreeLanding(x: Contribution, y: Contribution, z: Contribution, metric: string, key: string)
    requires Lands(x, metric, key) && Lands(y, metric, key) && Lands(z, metric, key)
    ensures Landing([x, y, z], metric, key) == [x.value, y.value, z.value]
  {
    assert [x, y, z] == [x] + ([y] + [z]);
    LandingJoin([x], [y] + [z], metric, key);
    LandingJoin([y], [z], metric, key);
    LandingSingle(x);
    LandingSingle(y);
    LandingSingle(z);
  }

  lemma ThreeFolded(fl: Float, x: real, y: real, z: real)
    ensures Folded(fl, [x, y, z]) == fl.plus(fl.plus(fl.plus(0.0, x), y), z)
  {
    assert [x, y, z] == [x, y] + [z] && [x, y] == [x] + [y] && [x] == [] + [x];
    FoldedOne(fl, [x, y], z);
    FoldedOne(fl, [x], y);
    FoldedOne(fl, [], x);
  }

  lemma CostCommittedBy(svc: Env, cents: real, c: Contribution)
    requires LowerFixesRequired(svc.lower) && LowerFixesLabels(svc.lower) && cents > 0.0
    requires c == CostContribution(svc.fl, cents)
    ensures CommittedBy(svc)(Cost(cents)) == [c]
  {
    CostAccepted(svc, cents);
  }

  lemma ThreeCommitted(svc: Env, a: real, b: real, c: real, x: Contribution, y: Contribution, z: Contribution)
    requires LowerFixesRequired(svc.lower) && LowerFixesLabels(svc.lower) && a > 0.0 && b > 0.0 && c > 0.0
    requires x == CostContribution(svc.fl, a) && y == CostContribution(svc.fl, b) && z == CostContribution(svc.fl, c)
    ensures AllCommitted(svc, [Cost(a), Cost(b), Cost(c)]) == [x, y, z]
  {
    CostCommittedBy(svc, a, x);
    CostCommittedBy(svc, b, y);
    CostCommittedBy(svc, c, z);
    FlattenThree(Cost(a), Cost(b), Cost(c), CommittedBy(svc));
  }

  /** Three amounts that float addition sums differently in two orders. */
  lemma ThreeShow(svc: Env, ds: seq<Delivery>, x: Contribution, y: Contribution, z: Contribution)
    requires AllCommitted(svc, ds) == [x, y, z]
    requires x.metric == y.metric == z.metric && x.labels == y.labels == z.labels
    requires svc.fl.plus(svc.fl.plus(svc.fl.plus(0.0, x.value), y.value), z.value) !=
             svc.fl.plus(svc.fl.plus(svc.fl.plus(0.0, z.value), y.value), x.value)
    ensures NoCollision(AllCommitted(svc, ds)) && !AnyOrderSameSnapshot(svc, ds)
  {
    SameLabelsNoCollision(x, y, z);
    ThreeLanding(x, y, z, x.metric, Fingerprint(x.labels));
    ThreeFolded(svc.fl, x.value, y.value, z.value);
    ThreeFolded(svc.fl, z.value, y.value, x.value);
    Reversed(x.value, y.value, z.value);
    FoldShows(svc, ds, x.metric, Fingerprint(x.labels), [x.value, y.value, z.value], [z.value, y.value, x.value]);
  }

  lemma SameLabelsNoCollision(x: Contribution, y: Contribution, z: Contribution)
    requires x.labels == y.labels == z.labels
    ensures NoCollision([x, y, z])
  {
    var cs := [x, y, z];
    forall i | 0 <= i < |cs| ensures cs[i].labels == x.labels { }
    OneLabelSet(cs, x.labels);
  }

  lemma OneLabelSet(cs: seq<Contribution>, labels: Labels)
    requires forall i :: 0 <= i < |cs| ==> cs[i].labels == labels
    ensures NoCollision(cs)
  {
    forall c, f | c in cs && f in cs && Collide(c, f)
      ensures c.labels == f.labels
    {
    }
  }

  lemma Reversed(x: real, y: real, z: real)
    ensures multiset([z, y, x]) == multiset([x, y, z])
  {
  }

  lemma FoldShows(svc: Env, ds: seq<Delivery>, m: string, k: string, xs: seq<real>, ys: seq<real>)
    requires Landing(AllCommitted(svc, ds), m, k) == xs && multiset(ys) == multiset(xs)
    requires Folded(svc.fl, ys) != Folded(svc.fl, xs)
    ensures !AnyOrderSameSnapshot(svc, ds)
  {
    if AnyOrderSameSnapshot(svc, ds) {
      LandingShows(svc, ds, m, k, ys);
    }
  }

  /** Costs that float addition sums differently in two orders show their order in the
      snapshot, although nothing collides. */
  lemma CostOrderShows(svc: Env, a: real, b: real, c: real)
    requires LowerFixesRequired(svc.lower) && LowerFixesLabels(svc.lower) && a > 0.0 && b > 0.0 && c > 0.0
    requires var x, y, z := svc.fl.div(a, 100.0), svc.fl.div(b, 100.0), svc.fl.div(c, 100.0);
             svc.fl.plus(svc.fl.plus(svc.fl.plus(0.0, x), y), z) != svc.fl.plus(svc.fl.plus(svc.fl.plus(0.0, z), y), x)
    ensures NoCollision(AllCommitted(svc, [Cost(a), Cost(b), Cost(c)]))
    ensures !AnyOrderSameSnapshot(svc, [Cost(a), Cost(b), Cost(c)])
  {
    var x, y, z := CostContribution(svc.fl, a), CostContribution(svc.fl, b), CostContribution(svc.fl, c);
    ThreeCommitted(svc, a, b, c, x, y, z);
    ThreeShow(svc, [Cost(a), Cost(b), Cost(c)], x, y, z);
  }

  /** In binary64, three usage events of 10, 20 and 30 cents on one series make
      0.6000000000000001 dollars in this order and 0.6 in the other. */
  lemma CentsOrderShows(svc: Env)
    requires Binary64(svc.fl) && LowerFixesRequired(svc.lower) && LowerFixesLabels(svc.lower)
    ensures NoCollision(AllCommitted(svc, [Cost(10.0), Cost(20.0), Cost(30.0)]))
    ensures !AnyOrderSameSnapshot(svc, [Cost(10.0), Cost(20.0), Cost(30.0)])
  {
    CentsShowOrder(svc.fl);
    CostOrderShows(svc, 10.0, 20.0, 30.0);
  }
}
