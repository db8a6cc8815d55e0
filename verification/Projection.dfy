/** Projection of normalized events onto counter contributions
    (metrics-endpoint projection.go). A float64 is the real it stands for. */
module Projection {
  import opened Json
  import opened Contracts
  import opened Lint
  import opened Float64
  import Decimal

  datatype Contribution = Contribution(metric: string, labels: Labels, value: real)

  function GetStr(event: Event, key: string): string
  {
    if key in event && event[key].Str? then event[key].s else ""
  }

  function GetNum(event: Event, key: string): Option<real>
  {
    if key in event && event[key].Num? then Some(event[key].n) else None
  }

  function AddIfNonEmpty(labels: Labels, k: string, v: string): Labels
  {
    if v == "" then labels else labels[k := v]
  }

  /** int64(f): truncation toward zero. */
  function Truncate(x: real): int
  {
    if x >= 0.0 then x.Floor else -((-x).Floor)
  }

  function BaseLabels(event: Event): Labels
  {
    var fixed := map[
      "provider" := GetStr(event, "provider"),
      "model" := GetStr(event, "model"),
      "operation" := GetStr(event, "operation"),
      "tenant" := GetStr(event, "tenant"),
      "team" := GetStr(event, "team"),
      "env" := GetStr(event, "env")
    ];
    AddIfNonEmpty(AddIfNonEmpty(AddIfNonEmpty(fixed, "app", GetStr(event, "app")),
                                "project", GetStr(event, "project")),
                  "region", GetStr(event, "region"))
  }

  /** A counted field is taken as it is; cents are divided into dollars. */
  function Scaled(fl: Float, v: real, scale: real): real
  {
    if scale == 1.0 then v else fl.div(v, scale)
  }

  /** A contribution of a positive numeric field, if the event carries one. */
  function Counted(fl: Float, event: Event, field: string, metric: string, labels: Labels, scale: real): seq<Contribution>
  {
    match GetNum(event, field)
    case Some(v) => if v > 0.0 then [Contribution(metric, labels, Scaled(fl, v, scale))] else []
    case None => []
  }

  function ProjectUsage(fl: Float, event: Event): seq<Contribution>
  {
    var base := BaseLabels(event);
    Counted(fl, event, "request_count", "llm_requests_total", base, 1.0)
    + Counted(fl, event, "input_tokens", "llm_input_tokens_total", base, 1.0)
    + Counted(fl, event, "output_tokens", "llm_output_tokens_total", base, 1.0)
    + Counted(fl, event, "total_tokens", "llm_total_tokens_total", base, 1.0)
    + Counted(fl, event, "cost_usd_minor_units", "llm_cost_usd_total", base, 100.0)
  }

  function StatusCode(event: Event): string
  {
    match GetNum(event, "status_code")
    case Some(sc) => Decimal.FormatInt(Truncate(sc))
    case None => ""
  }

  /** The label spells the numeric status_code field truncated toward zero. */
  lemma StatusCodeMeans(event: Event)
    ensures "status_code" in event && event["status_code"].Num? ==>
              var n, code := event["status_code"].n, Decimal.ParseInt(StatusCode(event)) as real;
              StatusCode(event) != "" && if n < 0.0 then code - 1.0 < n <= code else code <= n < code + 1.0
    ensures StatusCode(event) != "" ==> "status_code" in event && event["status_code"].Num?
  {
    if GetNum(event, "status_code").Some? { Decimal.ParseFormatInt(Truncate(GetNum(event, "status_code").value)); }
  }

  function WithStatus(event: Event): Labels
  {
    AddIfNonEmpty(BaseLabels(event), "status_code", StatusCode(event))
  }

  function WithError(event: Event): Labels
  {
    AddIfNonEmpty(BaseLabels(event), "error_type", GetStr(event, "error_type"))
  }

  function WithBoth(event: Event): Labels
  {
    AddIfNonEmpty(WithStatus(event), "error_type", GetStr(event, "error_type"))
  }

  /** The counter a failed request ticks besides llm_requests_total. */
  function StatusContribution(event: Event): seq<Contribution>
  {
    var status := GetStr(event, "status");
    if status == "error" then [Contribution("llm_errors_total", WithBoth(event), 1.0)]
    else if status == "timeout" then [Contribution("llm_timeouts_total", BaseLabels(event), 1.0)]
    else if status == "rate_limited" then [Contribution("llm_rate_limit_events_total", WithStatus(event), 1.0)]
    else []
  }

  function ProjectRuntime(fl: Float, event: Event): seq<Contribution>
  {
    var base := BaseLabels(event);
    [Contribution("llm_requests_total", WithBoth(event), 1.0)]
    + Counted(fl, event, "input_tokens", "llm_input_tokens_total", base, 1.0)
    + Counted(fl, event, "output_tokens", "llm_output_tokens_total", base, 1.0)
    + Counted(fl, event, "total_tokens", "llm_total_tokens_total", base, 1.0)
    + StatusContribution(event)
    + Counted(fl, event, "retry_count", "llm_retries_total", WithError(event), 1.0)
  }

  function Project(fl: Float, topic: string, event: Event): Option<seq<Contribution>>
  {
    if topic == USAGE then Some(ProjectUsage(fl, event))
    else if topic == RUNTIME then Some(ProjectRuntime(fl, event))
    else None
  }

  // ------------------------------------------------ labels stay in budget

  const LABELS: set<string> := COMMON_LABELS + {"status_code", "error_type"}

  lemma AllowedInLabels(metric: string)
    requires AllowedLabels(metric).Some?
    ensures AllowedLabels(metric).value <= LABELS
  {
  }

  // ------------------------------------------------ which labels, with which values

  /** The labels that are sent even when empty. */
  const FIXED: set<string> := {"provider", "model", "operation", "tenant", "team", "env"}

  function LabelValue(event: Event, k: string): string
  {
    if k == "status_code" then StatusCode(event) else GetStr(event, k)
  }

  /** The labels of `allowed` that the event fills, each with the event's own value. */
  ghost function LabelsFor(event: Event, allowed: set<string>): Labels
  {
    map k | k in allowed && (k in FIXED || LabelValue(event, k) != "") :: LabelValue(event, k)
  }

  lemma LabelsForOne(event: Event, allowed: set<string>, k: string)
    requires k !in allowed && k !in FIXED
    ensures AddIfNonEmpty(LabelsFor(event, allowed), k, LabelValue(event, k)) == LabelsFor(event, allowed + {k})
  {
  }

  lemma FixedLabels(event: Event)
    ensures LabelsFor(event, FIXED) == map[
              "provider" := GetStr(event, "provider"),
              "model" := GetStr(event, "model"),
              "operation" := GetStr(event, "operation"),
              "tenant" := GetStr(event, "tenant"),
              "team" := GetStr(event, "team"),
              "env" := GetStr(event, "env")
            ]
  {
  }

  lemma BaseLabelsFor(event: Event)
    ensures BaseLabels(event) == LabelsFor(event, COMMON_LABELS)
  {
    FixedLabels(event);
    LabelsForOne(event, FIXED, "app");
    LabelsForOne(event, FIXED + {"app"}, "project");
    LabelsForOne(event, FIXED + {"app"} + {"project"}, "region");
    assert FIXED + {"app"} + {"project"} + {"region"} == COMMON_LABELS;
  }

  lemma VariantLabelsFor(event: Event)
    ensures WithStatus(event) == LabelsFor(event, COMMON_LABELS + {"status_code"})
    ensures WithError(event) == LabelsFor(event, COMMON_LABELS + {"error_type"})
    ensures WithBoth(event) == LabelsFor(event, COMMON_LABELS + {"status_code", "error_type"})
  {
    BaseLabelsFor(event);
    LabelsForOne(event, COMMON_LABELS, "status_code");
    LabelsForOne(event, COMMON_LABELS, "error_type");
    LabelsForOne(event, COMMON_LABELS + {"status_code"}, "error_type");
    assert COMMON_LABELS + {"status_code"} + {"error_type"} == COMMON_LABELS + {"status_code", "error_type"};
  }

  /** The contribution carries exactly those labels of `allowed` that the event fills, each
      with the event's own value; `allowed` is within its metric's budget. */
  ghost predicate Labelled(event: Event, c: Contribution, allowed: set<string>)
  {
    && AllowedLabels(c.metric).Some? && COMMON_LABELS <= allowed <= AllowedLabels(c.metric).value
    && c.labels == LabelsFor(event, allowed)
  }

  /** Usage contributions carry common labels only. */
  ghost predicate UsageLabelled(event: Event, c: Contribution)
  {
    Labelled(event, c, COMMON_LABELS)
  }

  lemma CountedUsageLabelled(fl: Float, event: Event, field: string, metric: string, scale: real)
    requires AllowedLabels(metric).Some? && COMMON_LABELS <= AllowedLabels(metric).value
    ensures forall c :: c in Counted(fl, event, field, metric, BaseLabels(event), scale) ==> UsageLabelled(event, c)
  {
    BaseLabelsFor(event);
  }

  lemma UsageMetrics()
    ensures forall m :: m in {"llm_requests_total", "llm_input_tokens_total", "llm_output_tokens_total",
                              "llm_total_tokens_total", "llm_cost_usd_total"} ==>
              AllowedLabels(m).Some? && COMMON_LABELS <= AllowedLabels(m).value
  {
  }

  lemma UsageLabelsExact(fl: Float, event: Event, c: Contribution)
    requires c in ProjectUsage(fl, event)
    ensures UsageLabelled(event, c)
  {
    UsageMetrics();
    CountedUsageLabelled(fl, event, "request_count", "llm_requests_total", 1.0);
    CountedUsageLabelled(fl, event, "input_tokens", "llm_input_tokens_total", 1.0);
    CountedUsageLabelled(fl, event, "output_tokens", "llm_output_tokens_total", 1.0);
    CountedUsageLabelled(fl, event, "total_tokens", "llm_total_tokens_total", 1.0);
    CountedUsageLabelled(fl, event, "cost_usd_minor_units", "llm_cost_usd_total", 100.0);
  }

  /** Runtime contributions carry every label their metric allows. */
  ghost predicate RuntimeLabelled(event: Event, c: Contribution)
  {
    AllowedLabels(c.metric).Some? && Labelled(event, c, AllowedLabels(c.metric).value)
  }

  ghost predicate AllRuntimeLabelled(event: Event, cs: seq<Contribution>)
  {
    forall c :: c in cs ==> RuntimeLabelled(event, c)
  }

  lemma OneRuntimeLabelled(event: Event, c: Contribution, allowed: set<string>)
    requires AllowedLabels(c.metric) == Some(allowed) && COMMON_LABELS <= allowed && c.labels == LabelsFor(event, allowed)
    ensures AllRuntimeLabelled(event, [c])
  {
    assert RuntimeLabelled(event, c);
  }

  lemma CountedRuntimeLabelled(fl: Float, event: Event, field: string, metric: string, labels: Labels, allowed: set<string>)
    requires AllowedLabels(metric) == Some(allowed) && COMMON_LABELS <= allowed && labels == LabelsFor(event, allowed)
    ensures AllRuntimeLabelled(event, Counted(fl, event, field, metric, labels, 1.0))
  {
    var cs := Counted(fl, event, field, metric, labels, 1.0);
    if cs != [] { OneRuntimeLabelled(event, cs[0], allowed); }
  }

  lemma JoinRuntimeLabelled(event: Event, a: seq<Contribution>, b: seq<Contribution>)
    requires AllRuntimeLabelled(event, a) && AllRuntimeLabelled(event, b)
    ensures AllRuntimeLabelled(event, a + b)
  {
  }

  /** The registry entries of the metrics with labels beyond the common ones. */
  lemma WideMetrics()
    ensures AllowedLabels("llm_requests_total") == Some(COMMON_LABELS + {"status_code", "error_type"})
    ensures AllowedLabels("llm_errors_total") == Some(COMMON_LABELS + {"status_code", "error_type"})
    ensures AllowedLabels("llm_retries_total") == Some(COMMON_LABELS + {"error_type"})
    ensures AllowedLabels("llm_timeouts_total") == Some(COMMON_LABELS)
    ensures AllowedLabels("llm_rate_limit_events_total") == Some(COMMON_LABELS + {"status_code"})
  {
  }

  lemma StatusRuntimeLabelled(event: Event)
    ensures AllRuntimeLabelled(event, StatusContribution(event))
  {
    BaseLabelsFor(event);
    VariantLabelsFor(event);
    WideMetrics();
    var cs := StatusContribution(event);
    if cs != [] {
      var c := cs[0];
      if c.metric == "llm_errors_total" {
        OneRuntimeLabelled(event, c, COMMON_LABELS + {"status_code", "error_type"});
      } else if c.metric == "llm_timeouts_total" {
        OneRuntimeLabelled(event, c, COMMON_LABELS);
      } else {
        OneRuntimeLabelled(event, c, COMMON_LABELS + {"status_code"});
      }
    }
  }

  lemma TokenMetrics()
    ensures AllowedLabels("llm_input_tokens_total") == AllowedLabels("llm_output_tokens_total") == Some(COMMON_LABELS)
    ensures AllowedLabels("llm_total_tokens_total") == Some(COMMON_LABELS)
  {
  }

  lemma RuntimeLabelsExact(fl: Float, event: Event)
    ensures AllRuntimeLabelled(event, ProjectRuntime(fl, event))
  {
    var base := BaseLabels(event);
    BaseLabelsFor(event);
    VariantLabelsFor(event);
    WideMetrics();
    TokenMetrics();
    StatusRuntimeLabelled(event);
    var a := [Contribution("llm_requests_total", WithBoth(event), 1.0)];
    var b := Counted(fl, event, "input_tokens", "llm_input_tokens_total", base, 1.0);
    var c := Counted(fl, event, "output_tokens", "llm_output_tokens_total", base, 1.0);
    var d := Counted(fl, event, "total_tokens", "llm_total_tokens_total", base, 1.0);
    var e := StatusContribution(event);
    var f := Counted(fl, event, "retry_count", "llm_retries_total", WithError(event), 1.0);
    OneRuntimeLabelled(event, a[0], COMMON_LABELS + {"status_code", "error_type"});
    CountedRuntimeLabelled(fl, event, "input_tokens", "llm_input_tokens_total", base, COMMON_LABELS);
    CountedRuntimeLabelled(fl, event, "output_tokens", "llm_output_tokens_total", base, COMMON_LABELS);
    CountedRuntimeLabelled(fl, event, "total_tokens", "llm_total_tokens_total", base, COMMON_LABELS);
    CountedRuntimeLabelled(fl, event, "retry_count", "llm_retries_total", WithError(event), COMMON_LABELS + {"error_type"});
    JoinRuntimeLabelled(event, a, b);
    JoinRuntimeLabelled(event, a + b, c);
    JoinRuntimeLabelled(event, a + b + c, d);
    JoinRuntimeLabelled(event, a + b + c + d, e);
    JoinRuntimeLabelled(event, a + b + c + d + e, f);
  }

  /** The labels of every projected contribution, for either topic. */
  lemma ProjectionLabelled(fl: Float, topic: string, event: Event, cs: seq<Contribution>, c: Contribution) returns (allowed: set<string>)
    requires Project(fl, topic, event) == Some(cs) && c in cs
    ensures Labelled(event, c, allowed)
  {
    if topic == USAGE {
      UsageLabelsExact(fl, event, c);
      allowed := COMMON_LABELS;
    } else {
      RuntimeLabelsExact(fl, event);
      assert RuntimeLabelled(event, c);
      allowed := AllowedLabels(c.metric).value;
    }
  }

  /** The four mandatory labels carry their event strings. */
  ghost predicate CarriesMandatory(event: Event, labels: Labels)
  {
    forall k :: k in MANDATORY_LABELS ==> k in labels && labels[k] == GetStr(event, k)
  }

  /** A projected contribution uses only allowed labels and the event's own strings. */
  ghost predicate WellLabelled(event: Event, c: Contribution)
  {
    && AllowedLabels(c.metric).Some? && c.labels.Keys <= AllowedLabels(c.metric).value <= LABELS
    && CarriesMandatory(event, c.labels)
  }

  ghost predicate AllWellLabelled(event: Event, cs: seq<Contribution>)
  {
    forall c :: c in cs ==> WellLabelled(event, c)
  }

  lemma MandatoryFixed(k: string)
    requires k in MANDATORY_LABELS
    ensures k in FIXED && k in COMMON_LABELS && k != "status_code"
  {
  }

  lemma LabelledWell(event: Event, c: Contribution, allowed: set<string>)
    requires Labelled(event, c, allowed)
    ensures WellLabelled(event, c)
  {
    AllowedInLabels(c.metric);
    forall k | k in MANDATORY_LABELS
      ensures k in c.labels && c.labels[k] == GetStr(event, k)
    {
      MandatoryFixed(k);
    }
  }

  lemma ProjectionWellLabelled(fl: Float, topic: string, event: Event)
    requires Project(fl, topic, event).Some?
    ensures AllWellLabelled(event, Project(fl, topic, event).value)
  {
    var cs := Project(fl, topic, event).value;
    forall c | c in cs
      ensures WellLabelled(event, c)
    {
      var allowed := ProjectionLabelled(fl, topic, event, cs, c);
      LabelledWell(event, c, allowed);
    }
  }

  /** strings.ToLower leaves the registered label names alone, and none is banned. */
  ghost predicate LowerFixesLabels(lower: Lower)
  {
    forall k :: k in LABELS ==> lower(k) == k
  }

  lemma LabelsNotBanned(lower: Lower)
    requires LowerFixesLabels(lower)
    ensures forall k :: k in LABELS ==> !Banned(lower, k)
  {
    assert LABELS !! FORBIDDEN_FIELDS;
  }

  // ------------------------------------------------ the cardinality verdict

  ghost predicate MandatoryAreStrings(event: Event)
  {
    forall k :: k == "provider" || k == "model" || k == "tenant" || k == "env" ==> k in event && event[k].Str?
  }

  lemma MandatoryRequired(topic: string)
    requires topic == USAGE || topic == RUNTIME
    ensures forall k :: k in MANDATORY_LABELS ==> k in Required(topic)
  {
    if topic == USAGE {
      assert USAGE_REQUIRED[5] == "provider" && USAGE_REQUIRED[6] == "model";
      assert USAGE_REQUIRED[8] == "tenant" && USAGE_REQUIRED[10] == "env";
    } else {
      assert RUNTIME_REQUIRED[5] == "provider" && RUNTIME_REQUIRED[6] == "model";
      assert RUNTIME_REQUIRED[8] == "tenant" && RUNTIME_REQUIRED[10] == "env";
    }
  }

  lemma FilledVerdict(lower: Lower, event: Event, c: Contribution)
    requires LowerFixesLabels(lower) && WellLabelled(event, c)
    requires forall k :: k in MANDATORY_LABELS ==> Filled(event, k)
    ensures MetricOk(lower, c.metric, c.labels) <==> MandatoryAreStrings(event)
  {
    LabelsNotBanned(lower);
    forall k | k in MANDATORY_LABELS
      ensures k in c.labels && k in event && (c.labels[k] != "" <==> event[k].Str?)
    {
      assert Filled(event, k);
    }
  }

  /** For an event that passed LintEvent, a contribution fails LintMetric exactly when
      provider, model, tenant or env is present but not a string. */
  lemma ContributionVerdict(lower: Lower, fl: Float, topic: string, event: Event, c: Contribution)
    requires LowerFixesLabels(lower) && EventOk(lower, topic, event)
    requires Project(fl, topic, event).Some? && c in Project(fl, topic, event).value
    ensures MetricOk(lower, c.metric, c.labels) <==> MandatoryAreStrings(event)
  {
    ProjectionWellLabelled(fl, topic, event);
    MandatoryRequired(topic);
    assert WellLabelled(event, c);
    FilledVerdict(lower, event, c);
  }

  // ------------------------------------------------ what is counted

  /** The amount a list of contributions adds to a metric. */
  function Total(cs: seq<Contribution>, metric: string): real
  {
    if cs == [] then 0.0
    else Total(cs[..|cs| - 1], metric) + (if cs[|cs| - 1].metric == metric then cs[|cs| - 1].value else 0.0)
  }

  /** A numeric field of the event, negative or missing counted as nothing. */
  function Amount(event: Event, field: string): real
  {
    match GetNum(event, field)
    case Some(v) => if v > 0.0 then v else 0.0
    case None => 0.0
  }

  lemma {:induction false} TotalJoin(a: seq<Contribution>, b: seq<Contribution>, metric: string)
    ensures Total(a + b, metric) == Total(a, metric) + Total(b, metric)
  {
    if b == [] {
      assert a + b == a;
    } else {
      var n := |b| - 1;
      TotalJoin(a, b[..n], metric);
      assert (a + b)[..|a + b| - 1] == a + b[..n];
    }
  }

  lemma TotalCounted(fl: Float, event: Event, field: string, metric: string, labels: Labels, scale: real, m: string)
    ensures Total(Counted(fl, event, field, metric, labels, scale), m) ==
            if m == metric && Amount(event, field) > 0.0 then Scaled(fl, Amount(event, field), scale) else 0.0
  {
    var cs := Counted(fl, event, field, metric, labels, scale);
    if cs != [] { assert cs[..0] == []; }
  }

  /** The cost in dollars, as the float division gives it. */
  function Dollars(fl: Float, event: Event): real
  {
    var cents := Amount(event, "cost_usd_minor_units");
    if cents > 0.0 then fl.div(cents, 100.0) else 0.0
  }

  function UsageAmount(fl: Float, event: Event, metric: string): real
  {
    if metric == "llm_requests_total" then Amount(event, "request_count")
    else if metric == "llm_input_tokens_total" then Amount(event, "input_tokens")
    else if metric == "llm_output_tokens_total" then Amount(event, "output_tokens")
    else if metric == "llm_total_tokens_total" then Amount(event, "total_tokens")
    else if metric == "llm_cost_usd_total" then Dollars(fl, event)
    else 0.0
  }

  /** A usage event adds to each metric what its own field says, and nothing else. */
  lemma UsageTotals(fl: Float, event: Event, metric: string)
    ensures Total(ProjectUsage(fl, event), metric) == UsageAmount(fl, event, metric)
  {
    var base := BaseLabels(event);
    var a := Counted(fl, event, "request_count", "llm_requests_total", base, 1.0);
    var b := Counted(fl, event, "input_tokens", "llm_input_tokens_total", base, 1.0);
    var c := Counted(fl, event, "output_tokens", "llm_output_tokens_total", base, 1.0);
    var d := Counted(fl, event, "total_tokens", "llm_total_tokens_total", base, 1.0);
    var e := Counted(fl, event, "cost_usd_minor_units", "llm_cost_usd_total", base, 100.0);
    TotalJoin(a, b, metric);
    TotalJoin(a + b, c, metric);
    TotalJoin(a + b + c, d, metric);
    TotalJoin(a + b + c + d, e, metric);
    TotalCounted(fl, event, "request_count", "llm_requests_total", base, 1.0, metric);
    TotalCounted(fl, event, "input_tokens", "llm_input_tokens_total", base, 1.0, metric);
    TotalCounted(fl, event, "output_tokens", "llm_output_tokens_total", base, 1.0, metric);
    TotalCounted(fl, event, "total_tokens", "llm_total_tokens_total", base, 1.0, metric);
    TotalCounted(fl, event, "cost_usd_minor_units", "llm_cost_usd_total", base, 100.0, metric);
  }

  function RuntimeAmount(event: Event, metric: string): real
  {
    var status := GetStr(event, "status");
    if metric == "llm_requests_total" then 1.0
    else if metric == "llm_input_tokens_total" then Amount(event, "input_tokens")
    else if metric == "llm_output_tokens_total" then Amount(event, "output_tokens")
    else if metric == "llm_total_tokens_total" then Amount(event, "total_tokens")
    else if metric == "llm_errors_total" then (if status == "error" then 1.0 else 0.0)
    else if metric == "llm_timeouts_total" then (if status == "timeout" then 1.0 else 0.0)
    else if metric == "llm_rate_limit_events_total" then (if status == "rate_limited" then 1.0 else 0.0)
    else if metric == "llm_retries_total" then Amount(event, "retry_count")
    else 0.0
  }

  lemma TotalSingle(c: Contribution, metric: string)
    ensures Total([c], metric) == if c.metric == metric then c.value else 0.0
  {
    assert [c][..0] == [];
  }

  lemma StatusTotals(event: Event, metric: string)
    ensures Total(StatusContribution(event), metric) ==
            if metric in {"llm_errors_total", "llm_timeouts_total", "llm_rate_limit_events_total"}
            then RuntimeAmount(event, metric) else 0.0
  {
    var cs := StatusContribution(event);
    if cs != [] { TotalSingle(cs[0], metric); }
  }

  /** A runtime event is one request, its own tokens and retries, and one failure of the
      kind its status names. */
  lemma RuntimeTotals(fl: Float, event: Event, metric: string)
    ensures Total(ProjectRuntime(fl, event), metric) == RuntimeAmount(event, metric)
  {
    var base := BaseLabels(event);
    var a := [Contribution("llm_requests_total", WithBoth(event), 1.0)];
    var b := Counted(fl, event, "input_tokens", "llm_input_tokens_total", base, 1.0);
    var c := Counted(fl, event, "output_tokens", "llm_output_tokens_total", base, 1.0);
    var d := Counted(fl, event, "total_tokens", "llm_total_tokens_total", base, 1.0);
    var e := StatusContribution(event);
    var f := Counted(fl, event, "retry_count", "llm_retries_total", WithError(event), 1.0);
    TotalJoin(a, b, metric);
    TotalJoin(a + b, c, metric);
    TotalJoin(a + b + c, d, metric);
    TotalJoin(a + b + c + d, e, metric);
    TotalJoin(a + b + c + d + e, f, metric);
    TotalSingle(a[0], metric);
    TotalCounted(fl, event, "input_tokens", "llm_input_tokens_total", base, 1.0, metric);
    TotalCounted(fl, event, "output_tokens", "llm_output_tokens_total", base, 1.0, metric);
    TotalCounted(fl, event, "total_tokens", "llm_total_tokens_total", base, 1.0, metric);
    StatusTotals(event, metric);
    TotalCounted(fl, event, "retry_count", "llm_retries_total", WithError(event), 1.0, metric);
  }
}
