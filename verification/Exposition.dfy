/** Rendering a snapshot (metrics-endpoint exposition.go), and what a scraper reads back.

`lexeme` is the %g rendering of a fractional value, `describe` the help text and type the
registry holds for a metric. */
module Exposition {
  import opened Json
  import opened Contracts
  import opened Lint
  import opened Projection
  import opened StringOrder
  import opened Aggregator
  import opened PromText
  import OrderIndependence
  import Decimal

  datatype Meta = Meta(help: string, kind: string)
  datatype SelfMetrics = SelfMetrics(rejected: map<Reason, nat>, processed: nat, seriesCount: nat)

  /** The value survives the conversion to a 64-bit integer and back. */
  predicate Whole64(v: real)
  {
    v == v.Floor as real && -0x8000_0000_0000_0000 <= v.Floor < 0x8000_0000_0000_0000
  }

  /** Whole values stay integer-shaped. */
  function FormatFloat(lexeme: real -> string, v: real): string
  {
    if Whole64(v) then Decimal.FormatInt(v.Floor) else lexeme(v)
  }

  ghost predicate Is64(n: int, v: real)
  {
    v == n as real && -0x8000_0000_0000_0000 <= n < 0x8000_0000_0000_0000
  }

  /** Whole 64-bit values are spelled in decimal digits, all others by %g. */
  lemma FormatFloatMeans(lexeme: real -> string, v: real)
    ensures (exists n: int :: Is64(n, v)) ==> Decimal.ParseInt(FormatFloat(lexeme, v)) as real == v
    ensures (forall n: int :: !Is64(n, v)) ==> FormatFloat(lexeme, v) == lexeme(v)
  {
    Decimal.ParseFormatInt(v.Floor);
    assert Whole64(v) ==> Is64(v.Floor, v);
  }

  const ALL_REASONS: seq<Reason> := [DecodeFailed, SchemaInvalid, Forbidden, Cardinality, TopicUnknown]

  function ReasonName(r: Reason): string
  {
    match r
    case DecodeFailed => "decode"
    case SchemaInvalid => "schema"
    case Forbidden => "forbidden"
    case Cardinality => "cardinality"
    case TopicUnknown => "unknown_topic"
  }

  // ------------------------------------------------ the lines of a document

  function SeriesLines(lexeme: real -> string, name: string, series: seq<Series>): seq<Line>
  {
    if series == [] then []
    else
      var n := |series| - 1;
      SeriesLines(lexeme, name, series[..n]) + [Sample(name, series[n].labels, FormatFloat(lexeme, series[n].sum))]
  }

  function HeaderLines(name: string, meta: Meta): seq<Line>
  {
    [Help(name, meta.help), Type(name, meta.kind)]
  }

  function ViewLines(lexeme: real -> string, describe: string -> Meta, v: MetricView): seq<Line>
  {
    HeaderLines(v.name, describe(v.name)) + SeriesLines(lexeme, v.name, v.series)
  }

  function MetricLines(lexeme: real -> string, describe: string -> Meta, views: seq<MetricView>): seq<Line>
  {
    if views == [] then []
    else
      var n := |views| - 1;
      MetricLines(lexeme, describe, views[..n]) + ViewLines(lexeme, describe, views[n])
  }

  const REJECTED_METRIC := "llm_aggregator_rejected_events_total"
  const PROCESSED_METRIC := "llm_aggregator_processed_events_total"
  const SERIES_METRIC := "llm_aggregator_series_total"
  const REJECTED_META := Meta("Events the aggregator rejected before counting them, by reason.", "counter")
  const PROCESSED_META := Meta("Events the aggregator successfully applied to its in-memory state.", "counter")
  const SERIES_META := Meta("Distinct (metric, labelset) pairs currently held in memory.", "gauge")

  /** One line per reason, zero included. */
  function ReasonLines(rejected: map<Reason, nat>, reasons: seq<Reason>): seq<Line>
  {
    if reasons == [] then []
    else
      var n := |reasons| - 1;
      ReasonLines(rejected, reasons[..n])
      + [Sample(REJECTED_METRIC, map["reason" := ReasonName(reasons[n])], Decimal.FormatInt(Count(rejected, reasons[n])))]
  }

  function SelfLines(self: SelfMetrics): seq<Line>
  {
    HeaderLines(REJECTED_METRIC, REJECTED_META)
    + ReasonLines(self.rejected, ALL_REASONS)
    + HeaderLines(PROCESSED_METRIC, PROCESSED_META)
    + [Sample(PROCESSED_METRIC, map[], Decimal.FormatInt(self.processed))]
    + HeaderLines(SERIES_METRIC, SERIES_META)
    + [Sample(SERIES_METRIC, map[], Decimal.FormatInt(self.seriesCount))]
  }

  // ------------------------------------------------ writing

  lemma DocAppend(w: string, done: seq<Line>, line: Line)
    requires w == DocText(done)
    ensures w + LineText(line) == DocText(done + [line])
  {
    assert (done + [line])[..|done|] == done;
  }

  /** Writes a header after the lines already written. */
  method PutHeader(w: string, name: string, meta: Meta, ghost done: seq<Line>) returns (out: string)
    requires w == DocText(done)
    ensures out == DocText(done + HeaderLines(name, meta))
  {
    out := WriteMetricHeader(w, name, meta.help, meta.kind);
    DocAppend(w, done, Help(name, meta.help));
    DocAppend(w + LineText(Help(name, meta.help)), done + [Help(name, meta.help)], Type(name, meta.kind));
    assert done + [Help(name, meta.help)] + [Type(name, meta.kind)] == done + HeaderLines(name, meta);
  }

  method PutSeries(w: string, name: string, labels: Labels, value: string, ghost done: seq<Line>) returns (out: string)
    requires w == DocText(done)
    ensures out == DocText(done + [Sample(name, labels, value)])
  {
    out := WriteSeries(w, name, labels, value);
    DocAppend(w, done, Sample(name, labels, value));
  }

  method PutAllSeries(w: string, lexeme: real -> string, view: MetricView, ghost done: seq<Line>) returns (out: string)
    requires w == DocText(done)
    ensures out == DocText(done + SeriesLines(lexeme, view.name, view.series))
  {
    out := w;
    assert done + [] == done;
    for i := 0 to |view.series|
      invariant out == DocText(done + SeriesLines(lexeme, view.name, view.series[..i]))
    {
      var s := view.series[i];
      out := PutSeries(out, view.name, s.labels, FormatFloat(lexeme, s.sum),
                       done + SeriesLines(lexeme, view.name, view.series[..i]));
      SeriesStep(done, lexeme, view, i);
    }
    assert view.series[..|view.series|] == view.series;
  }

  lemma SeriesStep(done: seq<Line>, lexeme: real -> string, view: MetricView, i: nat)
    requires i < |view.series|
    ensures var s := view.series[i];
            done + SeriesLines(lexeme, view.name, view.series[..i]) + [Sample(view.name, s.labels, FormatFloat(lexeme, s.sum))] ==
            done + SeriesLines(lexeme, view.name, view.series[..i + 1])
  {
    assert view.series[..i + 1][..i] == view.series[..i];
  }

  method PutReasons(w: string, rejected: map<Reason, nat>, ghost done: seq<Line>) returns (out: string)
    requires w == DocText(done)
    ensures out == DocText(done + ReasonLines(rejected, ALL_REASONS))
  {
    out := w;
    assert done + [] == done;
    for i := 0 to |ALL_REASONS|
      invariant out == DocText(done + ReasonLines(rejected, ALL_REASONS[..i]))
    {
      var r := ALL_REASONS[i];
      out := PutSeries(out, REJECTED_METRIC, map["reason" := ReasonName(r)], Decimal.FormatInt(Count(rejected, r)),
                       done + ReasonLines(rejected, ALL_REASONS[..i]));
      ReasonStep(done, rejected, ALL_REASONS, i);
    }
    assert ALL_REASONS[..|ALL_REASONS|] == ALL_REASONS;
  }

  lemma ReasonStep(done: seq<Line>, rejected: map<Reason, nat>, reasons: seq<Reason>, i: nat)
    requires i < |reasons|
    ensures done + ReasonLines(rejected, reasons[..i])
            + [Sample(REJECTED_METRIC, map["reason" := ReasonName(reasons[i])], Decimal.FormatInt(Count(rejected, reasons[i])))] ==
            done + ReasonLines(rejected, reasons[..i + 1])
  {
    assert reasons[..i + 1][..i] == reasons[..i];
  }

  method WriteSelfMetrics(w: string, self: SelfMetrics, ghost done: seq<Line>) returns (out: string)
    requires w == DocText(done)
    ensures out == DocText(done + SelfLines(self))
  {
    ghost var a := done + HeaderLines(REJECTED_METRIC, REJECTED_META);
    out := PutHeader(w, REJECTED_METRIC, REJECTED_META, done);
    ghost var b := a + ReasonLines(self.rejected, ALL_REASONS);
    out := PutReasons(out, self.rejected, a);
    ghost var c := b + HeaderLines(PROCESSED_METRIC, PROCESSED_META);
    out := PutHeader(out, PROCESSED_METRIC, PROCESSED_META, b);
    ghost var d := c + [Sample(PROCESSED_METRIC, map[], Decimal.FormatInt(self.processed))];
    out := PutSeries(out, PROCESSED_METRIC, map[], Decimal.FormatInt(self.processed), c);
    ghost var e := d + HeaderLines(SERIES_METRIC, SERIES_META);
    out := PutHeader(out, SERIES_METRIC, SERIES_META, d);
    out := PutSeries(out, SERIES_METRIC, map[], Decimal.FormatInt(self.seriesCount), e);
    SelfParts(done, HeaderLines(REJECTED_METRIC, REJECTED_META), ReasonLines(self.rejected, ALL_REASONS),
              HeaderLines(PROCESSED_METRIC, PROCESSED_META),
              [Sample(PROCESSED_METRIC, map[], Decimal.FormatInt(self.processed))],
              HeaderLines(SERIES_METRIC, SERIES_META),
              [Sample(SERIES_METRIC, map[], Decimal.FormatInt(self.seriesCount))]);
  }

  lemma SelfParts<T>(o: seq<T>, a: seq<T>, b: seq<T>, c: seq<T>, d: seq<T>, e: seq<T>, f: seq<T>)
    ensures o + a + b + c + d + e + f == o + (a + b + c + d + e + f)
  {
  }

  /** The whole document. */
  method Write(lexeme: real -> string, describe: string -> Meta, snap: Snapshot, self: SelfMetrics) returns (w: string)
    ensures w == DocText(MetricLines(lexeme, describe, snap.counters) + SelfLines(self))
  {
    w := "";
    for i := 0 to |snap.counters|
      invariant w == DocText(MetricLines(lexeme, describe, snap.counters[..i]))
    {
      var v := snap.counters[i];
      ghost var done := MetricLines(lexeme, describe, snap.counters[..i]);
      w := PutHeader(w, v.name, describe(v.name), done);
      w := PutAllSeries(w, lexeme, v, done + HeaderLines(v.name, describe(v.name)));
      MetricStep(lexeme, describe, snap.counters, i);
    }
    assert snap.counters[..|snap.counters|] == snap.counters;
    w := WriteSelfMetrics(w, self, MetricLines(lexeme, describe, snap.counters));
  }

  lemma MetricStep(lexeme: real -> string, describe: string -> Meta, views: seq<MetricView>, i: nat)
    requires i < |views|
    ensures var v := views[i];
            MetricLines(lexeme, describe, views[..i]) + HeaderLines(v.name, describe(v.name)) + SeriesLines(lexeme, v.name, v.series) ==
            MetricLines(lexeme, describe, views[..i + 1])
  {
    assert views[..i + 1][..i] == views[..i];
  }

  // ------------------------------------------------ what a scraper reads

  ghost predicate LinesOk(lines: seq<Line>)
  {
    forall l :: l in lines ==> LineOk(l)
  }

  lemma {:induction false} DigitsPlain(n: nat)
    ensures '\n' !in Decimal.FormatNat(n)
  {
    if n >= 10 { DigitsPlain(n / 10); }
  }

  lemma IntPlain(n: int)
    ensures '\n' !in Decimal.FormatInt(n)
  {
    DigitsPlain(if n < 0 then -n else n);
  }

  /** Lower-case letters and underscores, as every metric name here is. */
  ghost predicate SnakeCase(s: string)
  {
    s != "" && forall c :: c in s ==> 'a' <= c <= 'z' || c == '_'
  }

  lemma SnakeCaseOk(s: string)
    requires SnakeCase(s)
    ensures NameOk(s)
  {
    assert s[0] in s;
  }

  lemma RequestNames()
    ensures SnakeCase("llm_requests_total") && SnakeCase("llm_errors_total")
  {
  }

  lemma TokenNames()
    ensures SnakeCase("llm_input_tokens_total") && SnakeCase("llm_output_tokens_total")
  {
  }

  lemma TotalNames()
    ensures SnakeCase("llm_total_tokens_total") && SnakeCase("llm_cost_usd_total")
  {
  }

  lemma RetryNames()
    ensures SnakeCase("llm_retries_total") && SnakeCase("llm_timeouts_total")
  {
  }

  lemma ProviderNames()
    ensures SnakeCase("llm_rate_limit_events_total") && SnakeCase("llm_provider_api_errors_total")
  {
  }

  lemma MetricNames(metric: string)
    requires AllowedLabels(metric).Some?
    ensures NameOk(metric)
  {
    RequestNames();
    TokenNames();
    TotalNames();
    RetryNames();
    ProviderNames();
    SnakeCaseOk(metric);
  }

  lemma LabelNamesOk(metric: string, labels: Labels)
    requires AllowedLabels(metric).Some? && labels.Keys <= AllowedLabels(metric).value
    ensures KeysOk(labels)
  {
    forall k | k in labels
      ensures '=' !in k && '\n' !in k
    {
      LabelNameOk(k);
    }
  }

  lemma LabelNameOk(k: string)
    requires k in LABELS
    ensures '=' !in k && '\n' !in k
  {
  }

  /** A registered metric with registered labels. */
  ghost predicate Registered(metric: string, labels: Labels)
  {
    AllowedLabels(metric).Some? && labels.Keys <= AllowedLabels(metric).value
  }

  lemma CommittedRegistered(env: Env, ds: seq<Delivery>, c: Contribution)
    requires c in AllCommitted(env, ds)
    ensures Registered(c.metric, c.labels)
  {
    OrderIndependence.CommittedMember(env, ds, c);
    var d :| d in ds && c in CommittedBy(env)(d);
    AcceptedWhole(env, d);
    var cs := Committed(env, d);
    var i :| 0 <= i < |cs| && cs[i] == c;
    assert MetricOk(env.lower, cs[i].metric, cs[i].labels);
  }

  lemma CellRegistered(env: Env, ds: seq<Delivery>, metric: string, key: string)
    requires Cell(Run(env, ds).counters, metric, key).Some?
    ensures Registered(metric, Cell(Run(env, ds).counters, metric, key).value.labels)
  {
    SeriesAreSums(env, ds, metric, key);
    var cs := AllCommitted(env, ds);
    var s := Cell(Run(env, ds).counters, metric, key).value;
    var i: nat :| FirstLanding(cs, metric, key, i) && s.labels == cs[i].labels;
    CommittedRegistered(env, ds, cs[i]);
  }

  ghost predicate ViewRegistered(v: MetricView)
  {
    AllowedLabels(v.name).Some? && forall i :: 0 <= i < |v.series| ==> Registered(v.name, v.series[i].labels)
  }

  lemma RunViewRegistered(env: Env, ds: seq<Delivery>, name: string)
    requires name in Run(env, ds).counters
    ensures ViewRegistered(ViewOf(Run(env, ds).counters, name))
  {
    var counters: Counters := Run(env, ds).counters;
    var keys := Sorted(counters[name].Keys);
    forall k | k in counters[name]
      ensures Registered(name, counters[name][k].labels)
    {
      CellRegistered(env, ds, name, k);
    }
    RunCommits(env, ds);
    OrderIndependence.FamiliesFilled(env.fl, AllCommitted(env, ds));
    assert counters[name].Keys != {};
    var k :| k in counters[name];
    assert Registered(name, counters[name][k].labels);
    SeriesRegistered(counters[name], keys, name);
  }

  lemma SeriesRegistered(family: Family, keys: seq<string>, name: string)
    requires forall k :: k in keys ==> k in family
    requires forall k :: k in family ==> Registered(name, family[k].labels)
    ensures forall i :: 0 <= i < |SeriesIn(family, keys)| ==> Registered(name, SeriesIn(family, keys)[i].labels)
  {
  }

  /** The rendering of values and the registry texts stay on their line. */
  ghost predicate PlainRendering(lexeme: real -> string, describe: string -> Meta)
  {
    (forall v :: '\n' !in lexeme(v)) && (forall n :: '\n' !in describe(n).kind)
  }

  lemma {:induction false} SeriesLinesOk(lexeme: real -> string, name: string, series: seq<Series>)
    requires forall v :: '\n' !in lexeme(v)
    requires AllowedLabels(name).Some? && forall i :: 0 <= i < |series| ==> Registered(name, series[i].labels)
    ensures LinesOk(SeriesLines(lexeme, name, series))
  {
    if series != [] {
      var n := |series| - 1;
      SeriesLinesOk(lexeme, name, series[..n]);
      OneSeriesOk(lexeme, name, series[n]);
    }
  }

  lemma OneSeriesOk(lexeme: real -> string, name: string, s: Series)
    requires forall v :: '\n' !in lexeme(v)
    requires Registered(name, s.labels)
    ensures LineOk(Sample(name, s.labels, FormatFloat(lexeme, s.sum)))
  {
    MetricNames(name);
    LabelNamesOk(name, s.labels);
    IntPlain(s.sum.Floor);
  }

  lemma {:induction false} MetricLinesOk(lexeme: real -> string, describe: string -> Meta, views: seq<MetricView>)
    requires PlainRendering(lexeme, describe)
    requires forall i :: 0 <= i < |views| ==> ViewRegistered(views[i])
    ensures LinesOk(MetricLines(lexeme, describe, views))
  {
    if views != [] {
      var n := |views| - 1;
      MetricLinesOk(lexeme, describe, views[..n]);
      assert ViewRegistered(views[n]);
      MetricNames(views[n].name);
      SeriesLinesOk(lexeme, views[n].name, views[n].series);
    }
  }

  lemma SelfNames()
    ensures NameOk(REJECTED_METRIC) && NameOk(PROCESSED_METRIC) && NameOk(SERIES_METRIC)
  {
    RejectedName();
    ProcessedName();
    SeriesName();
    SnakeCaseOk(REJECTED_METRIC);
    SnakeCaseOk(PROCESSED_METRIC);
    SnakeCaseOk(SERIES_METRIC);
  }

  lemma RejectedName()
    ensures SnakeCase(REJECTED_METRIC)
  {
  }

  lemma ProcessedName()
    ensures SnakeCase(PROCESSED_METRIC)
  {
  }

  lemma SeriesName()
    ensures SnakeCase(SERIES_METRIC)
  {
  }

  lemma SelfWords()
    ensures '\n' !in REJECTED_META.kind && '\n' !in PROCESSED_META.kind && '\n' !in SERIES_META.kind
    ensures '=' !in "reason" && '\n' !in "reason"
  {
  }

  lemma {:induction false} ReasonLinesOk(rejected: map<Reason, nat>, reasons: seq<Reason>)
    ensures LinesOk(ReasonLines(rejected, reasons))
  {
    if reasons != [] {
      var n := |reasons| - 1;
      ReasonLinesOk(rejected, reasons[..n]);
      SelfNames();
      SelfWords();
      IntPlain(Count(rejected, reasons[n]));
    }
  }

  lemma SelfLinesOk(self: SelfMetrics)
    ensures LinesOk(SelfLines(self))
  {
    SelfNames();
    SelfWords();
    ReasonLinesOk(self.rejected, ALL_REASONS);
    IntPlain(self.processed);
    IntPlain(self.seriesCount);
  }

  lemma ViewsRegistered(env: Env, ds: seq<Delivery>)
    ensures forall i :: 0 <= i < |SnapshotOf(Run(env, ds)).counters| ==> ViewRegistered(SnapshotOf(Run(env, ds)).counters[i])
  {
    var counters: Counters := Run(env, ds).counters;
    var names := Sorted(counters.Keys);
    forall i | 0 <= i < |names|
      ensures ViewRegistered(ViewsIn(counters, names)[i])
    {
      OrderIndependence.ViewName(counters, names, i);
      RunViewRegistered(env, ds, names[i]);
    }
  }

  // ------------------------------------------------ the values a scraper reads

  datatype Reading = Reading(name: string, labels: Labels, value: real)

  /** The values on the sample lines, in order. */
  function Readings(read: string -> real, lines: seq<Line>): seq<Reading>
  {
    if lines == [] then []
    else
      var n := |lines| - 1;
      Readings(read, lines[..n])
      + match lines[n] {
          case Sample(name, labels, value) => [Reading(name, labels, read(value))]
          case _ => []
        }
  }

  /** What a scraper takes from a document. */
  function Scrape(read: string -> real, doc: string): Option<seq<Reading>>
  {
    match ParseDoc(doc)
    case None => None
    case Some(lines) => Some(Readings(read, lines))
  }

  ghost predicate ReadsIntegers(read: string -> real)
  {
    forall n: int :: read(Decimal.FormatInt(n)) == n as real
  }

  /** The reader understands integers, and %g where it spells one of these sums. */
  ghost predicate Understands(read: string -> real, lexeme: real -> string, views: seq<MetricView>)
  {
    && ReadsIntegers(read)
    && forall i, j :: 0 <= i < |views| && 0 <= j < |views[i].series| ==> SpeltBack(read, lexeme, views[i].series[j].sum)
  }

  ghost predicate SpeltBack(read: string -> real, lexeme: real -> string, v: real)
  {
    Whole64(v) || read(lexeme(v)) == v
  }

  /** Every series of the snapshot, metric by metric: its name, its labels and its sum. */
  function SeriesValues(name: string, series: seq<Series>): seq<Reading>
  {
    seq(|series|, i requires 0 <= i < |series| => Reading(name, series[i].labels, series[i].sum))
  }

  function SnapshotValues(views: seq<MetricView>): seq<Reading>
  {
    if views == [] then []
    else SnapshotValues(views[..|views| - 1]) + SeriesValues(views[|views| - 1].name, views[|views| - 1].series)
  }

  function Rejections(rejected: map<Reason, nat>, r: Reason, name: string): Reading
  {
    Reading("llm_aggregator_rejected_events_total", map["reason" := name], (if r in rejected then rejected[r] else 0) as real)
  }

  /** Each reason under its name, then the events applied and the series held. */
  function SelfValues(self: SelfMetrics): seq<Reading>
  {
    [Rejections(self.rejected, DecodeFailed, "decode"), Rejections(self.rejected, SchemaInvalid, "schema"),
     Rejections(self.rejected, Forbidden, "forbidden"), Rejections(self.rejected, Cardinality, "cardinality"),
     Rejections(self.rejected, TopicUnknown, "unknown_topic"),
     Reading("llm_aggregator_processed_events_total", map[], self.processed as real),
     Reading("llm_aggregator_series_total", map[], self.seriesCount as real)]
  }

  lemma {:induction false} ReadingsJoin(read: string -> real, a: seq<Line>, b: seq<Line>)
    ensures Readings(read, a + b) == Readings(read, a) + Readings(read, b)
  {
    if b == [] {
      assert a + b == a;
    } else {
      var n := |b| - 1;
      ReadingsJoin(read, a, b[..n]);
      assert (a + b)[..|a + b| - 1] == a + b[..n] && (a + b)[|a + b| - 1] == b[n];
    }
  }

  lemma ReadingsOne(read: string -> real, name: string, labels: Labels, value: string)
    ensures Readings(read, [Sample(name, labels, value)]) == [Reading(name, labels, read(value))]
  {
    assert [Sample(name, labels, value)][..0] == [];
  }

  lemma HeaderSilent(read: string -> real, name: string, meta: Meta)
    ensures Readings(read, HeaderLines(name, meta)) == []
  {
    var h, t := Help(name, meta.help), Type(name, meta.kind);
    assert HeaderLines(name, meta) == [h] + [t];
    ReadingsJoin(read, [h], [t]);
    assert [h][..0] == [] && [t][..0] == [];
  }

  lemma SumReadBack(read: string -> real, lexeme: real -> string, v: real)
    requires ReadsIntegers(read)
    requires SpeltBack(read, lexeme, v)
    ensures read(FormatFloat(lexeme, v)) == v
  {
  }

  lemma SeriesValuesStep(name: string, series: seq<Series>)
    requires series != []
    ensures var n := |series| - 1;
            SeriesValues(name, series) == SeriesValues(name, series[..n]) + [Reading(name, series[n].labels, series[n].sum)]
  {
  }

  lemma {:induction false} SeriesRead(read: string -> real, lexeme: real -> string, name: string, series: seq<Series>)
    requires ReadsIntegers(read)
    requires forall j :: 0 <= j < |series| ==> SpeltBack(read, lexeme, series[j].sum)
    ensures Readings(read, SeriesLines(lexeme, name, series)) == SeriesValues(name, series)
  {
    if series != [] {
      var n := |series| - 1;
      var text := FormatFloat(lexeme, series[n].sum);
      SeriesRead(read, lexeme, name, series[..n]);
      SumReadBack(read, lexeme, series[n].sum);
      ReadingsJoin(read, SeriesLines(lexeme, name, series[..n]), [Sample(name, series[n].labels, text)]);
      ReadingsOne(read, name, series[n].labels, text);
      SeriesValuesStep(name, series);
    }
  }

  lemma {:induction false} MetricsRead(
    read: string -> real, lexeme: real -> string, describe: string -> Meta, views: seq<MetricView>)
    requires Understands(read, lexeme, views)
    ensures Readings(read, MetricLines(lexeme, describe, views)) == SnapshotValues(views)
  {
    if views != [] {
      var n := |views| - 1;
      MetricsRead(read, lexeme, describe, views[..n]);
      MetricRead(read, lexeme, describe, views[n]);
      ReadingsJoin(read, MetricLines(lexeme, describe, views[..n]), ViewLines(lexeme, describe, views[n]));
    }
  }

  lemma MetricRead(read: string -> real, lexeme: real -> string, describe: string -> Meta, v: MetricView)
    requires ReadsIntegers(read)
    requires forall j :: 0 <= j < |v.series| ==> SpeltBack(read, lexeme, v.series[j].sum)
    ensures Readings(read, ViewLines(lexeme, describe, v)) == SeriesValues(v.name, v.series)
  {
    SeriesRead(read, lexeme, v.name, v.series);
    HeaderSilent(read, v.name, describe(v.name));
    ReadingsJoin(read, HeaderLines(v.name, describe(v.name)), SeriesLines(lexeme, v.name, v.series));
    assert [] + SeriesValues(v.name, v.series) == SeriesValues(v.name, v.series);
  }

  function ReasonReading(rejected: map<Reason, nat>, r: Reason): Reading
  {
    Reading(REJECTED_METRIC, map["reason" := ReasonName(r)], Count(rejected, r) as real)
  }

  function ReasonValues(rejected: map<Reason, nat>, reasons: seq<Reason>): seq<Reading>
  {
    if reasons == [] then []
    else ReasonValues(rejected, reasons[..|reasons| - 1]) + [ReasonReading(rejected, reasons[|reasons| - 1])]
  }

  lemma {:induction false} ReasonsRead(read: string -> real, rejected: map<Reason, nat>, reasons: seq<Reason>)
    requires ReadsIntegers(read)
    ensures Readings(read, ReasonLines(rejected, reasons)) == ReasonValues(rejected, reasons)
  {
    if reasons != [] {
      var n := |reasons| - 1;
      ReasonsRead(read, rejected, reasons[..n]);
      var labels := map["reason" := ReasonName(reasons[n])];
      var text := Decimal.FormatInt(Count(rejected, reasons[n]));
      assert read(text) == Count(rejected, reasons[n]) as real;
      ReadingsJoin(read, ReasonLines(rejected, reasons[..n]), [Sample(REJECTED_METRIC, labels, text)]);
      ReadingsOne(read, REJECTED_METRIC, labels, text);
    }
  }

  lemma ReasonsAll(rejected: map<Reason, nat>, values: seq<Reading>)
    requires values == ReasonValues(rejected, ALL_REASONS)
    ensures values ==
            [Rejections(rejected, DecodeFailed, "decode"), Rejections(rejected, SchemaInvalid, "schema"),
             Rejections(rejected, Forbidden, "forbidden"), Rejections(rejected, Cardinality, "cardinality"),
             Rejections(rejected, TopicUnknown, "unknown_topic")]
  {
    var none: seq<Reason> := [];
    var one := none + [DecodeFailed];
    var two := one + [SchemaInvalid];
    var three := two + [Forbidden];
    var four := three + [Cardinality];
    ReasonSnoc(rejected, none, DecodeFailed);
    ReasonSnoc(rejected, one, SchemaInvalid);
    ReasonSnoc(rejected, two, Forbidden);
    ReasonSnoc(rejected, three, Cardinality);
    ReasonSnoc(rejected, four, TopicUnknown);
    assert ALL_REASONS == four + [TopicUnknown];
  }

  lemma ReasonSnoc(rejected: map<Reason, nat>, reasons: seq<Reason>, r: Reason)
    ensures ReasonValues(rejected, reasons + [r]) == ReasonValues(rejected, reasons) + [ReasonReading(rejected, r)]
  {
    assert (reasons + [r])[..|reasons|] == reasons;
  }

  lemma SelfParted<T>(a: seq<T>, b: seq<T>, c: seq<T>, d: seq<T>, e: seq<T>, f: seq<T>, r: seq<T>)
    requires a == c == e == [] && r == b + d + f
    ensures a + b + c + d + e + f == r
  {
  }

  lemma SelfRead(read: string -> real, self: SelfMetrics)
    requires ReadsIntegers(read)
    ensures Readings(read, SelfLines(self)) == SelfValues(self)
  {
    var a, b := HeaderLines(REJECTED_METRIC, REJECTED_META), ReasonLines(self.rejected, ALL_REASONS);
    var c, d := HeaderLines(PROCESSED_METRIC, PROCESSED_META), [Sample(PROCESSED_METRIC, map[], Decimal.FormatInt(self.processed))];
    var e, f := HeaderLines(SERIES_METRIC, SERIES_META), [Sample(SERIES_METRIC, map[], Decimal.FormatInt(self.seriesCount))];
    HeaderSilent(read, REJECTED_METRIC, REJECTED_META);
    HeaderSilent(read, PROCESSED_METRIC, PROCESSED_META);
    HeaderSilent(read, SERIES_METRIC, SERIES_META);
    ReasonsRead(read, self.rejected, ALL_REASONS);
    ReadingsOne(read, PROCESSED_METRIC, map[], Decimal.FormatInt(self.processed));
    ReadingsOne(read, SERIES_METRIC, map[], Decimal.FormatInt(self.seriesCount));
    ReadingsSix(read, a, b, c, d, e, f);
    ReasonsAll(self.rejected, Readings(read, b));
    SelfParted(Readings(read, a), Readings(read, b), Readings(read, c), Readings(read, d), Readings(read, e), Readings(read, f),
               SelfValues(self));
  }

  lemma ReadingsSix(read: string -> real, a: seq<Line>, b: seq<Line>, c: seq<Line>, d: seq<Line>, e: seq<Line>, f: seq<Line>)
    ensures Readings(read, a + b + c + d + e + f) ==
            Readings(read, a) + Readings(read, b) + Readings(read, c) + Readings(read, d) + Readings(read, e) + Readings(read, f)
  {
    ReadingsJoin(read, a, b);
    ReadingsJoin(read, a + b, c);
    ReadingsJoin(read, a + b + c, d);
    ReadingsJoin(read, a + b + c + d, e);
    ReadingsJoin(read, a + b + c + d + e, f);
  }

  /** After every run, a scraper of the format reads back exactly the lines written, whatever
      characters the label values contain. */
  lemma LinesReadBack(env: Env, ds: seq<Delivery>, lexeme: real -> string, describe: string -> Meta, self: SelfMetrics)
    requires PlainRendering(lexeme, describe)
    ensures var lines := MetricLines(lexeme, describe, SnapshotOf(Run(env, ds)).counters) + SelfLines(self);
            ParseDoc(DocText(lines)) == Some(lines)
  {
    var views := SnapshotOf(Run(env, ds)).counters;
    ViewsRegistered(env, ds);
    MetricLinesOk(lexeme, describe, views);
    SelfLinesOk(self);
    DocRoundTrip(MetricLines(lexeme, describe, views) + SelfLines(self));
  }

  /** After every run, what a scraper takes from the document is, series by series and under
      its labels, every sum of the snapshot, and then the aggregator's own counters. */
  lemma ScrapeRoundTrip(
    env: Env, ds: seq<Delivery>, lexeme: real -> string, describe: string -> Meta, self: SelfMetrics, read: string -> real,
    views: seq<MetricView>)
    requires PlainRendering(lexeme, describe) && views == SnapshotOf(Run(env, ds)).counters
    requires Understands(read, lexeme, views)
    ensures Scrape(read, DocText(MetricLines(lexeme, describe, views) + SelfLines(self))) ==
            Some(SnapshotValues(views) + SelfValues(self))
  {
    LinesReadBack(env, ds, lexeme, describe, self);
    MetricsRead(read, lexeme, describe, views);
    SelfRead(read, self);
    ReadingsJoin(read, MetricLines(lexeme, describe, views), SelfLines(self));
  }
}
