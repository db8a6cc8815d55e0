/** Estimates against billed cost (cost-mapper reconciler.go): correlation keys, buckets and
    drift rows. `canonical` is strings.ToLower over strings.TrimSpace. */
module Reconciler {
  import opened Json
  import opened CostMapper
  import opened Text
  import Decimal

  /** A UTC instant; Unix() drops the nanoseconds. */
  datatype Instant = Instant(sec: int, nanos: nat)

  datatype CorrelationKey = CorrelationKey(tenant: string, provider: string, model: string, start: Instant, end: Instant)

  type Canonical = string -> string

  function KeyString(canonical: Canonical, k: CorrelationKey): string
  {
    k.tenant + (":" + (canonical(k.provider) + (":" + (canonical(k.model) + (":" +
    (Decimal.FormatInt(k.start.sec) + (":" + Decimal.FormatInt(k.end.sec))))))))
  }

  // ------------------------------------------------ keys

  /** The keys name one tenant, canonical provider and model, and period in whole seconds. */
  ghost predicate SameKey(canonical: Canonical, a: CorrelationKey, b: CorrelationKey)
  {
    && a.tenant == b.tenant && canonical(a.provider) == canonical(b.provider) && canonical(a.model) == canonical(b.model)
    && a.start.sec == b.start.sec && a.end.sec == b.end.sec
  }

  lemma FirstColon(d: string, x: string, e: string, y: string)
    requires ':' !in d && ':' !in e && d + (":" + x) == e + (":" + y)
    ensures d == e && x == y
  {
    var s := d + (":" + x);
    assert s == d + [':'] + x && s == e + [':'] + y;
    IndexOfJoined(d, ':', x);
    IndexOfJoined(e, ':', y);
    assert d == s[..|d|] && x == s[|d| + 1..];
    assert e == s[..|e|] && y == s[|e| + 1..];
  }

  lemma LastColon(x: string, d: string, y: string, e: string)
    requires ':' !in d && ':' !in e && x + (":" + d) == y + (":" + e)
    ensures x == y && d == e
  {
    var s := x + (":" + d);
    var n := |s|;
    assert s[|x|] == ':' && s[|y|] == ':';
    assert forall i :: |x| < i < n ==> s[i] == d[i - |x| - 1];
    assert forall i :: |y| < i < n ==> s[i] == e[i - |y| - 1];
    assert |x| == |y|;
    assert x == s[..|x|] && y == s[..|y|] && d == s[|x| + 1..] && e == s[|y| + 1..];
  }

  lemma NumberPlain(n: int)
    ensures ':' !in Decimal.FormatInt(n)
  {
  }

  /** The last three fields, read from the right, however many colons the model has. */
  lemma TailFields(m: string, a: int, b: int, n: string, c: int, d: int)
    requires m + (":" + (Decimal.FormatInt(a) + (":" + Decimal.FormatInt(b)))) ==
             n + (":" + (Decimal.FormatInt(c) + (":" + Decimal.FormatInt(d))))
    ensures m == n && a == c && b == d
  {
    NumberPlain(a);
    NumberPlain(b);
    NumberPlain(c);
    NumberPlain(d);
    Nested(m, Decimal.FormatInt(a), Decimal.FormatInt(b));
    Nested(n, Decimal.FormatInt(c), Decimal.FormatInt(d));
    LastColon(m + (":" + Decimal.FormatInt(a)), Decimal.FormatInt(b), n + (":" + Decimal.FormatInt(c)), Decimal.FormatInt(d));
    LastColon(m, Decimal.FormatInt(a), n, Decimal.FormatInt(c));
    Decimal.ParseFormatInt(a);
    Decimal.ParseFormatInt(b);
    Decimal.ParseFormatInt(c);
    Decimal.ParseFormatInt(d);
  }

  lemma Nested(m: string, a: string, b: string)
    ensures m + (":" + (a + (":" + b))) == (m + (":" + a)) + (":" + b)
  {
  }

  /** Colon-free tenants and providers get one key string per correlation key, even when the
      model contains colons. */
  lemma KeyInjective(canonical: Canonical, a: CorrelationKey, b: CorrelationKey)
    requires ':' !in a.tenant && ':' !in b.tenant && ':' !in canonical(a.provider) && ':' !in canonical(b.provider)
    ensures KeyString(canonical, a) == KeyString(canonical, b) <==> SameKey(canonical, a, b)
  {
    if KeyString(canonical, a) == KeyString(canonical, b) {
      var restA := canonical(a.model) + (":" + (Decimal.FormatInt(a.start.sec) + (":" + Decimal.FormatInt(a.end.sec))));
      var restB := canonical(b.model) + (":" + (Decimal.FormatInt(b.start.sec) + (":" + Decimal.FormatInt(b.end.sec))));
      FirstColon(a.tenant, canonical(a.provider) + (":" + restA), b.tenant, canonical(b.provider) + (":" + restB));
      FirstColon(canonical(a.provider), restA, canonical(b.provider), restB);
      TailFields(canonical(a.model), a.start.sec, a.end.sec, canonical(b.model), b.start.sec, b.end.sec);
    }
  }

  /** With a colon in the tenant or the provider, two correlation keys can share a string. */
  lemma ColonsCollide(canonical: Canonical, t: string, p: string, q: string, model: string, start: Instant, end: Instant)
    requires canonical(q) == q && canonical(p + (":" + q)) == p + (":" + q)
    ensures var a := CorrelationKey(t + (":" + p), q, model, start, end);
            var b := CorrelationKey(t, p + (":" + q), model, start, end);
            KeyString(canonical, a) == KeyString(canonical, b) && !SameKey(canonical, a, b)
  {
    var rest := ":" + (canonical(model) + (":" + (Decimal.FormatInt(start.sec) + (":" + Decimal.FormatInt(end.sec)))));
    Moved(t, p, q, rest);
    assert |t + (":" + p)| != |t|;
  }

  lemma Moved(t: string, p: string, q: string, rest: string)
    ensures (t + (":" + p)) + (":" + (q + rest)) == t + (":" + ((p + (":" + q)) + rest))
  {
  }

  // ------------------------------------------------ which keys stand alone

  function Colons(s: string): nat
  {
    if s == "" then 0 else (if s[0] == ':' then 1 else 0) + Colons(s[1..])
  }

  lemma {:induction false} ColonsJoin(a: string, b: string)
    ensures Colons(a + b) == Colons(a) + Colons(b)
  {
    if a == "" {
      assert a + b == b;
    } else {
      ColonsJoin(a[1..], b);
      assert (a + b)[1..] == a[1..] + b;
    }
  }

  lemma {:induction false} NoColons(s: string)
    ensures Colons(s) == 0 <==> ':' !in s
  {
    if s != "" { NoColons(s[1..]); }
  }

  lemma ColonsNext(a: string, rest: string)
    ensures Colons(a + (":" + rest)) == Colons(a) + 1 + Colons(rest)
  {
    ColonsJoin(a, ":" + rest);
    assert (":" + rest)[1..] == rest;
  }

  /** The text before the period. */
  function NameText(t: string, p: string, m: string): string
  {
    t + (":" + (p + (":" + m)))
  }

  lemma KeyColons(canonical: Canonical, k: CorrelationKey)
    ensures Colons(KeyString(canonical, k)) ==
            Colons(k.tenant) + Colons(canonical(k.provider)) + Colons(canonical(k.model)) + 4
  {
    var start, end := Decimal.FormatInt(k.start.sec), Decimal.FormatInt(k.end.sec);
    NumberPlain(k.start.sec);
    NumberPlain(k.end.sec);
    NoColons(start);
    NoColons(end);
    ColonsNext(start, end);
    ColonsNext(canonical(k.model), start + (":" + end));
    ColonsNext(canonical(k.provider), canonical(k.model) + (":" + (start + (":" + end))));
    ColonsNext(k.tenant, canonical(k.provider) + (":" + (canonical(k.model) + (":" + (start + (":" + end))))));
  }

  ghost predicate ColonFree(canonical: Canonical, k: CorrelationKey)
  {
    ':' !in k.tenant && ':' !in canonical(k.provider) && ':' !in canonical(k.model)
  }

  /** No different key has the string of this one. */
  ghost predicate Unambiguous(canonical: Canonical, k: CorrelationKey)
  {
    forall b :: KeyString(canonical, b) == KeyString(canonical, k) ==> SameKey(canonical, k, b)
  }

  /** A key without colons shares its string with no different key, whatever that key holds. */
  lemma ColonFreeUnambiguous(canonical: Canonical, k: CorrelationKey, b: CorrelationKey)
    requires ColonFree(canonical, k) && KeyString(canonical, b) == KeyString(canonical, k)
    ensures SameKey(canonical, k, b)
  {
    KeyColons(canonical, k);
    KeyColons(canonical, b);
    NoColons(k.tenant);
    NoColons(canonical(k.provider));
    NoColons(canonical(k.model));
    NoColons(b.tenant);
    NoColons(canonical(b.provider));
    KeyInjective(canonical, k, b);
  }

  /** `canonical` changes no piece of the text: for lower-casing and trimming, a text without
      capitals and white space. */
  ghost predicate Settled(canonical: Canonical, text: string)
  {
    forall i, j :: 0 <= i <= j <= |text| ==> canonical(text[i..j]) == text[i..j]
  }

  lemma SettledPiece(canonical: Canonical, a: string, piece: string, b: string)
    requires Settled(canonical, a + (piece + b))
    ensures canonical(piece) == piece
  {
    var text := a + (piece + b);
    assert text[|a|..|a| + |piece|] == piece;
  }

  /** Two keys with one name text and one period. */
  lemma SameNameSameString(canonical: Canonical, a: CorrelationKey, b: CorrelationKey)
    requires a.start == b.start && a.end == b.end
    requires NameText(a.tenant, canonical(a.provider), canonical(a.model)) ==
             NameText(b.tenant, canonical(b.provider), canonical(b.model))
    ensures KeyString(canonical, a) == KeyString(canonical, b)
  {
    var period := ":" + (Decimal.FormatInt(a.start.sec) + (":" + Decimal.FormatInt(a.end.sec)));
    NameThenPeriod(a.tenant, canonical(a.provider), canonical(a.model), period);
    NameThenPeriod(b.tenant, canonical(b.provider), canonical(b.model), period);
  }

  lemma NameThenPeriod(t: string, p: string, m: string, period: string)
    ensures t + (":" + (p + (":" + (m + period)))) == NameText(t, p, m) + period
  {
  }

  /** The parts of a text around its first colon. */
  lemma SplitColon(s: string) returns (x: string, y: string)
    requires ':' in s
    ensures s == x + (":" + y)
  {
    var i := IndexOf(s, ':');
    x, y := s[..i], s[i + 1..];
  }

  /** What follows the last colon of a text. */
  function LastPiece(s: string): (r: string)
    decreases |s|
  {
    var i := IndexOf(s, ':');
    if i == |s| then s else LastPiece(s[i + 1..])
  }

  lemma {:induction false} SplitLastColon(s: string) returns (x: string)
    requires ':' in s
    ensures s == x + (":" + LastPiece(s))
    decreases |s|
  {
    var i := IndexOf(s, ':');
    var rest := s[i + 1..];
    assert s == s[..i] + (":" + rest);
    if ':' in rest {
      var z := SplitLastColon(rest);
      x := s[..i] + (":" + z);
      Rejoin(s[..i], z, LastPiece(rest));
    } else {
      x := s[..i];
    }
  }

  lemma Rejoin(a: string, z: string, y: string)
    ensures a + (":" + (z + (":" + y))) == (a + (":" + z)) + (":" + y)
  {
  }

  /** The text of provider and model. */
  function PairText(p: string, m: string): string
  {
    p + (":" + m)
  }

  /** `canonical` leaves alone the pieces that can move: those of provider and model, and the
      last piece of a tenant with colons. */
  ghost predicate PiecesSettled(canonical: Canonical, k: CorrelationKey)
  {
    && Settled(canonical, PairText(canonical(k.provider), canonical(k.model)))
    && (':' in k.tenant ==> Settled(canonical, PairText(LastPiece(k.tenant), canonical(k.provider))))
  }

  lemma SettledModel(canonical: Canonical, p: string, m: string)
    requires Settled(canonical, PairText(p, m))
    ensures canonical(m) == m && canonical(PairText(p, m)) == PairText(p, m)
  {
    assert PairText(p, m) == (p + ":") + (m + "");
    SettledPiece(canonical, p + ":", m, "");
    assert PairText(p, m) == "" + (PairText(p, m) + "");
    SettledPiece(canonical, "", PairText(p, m), "");
  }

  lemma TenantMoves(canonical: Canonical, k: CorrelationKey) returns (b: CorrelationKey)
    requires PiecesSettled(canonical, k) && ':' in k.tenant
    ensures KeyString(canonical, b) == KeyString(canonical, k) && b.tenant != k.tenant
  {
    var p, m, y := canonical(k.provider), canonical(k.model), LastPiece(k.tenant);
    var x := SplitLastColon(k.tenant);
    MoveLeft(x, y, p, m);
    SettledModel(canonical, p, m);
    SettledModel(canonical, y, p);
    b := CorrelationKey(x, y + (":" + p), m, k.start, k.end);
    SameNameSameString(canonical, k, b);
  }

  lemma MoveLeft(x: string, y: string, p: string, m: string)
    ensures NameText(x + (":" + y), p, m) == NameText(x, y + (":" + p), m)
  {
  }

  lemma ProviderMoves(canonical: Canonical, k: CorrelationKey) returns (b: CorrelationKey)
    requires PiecesSettled(canonical, k) && ':' in canonical(k.provider)
    ensures KeyString(canonical, b) == KeyString(canonical, k) && b.tenant != k.tenant
  {
    var p, m := canonical(k.provider), canonical(k.model);
    var x, y := SplitColon(p);
    MoveRight(k.tenant, x, y, m);
    SettledPiece(canonical, x + ":", y, ":" + m);
    SettledModel(canonical, p, m);
    b := CorrelationKey(k.tenant + (":" + x), y, m, k.start, k.end);
    SameNameSameString(canonical, k, b);
  }

  lemma MoveRight(t: string, x: string, y: string, m: string)
    ensures NameText(t, x + (":" + y), m) == NameText(t + (":" + x), y, m)
    ensures PairText(x + (":" + y), m) == (x + ":") + (y + (":" + m))
  {
  }

  lemma ModelMoves(canonical: Canonical, k: CorrelationKey) returns (b: CorrelationKey)
    requires PiecesSettled(canonical, k) && ':' in canonical(k.model)
    ensures KeyString(canonical, b) == KeyString(canonical, k) && b.tenant != k.tenant
  {
    var p, m := canonical(k.provider), canonical(k.model);
    var x, y := SplitColon(m);
    MoveModel(k.tenant, p, x, y);
    SettledPiece(canonical, p + ":", x, ":" + y);
    SettledPiece(canonical, p + (":" + (x + ":")), y, "");
    b := CorrelationKey(k.tenant + (":" + p), x, y, k.start, k.end);
    SameNameSameString(canonical, k, b);
  }

  lemma MoveModel(t: string, p: string, x: string, y: string)
    ensures NameText(t, p, x + (":" + y)) == NameText(t + (":" + p), x, y)
    ensures PairText(p, x + (":" + y)) == (p + ":") + (x + (":" + y))
    ensures PairText(p, x + (":" + y)) == (p + (":" + (x + ":"))) + (y + "")
  {
  }

  /** A key whose movable pieces are settled stands alone exactly when its tenant, provider
      and model hold no colon. */
  lemma KeyStandsAlone(canonical: Canonical, k: CorrelationKey)
    requires PiecesSettled(canonical, k)
    ensures Unambiguous(canonical, k) <==> ColonFree(canonical, k)
  {
    if ColonFree(canonical, k) {
      forall b | KeyString(canonical, b) == KeyString(canonical, k)
        ensures SameKey(canonical, k, b)
      {
        ColonFreeUnambiguous(canonical, k, b);
      }
    } else if ':' in k.tenant {
      var b := TenantMoves(canonical, k);
      assert !SameKey(canonical, k, b);
    } else if ':' in canonical(k.provider) {
      var b := ProviderMoves(canonical, k);
      assert !SameKey(canonical, k, b);
    } else {
      var b := ModelMoves(canonical, k);
      assert !SameKey(canonical, k, b);
    }
  }

  // ------------------------------------------------ buckets

  datatype Estimated = Estimated(
    key: CorrelationKey, team: string, app: string, env: string, project: string, costMinor: int, catalogVersion: string)

  datatype Bucket = Bucket(team: string, app: string, env: string, project: string, estimatedMinor: int, catalogVersion: string)

  function Accumulate(b: Option<Bucket>, e: Estimated): Bucket
  {
    var base := if b.Some? then b.value else Bucket(e.team, e.app, e.env, e.project, 0, e.catalogVersion);
    base.(estimatedMinor := base.estimatedMinor + e.costMinor,
          catalogVersion := if e.catalogVersion != "" then e.catalogVersion else base.catalogVersion)
  }

  /** An estimate filed under its key string. */
  datatype Entry = Entry(key: string, e: Estimated)

  /** The bucket a log of estimates builds for a key. */
  function BucketOf(log: seq<Entry>, key: string): Option<Bucket>
  {
    if log == [] then None
    else
      var before := BucketOf(log[..|log| - 1], key);
      var last := log[|log| - 1];
      if last.key == key then Some(Accumulate(before, last.e)) else before
  }

  function SumMinor(log: seq<Entry>, key: string): int
  {
    if log == [] then 0
    else SumMinor(log[..|log| - 1], key) + (if log[|log| - 1].key == key then log[|log| - 1].e.costMinor else 0)
  }

  /** The version stamp of the latest estimate that has one. */
  function LatestVersion(log: seq<Entry>, key: string): string
  {
    if log == [] then ""
    else
      var last := log[|log| - 1];
      if last.key == key && last.e.catalogVersion != "" then last.e.catalogVersion else LatestVersion(log[..|log| - 1], key)
  }

  ghost predicate FirstOf(log: seq<Entry>, key: string, i: nat)
  {
    i < |log| && log[i].key == key && forall j :: 0 <= j < i ==> log[j].key != key
  }

  ghost predicate Attributed(e: Estimated, team: string, app: string, env: string, project: string)
  {
    team == e.team && app == e.app && env == e.env && project == e.project
  }

  /** A bucket exists once an estimate names its key; it holds the sum of them all, the
      attribution of the first and the version stamp of the latest that has one. */
  ghost predicate BucketHolds(log: seq<Entry>, key: string, b: Option<Bucket>)
  {
    match b
    case None => (forall i :: 0 <= i < |log| ==> log[i].key != key)
    case Some(b) =>
      && b.estimatedMinor == SumMinor(log, key) && b.catalogVersion == LatestVersion(log, key)
      && exists i: nat :: FirstOf(log, key, i) && Attributed(log[i].e, b.team, b.app, b.env, b.project)
  }

  lemma {:induction false} BucketMeaning(log: seq<Entry>, key: string)
    ensures BucketHolds(log, key, BucketOf(log, key))
  {
    if log != [] {
      var n := |log| - 1;
      BucketMeaning(log[..n], key);
      BucketStep(log, key, BucketOf(log[..n], key), BucketOf(log, key));
    }
  }

  lemma BucketStep(log: seq<Entry>, key: string, before: Option<Bucket>, after: Option<Bucket>)
    requires log != [] && BucketHolds(log[..|log| - 1], key, before)
    requires after == if log[|log| - 1].key == key then Some(Accumulate(before, log[|log| - 1].e)) else before
    ensures BucketHolds(log, key, after)
  {
    var n := |log| - 1;
    assert forall j :: 0 <= j < n ==> log[j] == log[..n][j];
    if before.Some? {
      var b := before.value;
      var i: nat :| FirstOf(log[..n], key, i) && Attributed(log[..n][i].e, b.team, b.app, b.env, b.project);
      assert FirstOf(log, key, i);
    } else {
      NoneSummed(log[..n], key);
      if after.Some? { assert FirstOf(log, key, n); }
    }
  }

  lemma {:induction false} NoneSummed(log: seq<Entry>, key: string)
    requires forall i :: 0 <= i < |log| ==> log[i].key != key
    ensures SumMinor(log, key) == 0 && LatestVersion(log, key) == ""
  {
    if log != [] { NoneSummed(log[..|log| - 1], key); }
  }

  function CountOf(log: seq<Entry>, key: string): nat
  {
    if log == [] then 0 else CountOf(log[..|log| - 1], key) + (if log[|log| - 1].key == key then 1 else 0)
  }

  /** A runtime event, the catalog in force when it is handled, and the hour its recorded_at
      falls in, None when that does not parse. */
  datatype Runtime = Runtime(lib: Library, ev: RuntimeEvent, hour: Option<int>)

  const HOUR: int := 3600

  /** The key string an event is accumulated under, or None when it is skipped or not priced. */
  function KeyFor(r: Runtime): Option<string>
  {
    if r.ev.source != "gateway" && r.ev.source != "sdk" then None
    else if r.ev.inputTokens == 0 && r.ev.outputTokens == 0 then None
    else if Estimate(r.lib, r.ev).Err? || r.hour.None? then None
    else Some(KeyString(r.lib.canonical, HourKey(r.ev, r.hour.value)))
  }

  function HourKey(ev: RuntimeEvent, hour: int): CorrelationKey
  {
    CorrelationKey(ev.tenant, ev.provider, ev.model, Instant(hour, 0), Instant(hour + HOUR, 0))
  }

  /** What handling an event records, if anything. */
  function EntryFor(r: Runtime): Option<Entry>
  {
    match KeyFor(r)
    case None => None
    case Some(key) =>
      var est := Estimate(r.lib, r.ev).value;
      Some(Entry(key, Estimated(HourKey(r.ev, r.hour.value), r.ev.team, r.ev.app, r.ev.env, r.ev.project,
                                est.costMinor, est.catalogVersion)))
  }

  /** The estimates a stream of runtime events records. */
  function LogOf(events: seq<Runtime>): seq<Entry>
  {
    if events == [] then []
    else
      var before := LogOf(events[..|events| - 1]);
      match EntryFor(events[|events| - 1])
      case None => before
      case Some(entry) => before + [entry]
  }

  /** An event counts under a key: a gateway or SDK event with tokens, identified, of a priced
      model and with a readable time, whose tenant, provider, model and hour the key spells. */
  ghost predicate CountsUnder(r: Runtime, key: string)
  {
    && (r.ev.source == "gateway" || r.ev.source == "sdk") && (r.ev.inputTokens != 0 || r.ev.outputTokens != 0)
    && r.ev.eventId != "" && r.ev.tenant != "" && r.lib.lookup(r.ev.provider, r.ev.model).Some? && r.hour.Some?
    && key == r.ev.tenant + (":" + (r.lib.canonical(r.ev.provider) + (":" + (r.lib.canonical(r.ev.model) + (":" +
              (Decimal.FormatInt(r.hour.value) + (":" + Decimal.FormatInt(r.hour.value + 3600))))))))
  }

  lemma CountsExactly(r: Runtime, key: string)
    ensures KeyFor(r) == Some(key) <==> CountsUnder(r, key)
  {
    EstimateAccurate(r.lib, r.ev);
  }

  /** Such an event, and no other, is recorded: once, with its own attribution, cost and catalog. */
  lemma RecordedExactly(r: Runtime, key: string)
    ensures EntryFor(r).Some? && EntryFor(r).value.key == key <==> CountsUnder(r, key)
    ensures CountsUnder(r, key) ==>
              var e := EntryFor(r).value.e;
              && Attributed(e, r.ev.team, r.ev.app, r.ev.env, r.ev.project) && e.catalogVersion == r.lib.version
              && Estimate(r.lib, r.ev).Ok? && e.costMinor == Estimate(r.lib, r.ev).value.costMinor
  {
    CountsExactly(r, key);
    EstimateExactly(r.lib, r.ev);
  }

  /** Cents at tokens times rate, summed over the events that count under a key. */
  ghost function ExactCost(events: seq<Runtime>, key: string): real
  {
    if events == [] then 0.0
    else ExactCost(events[..|events| - 1], key) + ExactOf(events[|events| - 1], key)
  }

  ghost function ExactOf(r: Runtime, key: string): real
  {
    if !CountsUnder(r, key) then 0.0
    else
      var rate := r.lib.lookup(r.ev.provider, r.ev.model).value;
      (Positive(r.ev.inputTokens) as real * rate.inputPer1K + Positive(r.ev.outputTokens) as real * rate.outputPer1K) / 10.0
  }

  ghost predicate RatesNonNegative(lib: Library)
  {
    forall p, m :: lib.lookup(p, m).Some? ==>
      lib.lookup(p, m).value.inputPer1K >= 0.0 && lib.lookup(p, m).value.outputPer1K >= 0.0
  }

  /** What an event adds to a bucket, in cents and in estimates. */
  function MinorOf(r: Runtime, key: string): int
  {
    match EntryFor(r)
    case None => 0
    case Some(entry) => if entry.key == key then entry.e.costMinor else 0
  }

  function OneOf(r: Runtime, key: string): nat
  {
    if KeyFor(r) == Some(key) then 1 else 0
  }

  lemma LogOne(before: seq<Entry>, entry: Entry, key: string)
    ensures SumMinor(before + [entry], key) == SumMinor(before, key) + (if entry.key == key then entry.e.costMinor else 0)
    ensures CountOf(before + [entry], key) == CountOf(before, key) + (if entry.key == key then 1 else 0)
  {
    assert (before + [entry])[..|before|] == before;
  }

  lemma LogNext(events: seq<Runtime>, key: string)
    requires events != []
    ensures var before, r := LogOf(events[..|events| - 1]), events[|events| - 1];
            && SumMinor(LogOf(events), key) == SumMinor(before, key) + MinorOf(r, key)
            && CountOf(LogOf(events), key) == CountOf(before, key) + OneOf(r, key)
  {
    var before, r := LogOf(events[..|events| - 1]), events[|events| - 1];
    if EntryFor(r).Some? { LogOne(before, EntryFor(r).value, key); }
  }

  /** n estimates of this total are at most n half cents from the exact cost. */
  ghost predicate Close(minor: int, exact: real, n: nat)
  {
    Abs(minor as real - exact) <= n as real * 0.5
  }

  lemma EventClose(r: Runtime, key: string)
    requires RatesNonNegative(r.lib)
    ensures Close(MinorOf(r, key), ExactOf(r, key), OneOf(r, key))
  {
    CountedMinor(r, key);
    if CountsUnder(r, key) {
      EstimateAccurate(r.lib, r.ev);
      OneClose(Estimate(r.lib, r.ev).value.costMinor, ExactOf(r, key));
    }
  }

  /** An event that counts under a key adds its own estimate there, and no other does. */
  lemma CountedMinor(r: Runtime, key: string)
    ensures if CountsUnder(r, key) then
              Estimate(r.lib, r.ev).Ok? && MinorOf(r, key) == Estimate(r.lib, r.ev).value.costMinor && OneOf(r, key) == 1
            else MinorOf(r, key) == 0 && OneOf(r, key) == 0
  {
    CountsExactly(r, key);
  }

  lemma OneClose(minor: int, exact: real)
    requires Abs(minor as real - exact) <= 0.5
    ensures Close(minor, exact, 1)
  {
  }

  lemma CloseAdds(a: int, x: real, n: nat, b: int, y: real, m: nat)
    requires Close(a, x, n) && Close(b, y, m)
    ensures Close(a + b, x + y, n + m)
  {
  }

  /** For every stream of runtime events, each priced with the catalog in force, under
      non-negative rates and in exact arithmetic: a bucket fed by n estimates differs from the
      cents its events cost at tokens times rate by at most n / 2. */
  lemma {:induction false} BucketAccurate(events: seq<Runtime>, key: string)
    requires forall i :: 0 <= i < |events| ==> RatesNonNegative(events[i].lib)
    ensures Close(SumMinor(LogOf(events), key), ExactCost(events, key), CountOf(LogOf(events), key))
  {
    if events != [] {
      var before, r := events[..|events| - 1], events[|events| - 1];
      BucketAccurate(before, key);
      EventClose(r, key);
      LogNext(events, key);
      CloseAdds(SumMinor(LogOf(before), key), ExactCost(before, key), CountOf(LogOf(before), key),
                MinorOf(r, key), ExactOf(r, key), OneOf(r, key));
    }
  }

  // ------------------------------------------------ redelivered runtime events

  /** Nothing deduplicates runtime events: what is delivered again is added again. */
  lemma {:induction false} DeliveriesAdd(a: seq<Runtime>, b: seq<Runtime>, key: string)
    ensures SumMinor(LogOf(a + b), key) == SumMinor(LogOf(a), key) + SumMinor(LogOf(b), key)
    ensures CountOf(LogOf(a + b), key) == CountOf(LogOf(a), key) + CountOf(LogOf(b), key)
  {
    if b == [] {
      assert a + b == a;
    } else {
      var n := |b| - 1;
      DeliveriesAdd(a, b[..n], key);
      SplitEnd(a, b);
      LogSnoc(a + b[..n], b[n], key);
      LogSnoc(b[..n], b[n], key);
    }
  }

  lemma SplitEnd<T>(a: seq<T>, b: seq<T>)
    requires b != []
    ensures var n := |b| - 1; a + b == (a + b[..n]) + [b[n]] && b == b[..n] + [b[n]]
  {
  }

  lemma LogSnoc(before: seq<Runtime>, r: Runtime, key: string)
    ensures SumMinor(LogOf(before + [r]), key) == SumMinor(LogOf(before), key) + MinorOf(r, key)
    ensures CountOf(LogOf(before + [r]), key) == CountOf(LogOf(before), key) + OneOf(r, key)
  {
    assert (before + [r])[..|before|] == before;
    LogNext(before + [r], key);
  }

  /** A stream of runtime events delivered twice leaves every bucket at twice its amount, and
      the drift of its row lower by that amount. */
  lemma RedeliveryDoubles(events: seq<Runtime>, key: string, cost: int)
    ensures SumMinor(LogOf(events + events), key) == 2 * SumMinor(LogOf(events), key)
    ensures RowOf(BucketOf(LogOf(events + events), key), cost, key).driftMinor ==
            RowOf(BucketOf(LogOf(events), key), cost, key).driftMinor - SumMinor(LogOf(events), key)
  {
    DeliveriesAdd(events, events, key);
    RawIsSum(LogOf(events), key);
    RawIsSum(LogOf(events + events), key);
  }

  lemma RawIsSum(log: seq<Entry>, key: string)
    ensures Raw(BucketOf(log, key)) == SumMinor(log, key)
  {
    BucketMeaning(log, key);
    if BucketOf(log, key).None? { NoneSummed(log, key); }
  }

  // ------------------------------------------------ drift rows

  datatype RowKey = RowKey(tenant: string, provider: string, model: string, start: Instant, end: Instant)

  datatype DriftRow = DriftRow(
    team: string, app: string, env: string, project: string, estimatedMinor: int, reconciledMinor: int,
    driftMinor: int, driftRatio: real, catalogVersion: string, correlationKey: string)

  datatype Reconciled = Reconciled(key: CorrelationKey, costMinor: int)

  function NonNegative(v: int): int
  {
    if v < 0 then 0 else v
  }

  function RowKeyOf(canonical: Canonical, k: CorrelationKey): RowKey
  {
    RowKey(k.tenant, canonical(k.provider), canonical(k.model), k.start, k.end)
  }

  /** A reconciliation rewrites the row of another exactly when both name one tenant, one
      canonical provider and model, and one period. */
  lemma RowKeyExact(canonical: Canonical, a: CorrelationKey, b: CorrelationKey)
    ensures RowKeyOf(canonical, a) == RowKeyOf(canonical, b) <==>
            && a.tenant == b.tenant && canonical(a.provider) == canonical(b.provider)
            && canonical(a.model) == canonical(b.model) && a.start == b.start && a.end == b.end
  {
  }

  function Raw(b: Option<Bucket>): int
  {
    if b.Some? then b.value.estimatedMinor else 0
  }

  function RowOf(b: Option<Bucket>, cost: int, key: string): DriftRow
  {
    var drift := cost - Raw(b);
    var base := if b.Some? then b.value else Bucket("", "", "", "", 0, "");
    DriftRow(base.team, base.app, base.env, base.project, NonNegative(Raw(b)), NonNegative(cost), drift,
             drift as real / (if cost < 1 then 1 else cost) as real, base.catalogVersion, key)
  }

  /** A row adds up exactly when the two zero floors cut the same amount off both costs. */
  lemma RowAddsUp(b: Option<Bucket>, cost: int, key: string)
    ensures var row := RowOf(b, cost, key);
            row.estimatedMinor + row.driftMinor == row.reconciledMinor <==>
            (if Raw(b) < 0 then Raw(b) else 0) == (if cost < 0 then cost else 0)
    ensures var row := RowOf(b, cost, key);
            && (Raw(b) >= 0 && cost >= 1 ==> row.driftRatio * row.reconciledMinor as real == row.driftMinor as real)
            && (cost < 1 ==> row.driftRatio == row.driftMinor as real)
  {
  }

  lemma {:induction false} SumNonNegative(log: seq<Entry>, key: string)
    requires forall i :: 0 <= i < |log| ==> log[i].e.costMinor >= 0
    ensures SumMinor(log, key) >= 0
  {
    if log != [] { SumNonNegative(log[..|log| - 1], key); }
  }

  /** With priced estimates and a non-negative billed cost, the row shows the exact sums and
      adds up. */
  lemma {:induction false} PricedRowAddsUp(log: seq<Entry>, key: string, cost: int)
    requires cost >= 0 && forall i :: 0 <= i < |log| ==> log[i].e.costMinor >= 0
    ensures var row := RowOf(BucketOf(log, key), cost, key);
            && row.estimatedMinor == SumMinor(log, key) && row.reconciledMinor == cost
            && row.estimatedMinor + row.driftMinor == cost && row.catalogVersion == LatestVersion(log, key)
            && forall i: nat :: FirstOf(log, key, i) ==> Attributed(log[i].e, row.team, row.app, row.env, row.project)
  {
    BucketMeaning(log, key);
    SumNonNegative(log, key);
    if BucketOf(log, key).None? { NoneSummed(log, key); }
    forall i: nat, j: nat | FirstOf(log, key, i) && FirstOf(log, key, j)
      ensures i == j
    {
    }
  }

  datatype Outcome = Upserted | StoreFailed

  class Reconciler {
    const canonical: Canonical
    var buckets: map<string, Bucket>
    /** control_plane.cost_reconciliation_drift, by its unique columns. */
    var rows: map<RowKey, DriftRow>
    /** Every estimate recorded. */
    ghost var log: seq<Entry>
    /** Every row upserted. */
    ghost var puts: seq<(RowKey, DriftRow)>

    ghost predicate Valid()
      reads this
    {
      rows == PutAll(map[], puts) && forall k :: Stored(k)
    }

    ghost predicate Stored(k: string)
      reads this
    {
      BucketOf(log, k) == if k in buckets then Some(buckets[k]) else None
    }

    constructor (canonical: Canonical)
      ensures Valid() && log == [] && puts == [] && this.canonical == canonical
    {
      this.canonical := canonical;
      buckets, rows, log, puts := map[], map[], [], [];
    }

    method RecordEstimate(e: Estimated)
      requires Valid()
      modifies this`buckets, this`log
      ensures Valid() && log == old(log) + [Entry(KeyString(canonical, e.key), e)]
    {
      Record(KeyString(canonical, e.key), e);
    }

    method Record(key: string, e: Estimated)
      requires Valid()
      modifies this`buckets, this`log
      ensures Valid() && log == old(log) + [Entry(key, e)]
    {
      assert Stored(key);
      var b := if key in buckets then buckets[key] else Bucket(e.team, e.app, e.env, e.project, 0, e.catalogVersion);
      b := b.(estimatedMinor := b.estimatedMinor + e.costMinor);
      if e.catalogVersion != "" {
        b := b.(catalogVersion := e.catalogVersion);
      }
      buckets := buckets[key := b];
      log := log + [Entry(key, e)];
      assert log[..|log| - 1] == old(log);
      forall k ensures Stored(k) { assert old(Stored(k)); }
    }

    /** `storeOk` is whether the upsert succeeds. */
    method ApplyReconciled(rec: Reconciled, storeOk: bool) returns (outcome: Outcome)
      requires Valid()
      modifies this`rows, this`puts
      ensures Valid() && outcome == if storeOk then Upserted else StoreFailed
      ensures var put := PutFor(canonical, log, rec);
              && puts == (if storeOk then old(puts) + [put] else old(puts))
              && rows == (if storeOk then old(rows)[put.0 := put.1] else old(rows))
    {
      outcome := Upsert(rec, KeyString(canonical, rec.key), storeOk);
    }

    /** The reconciled records of the stream, each upserted. */
    method ApplyStream(recs: seq<Reconciled>)
      requires Valid()
      modifies this`rows, this`puts
      ensures Valid() && puts == old(puts) + PutsFor(canonical, log, recs)
    {
      ghost var was := puts;
      PutsCut(canonical, log, recs, was);
      for i := 0 to |recs|
        invariant Valid()
        invariant puts == PutsUpTo(canonical, log, recs, was, i)
      {
        var _ := ApplyReconciled(recs[i], true);
      }
    }

    method Upsert(rec: Reconciled, key: string, storeOk: bool) returns (outcome: Outcome)
      requires Valid()
      modifies this`rows, this`puts
      ensures Valid() && outcome == if storeOk then Upserted else StoreFailed
      ensures var k, row := RowKeyOf(canonical, rec.key), RowOf(BucketOf(log, key), rec.costMinor, key);
              && puts == (if storeOk then old(puts) + [(k, row)] else old(puts))
              && rows == (if storeOk then old(rows)[k := row] else old(rows))
    {
      assert Stored(key);
      var team, app, env, project, catalogVersion, estimated := "", "", "", "", "", 0;
      if key in buckets {
        var b := buckets[key];
        team, app, env, project := b.team, b.app, b.env, b.project;
        catalogVersion, estimated := b.catalogVersion, b.estimatedMinor;
      }
      var driftMinor := rec.costMinor - estimated;
      var ratioDen := rec.costMinor;
      if ratioDen < 1 {
        ratioDen := 1;
      }
      var row := DriftRow(team, app, env, project, NonNegative(estimated), NonNegative(rec.costMinor), driftMinor,
                          driftMinor as real / ratioDen as real, catalogVersion, key);
      assert row == RowOf(BucketOf(log, key), rec.costMinor, key);
      if !storeOk {
        return StoreFailed;
      }
      rows := rows[RowKeyOf(canonical, rec.key) := row];
      PutOne(map[], puts, RowKeyOf(canonical, rec.key), row);
      puts := puts + [(RowKeyOf(canonical, rec.key), row)];
      forall k ensures Stored(k) { assert old(Stored(k)); }
      return Upserted;
    }
  }

  // ------------------------------------------------ replay

  /** Upserts, one after another. */
  function PutAll<K(!new), V(!new)>(m: map<K, V>, puts: seq<(K, V)>): map<K, V>
  {
    if puts == [] then m else PutAll(m, puts[..|puts| - 1])[puts[|puts| - 1].0 := puts[|puts| - 1].1]
  }

  lemma PutOne<K(!new), V(!new)>(m: map<K, V>, puts: seq<(K, V)>, k: K, v: V)
    ensures PutAll(m, puts + [(k, v)]) == PutAll(m, puts)[k := v]
  {
    assert (puts + [(k, v)])[..|puts|] == puts;
  }

  /** The last upsert of a key decides its row. */
  lemma {:induction false} LastDecides<K(!new), V(!new)>(m: map<K, V>, puts: seq<(K, V)>, i: nat)
    requires i < |puts| && forall j :: i < j < |puts| ==> puts[j].0 != puts[i].0
    ensures puts[i].0 in PutAll(m, puts) && PutAll(m, puts)[puts[i].0] == puts[i].1
  {
    if i < |puts| - 1 { LastDecides(m, puts[..|puts| - 1], i); }
  }

  lemma {:induction false} OthersKept<K(!new), V(!new)>(m: map<K, V>, puts: seq<(K, V)>, k: K)
    requires forall j :: 0 <= j < |puts| ==> puts[j].0 != k
    ensures k in PutAll(m, puts) <==> k in m
    ensures k in m ==> PutAll(m, puts)[k] == m[k]
  {
    if puts != [] { OthersKept(m, puts[..|puts| - 1], k); }
  }

  lemma {:induction false} LastPut<K(!new), V(!new)>(puts: seq<(K, V)>, k: K, j: nat) returns (i: nat)
    requires j < |puts| && puts[j].0 == k
    ensures i < |puts| && puts[i].0 == k && forall l :: i < l < |puts| ==> puts[l].0 != k
    decreases |puts| - j
  {
    if l :| j < l < |puts| && puts[l].0 == k {
      i := LastPut(puts, k, l);
    } else {
      i := j;
    }
  }

  /** The row written for a reconciled event, given the estimates so far. */
  function PutFor(canonical: Canonical, log: seq<Entry>, rec: Reconciled): (RowKey, DriftRow)
  {
    var key := KeyString(canonical, rec.key);
    (RowKeyOf(canonical, rec.key), RowOf(BucketOf(log, key), rec.costMinor, key))
  }

  function PutsFor(canonical: Canonical, log: seq<Entry>, recs: seq<Reconciled>): seq<(RowKey, DriftRow)>
  {
    Mapped(recs, (rec: Reconciled) => PutFor(canonical, log, rec))
  }

  function Mapped<T, U>(xs: seq<T>, f: T -> U): seq<U>
  {
    seq(|xs|, i requires 0 <= i < |xs| => f(xs[i]))
  }

  lemma {:induction false} ReplayPuts<K(!new), V(!new)>(m: map<K, V>, puts: seq<(K, V)>, again: seq<(K, V)>)
    requires again == puts + puts
    ensures PutAll(m, again) == PutAll(m, puts)
  {
    var n := |puts|;
    forall k
      ensures k in PutAll(m, again) <==> k in PutAll(m, puts)
      ensures k in PutAll(m, puts) ==> PutAll(m, again)[k] == PutAll(m, puts)[k]
    {
      if j: nat :| j < n && puts[j].0 == k {
        var i := LastPut(puts, k, j);
        LastDecides(m, puts, i);
        assert forall l :: n + i < l < |again| ==> again[l] == puts[l - n];
        LastDecides(m, again, n + i);
      } else {
        OthersKept(m, puts, k);
        OthersKept(m, again, k);
      }
    }
  }

  /** The upserts before, and those of the first n events. */
  ghost function PutsUpTo(canonical: Canonical, log: seq<Entry>, recs: seq<Reconciled>, was: seq<(RowKey, DriftRow)>, n: nat)
    : seq<(RowKey, DriftRow)>
    requires n <= |recs|
  {
    was + PutsFor(canonical, log, recs[..n])
  }

  lemma PutsCut(canonical: Canonical, log: seq<Entry>, recs: seq<Reconciled>, was: seq<(RowKey, DriftRow)>)
    ensures PutsUpTo(canonical, log, recs, was, 0) == was
    ensures PutsUpTo(canonical, log, recs, was, |recs|) == was + PutsFor(canonical, log, recs)
    ensures forall i :: 0 <= i < |recs| ==>
              PutsUpTo(canonical, log, recs, was, i) + [PutFor(canonical, log, recs[i])] ==
              PutsUpTo(canonical, log, recs, was, i + 1)
  {
    assert recs[..|recs|] == recs;
    forall i | 0 <= i < |recs|
      ensures PutsUpTo(canonical, log, recs, was, i) + [PutFor(canonical, log, recs[i])] ==
              PutsUpTo(canonical, log, recs, was, i + 1)
    {
      MappedNext(recs, (rec: Reconciled) => PutFor(canonical, log, rec), i);
    }
  }

  lemma MappedNext<T, U>(xs: seq<T>, f: T -> U, i: nat)
    requires i < |xs|
    ensures Mapped(xs[..i + 1], f) == Mapped(xs[..i], f) + [f(xs[i])]
  {
  }

  lemma {:induction false} PutAllJoin<K(!new), V(!new)>(m: map<K, V>, a: seq<(K, V)>, b: seq<(K, V)>)
    ensures PutAll(m, a + b) == PutAll(PutAll(m, a), b)
  {
    if b == [] {
      assert a + b == a;
    } else {
      var n := |b| - 1;
      PutAllJoin(m, a, b[..n]);
      assert (a + b)[..|a + b| - 1] == a + b[..n];
    }
  }

  lemma ReplayAfter<K(!new), V(!new)>(before: seq<(K, V)>, puts: seq<(K, V)>)
    ensures PutAll(map[], (before + puts) + puts) == PutAll(map[], before + puts)
  {
    PutAllJoin(map[], before, puts);
    PutAllJoin(map[], before, puts + puts);
    assert (before + puts) + puts == before + (puts + puts);
    ReplayPuts(PutAll(map[], before), puts, puts + puts);
  }

  /** After any upserts, applying a run of reconciled events again leaves every row as the
      first time left it. */
  lemma ReplayRewrites(canonical: Canonical, log: seq<Entry>, before: seq<(RowKey, DriftRow)>, recs: seq<Reconciled>)
    ensures var puts := PutsFor(canonical, log, recs);
            PutAll(map[], (before + puts) + puts) == PutAll(map[], before + puts)
  {
    ReplayAfter(before, PutsFor(canonical, log, recs));
  }

  /** The reconciler after a stream of reconciled records and after the same stream again:
      the same rows. */
  method ReplayStream(r: Reconciler, recs: seq<Reconciled>) returns (once: map<RowKey, DriftRow>)
    requires r.Valid()
    modifies r`rows, r`puts
    ensures r.Valid() && r.rows == once && r.log == old(r.log)
    ensures once == PutAll(old(r.rows), PutsFor(r.canonical, r.log, recs))
  {
    ghost var before := r.puts;
    r.ApplyStream(recs);
    once := r.rows;
    PutAllJoin(map[], before, PutsFor(r.canonical, r.log, recs));
    r.ApplyStream(recs);
    ReplayRewrites(r.canonical, r.log, before, recs);
  }
}
