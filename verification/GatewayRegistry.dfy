/** The gateway's own counters and latency histograms (gateway metrics.go), one observed
    request at a time. Counts are unbounded and latencies are reals. */
module GatewayRegistry {
  import opened GatewayKey

  const LATENCY_BUCKETS: seq<real> := [0.01, 0.025, 0.05, 0.1, 0.25, 0.5, 1.0, 2.5, 5.0, 10.0, 30.0, 60.0]

  datatype Observation = Observation(
    labels: RequestLabels, latency: real, retries: int, streaming: bool, hasUsage: bool)

  // ------------------------------------------------ histograms

  /** How many of the values are at or below a bound. */
  function AtMost(seen: seq<real>, bound: real): nat
  {
    if seen == [] then 0
    else AtMost(seen[..|seen| - 1], bound) + (if seen[|seen| - 1] <= bound then 1 else 0)
  }

  function Total(seen: seq<real>): real
  {
    if seen == [] then 0.0 else Total(seen[..|seen| - 1]) + seen[|seen| - 1]
  }

  lemma SeenOne(seen: seq<real>, v: real)
    ensures Total(seen + [v]) == Total(seen) + v
    ensures forall b :: AtMost(seen + [v], b) == AtMost(seen, b) + (if v <= b then 1 else 0)
  {
    assert (seen + [v])[..|seen|] == seen;
  }

  /** AtMost counts the observations at or below the bound, the bound included. */
  lemma {:induction false} AtMostCounts(seen: seq<real>, bound: real)
    ensures AtMost(seen, bound) == |set i | 0 <= i < |seen| && seen[i] <= bound|
  {
    if seen != [] {
      var n := |seen| - 1;
      AtMostCounts(seen[..n], bound);
      var before := set i | 0 <= i < n && seen[..n][i] <= bound;
      var all := set i | 0 <= i < |seen| && seen[i] <= bound;
      assert before == all - {n};
    }
  }

  class Hist {
    var counts: seq<nat>
    var sum: real
    var count: nat
    /** Every value observed. */
    ghost var seen: seq<real>

    ghost predicate Valid()
      reads this
    {
      && |counts| == |LATENCY_BUCKETS| + 1
      && (forall i :: 0 <= i < |LATENCY_BUCKETS| ==> counts[i] == AtMost(seen, LATENCY_BUCKETS[i]))
      && counts[|LATENCY_BUCKETS|] == |seen|
      && count == |seen| && sum == Total(seen)
    }

    constructor (n: nat)
      requires n == |LATENCY_BUCKETS| + 1
      ensures Valid() && seen == []
    {
      counts := seq(n, i => 0);
      sum, count, seen := 0.0, 0, [];
    }

    method Observe(v: real)
      requires Valid()
      modifies this
      ensures Valid() && seen == old(seen) + [v]
    {
      SeenOne(seen, v);
      sum := sum + v;
      count := count + 1;
      for i := 0 to |LATENCY_BUCKETS|
        invariant |counts| == |LATENCY_BUCKETS| + 1 && seen == old(seen)
        invariant sum == Total(old(seen)) + v && count == |old(seen)| + 1
        invariant forall j :: 0 <= j < i ==> counts[j] == AtMost(old(seen) + [v], LATENCY_BUCKETS[j])
        invariant forall j :: i <= j < |LATENCY_BUCKETS| ==> counts[j] == AtMost(old(seen), LATENCY_BUCKETS[j])
        invariant counts[|LATENCY_BUCKETS|] == |old(seen)|
      {
        if v <= LATENCY_BUCKETS[i] {
          counts := counts[i := counts[i] + 1];
        }
      }
      counts := counts[|counts| - 1 := counts[|counts| - 1] + 1];
      seen := seen + [v];
    }
  }

  lemma {:induction false} AtMostGrows(seen: seq<real>, low: real, high: real)
    requires low <= high
    ensures AtMost(seen, low) <= AtMost(seen, high) <= |seen|
  {
    if seen != [] { AtMostGrows(seen[..|seen| - 1], low, high); }
  }

  lemma BucketsAscend(i: nat)
    requires i + 1 < |LATENCY_BUCKETS|
    ensures LATENCY_BUCKETS[i] < LATENCY_BUCKETS[i + 1]
  {
  }

  /** The cumulative counts never decrease, and the last one is the number observed. */
  lemma CountsCumulate(h: Hist, i: nat)
    requires h.Valid() && i + 1 < |h.counts|
    ensures h.counts[i] <= h.counts[i + 1] <= h.count
    ensures h.counts[|h.counts| - 1] == h.count
  {
    if i + 1 < |LATENCY_BUCKETS| {
      BucketsAscend(i);
      AtMostGrows(h.seen, LATENCY_BUCKETS[i], LATENCY_BUCKETS[i + 1]);
    } else {
      AtMostGrows(h.seen, LATENCY_BUCKETS[i], LATENCY_BUCKETS[i]);
    }
  }

  // ------------------------------------------------ what a log of requests amounts to

  /** A request filed under the key of its labels. */
  datatype Entry = Entry(key: string, o: Observation)

  ghost predicate Filed(e: Entry)
  {
    e.key == ToKey(e.o.labels)
  }

  ghost predicate FiledAt(log: seq<Entry>, i: int)
  {
    0 <= i < |log| ==> Filed(log[i])
  }

  ghost predicate AllFiled(log: seq<Entry>)
  {
    forall i :: FiledAt(log, i)
  }

  lemma FileOne(log: seq<Entry>, e: Entry)
    requires AllFiled(log) && Filed(e)
    ensures AllFiled(log + [e])
  {
    var grown := log + [e];
    forall i ensures FiledAt(grown, i) { assert FiledAt(log, i); }
  }

  /** A per-request amount, summed over the requests with a key. */
  function Tally(log: seq<Entry>, key: string, amount: Observation -> int): int
  {
    if log == [] then 0
    else
      var e := log[|log| - 1];
      Tally(log[..|log| - 1], key, amount) + (if e.key == key then amount(e.o) else 0)
  }

  function Latencies(log: seq<Entry>, key: string): seq<real>
  {
    if log == [] then []
    else
      var e := log[|log| - 1];
      Latencies(log[..|log| - 1], key) + (if e.key == key then [e.o.latency] else [])
  }

  function One(): Observation -> int { (o: Observation) => 1 }
  function Failed(): Observation -> int { (o: Observation) => if o.labels.status != "success" then 1 else 0 }
  function Retries(): Observation -> int { (o: Observation) => if o.retries > 0 then o.retries else 0 }
  function Streamed(): Observation -> int { (o: Observation) => if o.streaming then 1 else 0 }
  function Used(): Observation -> int { (o: Observation) => if o.hasUsage then 1 else 0 }
  function Unused(): Observation -> int { (o: Observation) => if o.hasUsage then 0 else 1 }

  type Counter = map<string, int>

  /** counter.load: an absent key reads zero. */
  function Load(c: Counter, key: string): int
  {
    if key in c then c[key] else 0
  }

  /** counter.add, taken as one step. */
  function Plus(c: Counter, key: string, delta: int): Counter
  {
    c[key := Load(c, key) + delta]
  }

  /** The counter holds the tally of a key, and lists the key only if it was observed. */
  ghost predicate CountsKey(c: Counter, log: seq<Entry>, amount: Observation -> int, k: string)
  {
    Load(c, k) == Tally(log, k, amount) && (k in c ==> Latencies(log, k) != [])
  }

  ghost predicate Counts(c: Counter, log: seq<Entry>, amount: Observation -> int)
  {
    forall k :: CountsKey(c, log, amount, k)
  }

  lemma TallyOne(log: seq<Entry>, e: Entry, key: string, amount: Observation -> int)
    ensures Tally(log + [e], key, amount) == Tally(log, key, amount) + (if e.key == key then amount(e.o) else 0)
    ensures Latencies(log + [e], key) == Latencies(log, key) + (if e.key == key then [e.o.latency] else [])
  {
    assert (log + [e])[..|log|] == log;
  }

  /** What one request adds to each counter of its key. */
  lemma RequestAdds(log: seq<Entry>, e: Entry)
    ensures Tally(log + [e], e.key, One()) == Tally(log, e.key, One()) + 1
    ensures Tally(log + [e], e.key, Failed()) == Tally(log, e.key, Failed()) + (if e.o.labels.status == "success" then 0 else 1)
    ensures Tally(log + [e], e.key, Retries()) == Tally(log, e.key, Retries()) + (if e.o.retries <= 0 then 0 else e.o.retries)
    ensures Tally(log + [e], e.key, Streamed()) == Tally(log, e.key, Streamed()) + (if e.o.streaming then 1 else 0)
    ensures Tally(log + [e], e.key, Used()) == Tally(log, e.key, Used()) + (if e.o.hasUsage then 1 else 0)
    ensures Tally(log + [e], e.key, Unused()) == Tally(log, e.key, Unused()) + (if e.o.hasUsage then 0 else 1)
  {
    TallyOne(log, e, e.key, One());
    TallyOne(log, e, e.key, Failed());
    TallyOne(log, e, e.key, Retries());
    TallyOne(log, e, e.key, Streamed());
    TallyOne(log, e, e.key, Used());
    TallyOne(log, e, e.key, Unused());
  }

  lemma {:induction false} TallyCount(log: seq<Entry>, key: string)
    ensures Tally(log, key, One()) == |Latencies(log, key)|
  {
    if log != [] { TallyCount(log[..|log| - 1], key); }
  }

  /** The counter after one more request; a zero amount is not added. */
  lemma CountsOne(c: Counter, log: seq<Entry>, e: Entry, amount: Observation -> int, delta: int, next: Counter, grown: seq<Entry>)
    requires Counts(c, log, amount) && delta == amount(e.o) && grown == log + [e]
    requires next == if delta == 0 then c else Plus(c, e.key, delta)
    ensures Counts(next, grown, amount)
  {
    forall k
      ensures CountsKey(next, grown, amount, k)
    {
      assert CountsKey(c, log, amount, k);
      TallyOne(log, e, k, amount);
    }
  }

  // ------------------------------------------------ the registry

  class Registry {
    var requests: Counter
    var errors: Counter
    var retries: Counter
    var streaming: Counter
    var usageObserved: Counter
    var usageUnknown: Counter
    var histogram: map<string, Hist>
    /** Every request observed. */
    ghost var log: seq<Entry>

    ghost predicate Counted(log: seq<Entry>)
      reads this
    {
      && Counts(requests, log, One()) && Counts(errors, log, Failed()) && Counts(retries, log, Retries())
      && Counts(streaming, log, Streamed()) && Counts(usageObserved, log, Used()) && Counts(usageUnknown, log, Unused())
    }

    /** A key with observed requests has a histogram, which holds their latencies. */
    ghost predicate KeyMeasured(log: seq<Entry>, k: string)
      reads this`histogram, histogram.Values
    {
      if k in histogram then Latencies(log, k) != [] && histogram[k].Valid() && histogram[k].seen == Latencies(log, k)
      else Latencies(log, k) == []
    }

    /** No two keys share a histogram object. */
    ghost predicate Separate()
      reads this`histogram
    {
      forall k, l :: k in histogram && l in histogram && histogram[k] == histogram[l] ==> k == l
    }

    ghost predicate Measured(log: seq<Entry>)
      reads this`histogram, histogram.Values
    {
      Separate() && forall k :: KeyMeasured(log, k)
    }

    ghost predicate Valid()
      reads this, histogram.Values
    {
      AllFiled(log) && Counted(log) && Measured(log)
    }

    constructor ()
      ensures Valid() && log == [] && histogram == map[]
    {
      requests, errors, retries, streaming, usageObserved, usageUnknown := map[], map[], map[], map[], map[], map[];
      histogram, log := map[], [];
    }

    /** Requests, errors and retries. */
    method BumpOutcome(e: Entry)
      requires Counts(requests, log, One()) && Counts(errors, log, Failed()) && Counts(retries, log, Retries())
      modifies this`requests, this`errors, this`retries
      ensures Counts(requests, log + [e], One()) && Counts(errors, log + [e], Failed()) && Counts(retries, log + [e], Retries())
    {
      ghost var grown := log + [e];
      CountsOne(requests, log, e, One(), 1, Plus(requests, e.key, 1), grown);
      requests := Plus(requests, e.key, 1);
      ghost var before := errors;
      if e.o.labels.status != "success" {
        errors := Plus(errors, e.key, 1);
      }
      CountsOne(before, log, e, Failed(), Failed()(e.o), errors, grown);
      before := retries;
      if e.o.retries > 0 {
        retries := Plus(retries, e.key, e.o.retries);
      }
      CountsOne(before, log, e, Retries(), Retries()(e.o), retries, grown);
    }

    /** Streaming and usage. */
    method BumpUsage(e: Entry)
      requires Counts(streaming, log, Streamed()) && Counts(usageObserved, log, Used()) && Counts(usageUnknown, log, Unused())
      modifies this`streaming, this`usageObserved, this`usageUnknown
      ensures Counts(streaming, log + [e], Streamed())
      ensures Counts(usageObserved, log + [e], Used()) && Counts(usageUnknown, log + [e], Unused())
    {
      ghost var grown := log + [e];
      ghost var before := streaming;
      if e.o.streaming {
        streaming := Plus(streaming, e.key, 1);
      }
      CountsOne(before, log, e, Streamed(), Streamed()(e.o), streaming, grown);
      ghost var observed, unknown := usageObserved, usageUnknown;
      if e.o.hasUsage {
        usageObserved := Plus(usageObserved, e.key, 1);
      } else {
        usageUnknown := Plus(usageUnknown, e.key, 1);
      }
      CountsOne(observed, log, e, Used(), Used()(e.o), usageObserved, grown);
      CountsOne(unknown, log, e, Unused(), Unused()(e.o), usageUnknown, grown);
    }

    /** Finds or makes the histogram of a key. */
    method HistogramFor(key: string) returns (h: Hist)
      requires Measured(log)
      modifies this`histogram
      ensures Separate() && key in histogram && h == histogram[key] && h.Valid() && h.seen == Latencies(log, key)
      ensures forall k :: k != key ==> KeyMeasured(log, k)
      ensures histogram == old(histogram) || (fresh(h) && histogram == old(histogram)[key := h])
    {
      assert KeyMeasured(log, key);
      if key !in histogram {
        ghost var before := histogram;
        var made := new Hist(|LATENCY_BUCKETS| + 1);
        histogram := histogram[key := made];
        forall k | k != key
          ensures KeyMeasured(log, k)
        {
          assert old(KeyMeasured(log, k));
        }
      }
      h := histogram[key];
    }

    /** The latency goes to the key's histogram and to no other. */
    method Measure(e: Entry)
      requires Measured(log)
      modifies this`histogram, histogram.Values
      ensures Measured(log + [e])
      ensures fresh(histogram.Values - old(histogram.Values))
    {
      var h := HistogramFor(e.key);
      label found:
      h.Observe(e.o.latency);
      ghost var grown := log + [e];
      forall k
        ensures KeyMeasured(grown, k)
      {
        TallyOne(log, e, k, One());
        if k != e.key {
          assert old@found(KeyMeasured(log, k));
        }
      }
    }

    method ObserveRequest(o: Observation)
      requires Valid()
      modifies this, histogram.Values
      ensures Valid() && log == old(log) + [Entry(ToKey(o.labels), o)]
      ensures fresh(histogram.Values - old(histogram.Values))
    {
      Record(Entry(ToKey(o.labels), o));
    }

    method Record(e: Entry)
      requires Valid() && Filed(e)
      modifies this, histogram.Values
      ensures Valid() && log == old(log) + [e]
      ensures fresh(histogram.Values - old(histogram.Values))
    {
      ghost var grown := log + [e];
      FileOne(log, e);
      BumpOutcome(e);
      Measure(e);
      BumpUsage(e);
      log := grown;
    }
  }

  // ------------------------------------------------ what holds in every reachable registry

  lemma {:induction false} UsageSplits(log: seq<Entry>, key: string)
    ensures Tally(log, key, One()) == Tally(log, key, Used()) + Tally(log, key, Unused())
  {
    if log != [] { UsageSplits(log[..|log| - 1], key); }
  }

  /** Requests that share a key share a status. */
  lemma {:induction false} ErrorsAllOrNone(log: seq<Entry>, l: RequestLabels, key: string)
    requires AllFiled(log) && key == ToKey(l)
    ensures Tally(log, key, Failed()) == if l.status != "success" then Tally(log, key, One()) else 0
  {
    if log != [] {
      var n := |log| - 1;
      var before, e := log[..n], log[n];
      assert FiledAt(log, n);
      forall i ensures FiledAt(before, i) { assert FiledAt(log, i); }
      ErrorsAllOrNone(before, l, key);
      KeyInjective(e.o.labels, l);
    }
  }

  /** A histogram of exactly these latencies: each bucket counts those at or below its
      bound, and the last bucket counts them all. */
  ghost predicate Measures(h: Hist, latencies: seq<real>, n: int)
    reads h
  {
    && |latencies| == n == h.count && h.sum == Total(latencies)
    && |h.counts| == |LATENCY_BUCKETS| + 1 && h.counts[|LATENCY_BUCKETS|] == n
    && forall i :: 0 <= i < |LATENCY_BUCKETS| ==> h.counts[i] == AtMost(latencies, LATENCY_BUCKETS[i])
  }

  /** Per key: requests = histogram count = usage observed + usage unknown, errors are all
      or none of the requests, and the key's histogram measures its latencies. */
  lemma RegistryConsistent(r: Registry, l: RequestLabels, key: string)
    requires r.Valid() && key == ToKey(l)
    ensures var n := Load(r.requests, key);
            && n == Load(r.usageObserved, key) + Load(r.usageUnknown, key)
            && Load(r.errors, key) == (if l.status != "success" then n else 0)
            && (key in r.histogram <==> n > 0)
            && (key in r.histogram ==> Measures(r.histogram[key], Latencies(r.log, key), n))
  {
    UsageSplits(r.log, key);
    ErrorsAllOrNone(r.log, l, key);
    TallyCount(r.log, key);
    assert CountsKey(r.requests, r.log, One(), key) && CountsKey(r.errors, r.log, Failed(), key);
    assert CountsKey(r.usageObserved, r.log, Used(), key) && CountsKey(r.usageUnknown, r.log, Unused(), key);
    ListedIffSeen(r, key);
  }

  lemma ListedIffSeen(r: Registry, key: string)
    requires r.Measured(r.log)
    ensures if key in r.histogram then
              Latencies(r.log, key) != [] && r.histogram[key].Valid() && r.histogram[key].seen == Latencies(r.log, key)
            else Latencies(r.log, key) == []
  {
    assert r.KeyMeasured(r.log, key);
  }
}
