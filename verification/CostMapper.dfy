/** Pricing of runtime events (cost-mapper mapper.go). Arithmetic is exact until the
    cost is rounded to whole cents. */
module CostMapper {
  import opened Json

  datatype Rate = Rate(inputPer1K: real, outputPer1K: real, currency: string, approximate: bool)

  datatype RuntimeEvent = RuntimeEvent(
    eventId: string, source: string, provider: string, model: string, tenant: string, team: string, app: string,
    env: string, project: string, region: string, inputTokens: int, outputTokens: int, recordedAt: string)

  datatype EstimatedEvent = EstimatedEvent(
    eventId: string, sourceEventId: string, source: string, provider: string, model: string, tenant: string,
    inputTokens: int, outputTokens: int, costMinor: int, catalogVersion: string, approximate: bool, currency: string)

  datatype Error = MissingEventId | MissingTenant | ModelNotPriced
  datatype Result<+T> = Ok(value: T) | Err(error: Error)

  /** What the mapper is given: the catalog, the derived-id hash, strings.ToLower over
      strings.TrimSpace, and the source normalisation. */
  datatype Library = Library(
    lookup: (string, string) -> Option<Rate>, version: string, deriveId: (string, string) -> string,
    canonical: string -> string, normalizeSource: string -> string)

  function PerToken(tokens: int): real
  {
    if tokens <= 0 then 0.0 else tokens as real / 1000.0
  }

  /** math.Round on a non-negative value: halves go up. */
  function Round(x: real): int
    requires x >= 0.0
  {
    (x + 0.5).Floor
  }

  function ToMinorUnits(usd: real): (minor: int)
    ensures minor >= 0
  {
    if usd <= 0.0 then 0 else Round(usd * 100.0)
  }

  function CostUSD(ev: RuntimeEvent, rate: Rate): real
  {
    PerToken(ev.inputTokens) * rate.inputPer1K + PerToken(ev.outputTokens) * rate.outputPer1K
  }

  function Estimate(lib: Library, ev: RuntimeEvent): Result<EstimatedEvent>
  {
    if ev.eventId == "" then Err(MissingEventId)
    else if ev.tenant == "" then Err(MissingTenant)
    else
      match lib.lookup(ev.provider, ev.model)
      case None => Err(ModelNotPriced)
      case Some(rate) =>
        Ok(EstimatedEvent(
             lib.deriveId(ev.eventId, lib.version), ev.eventId, lib.normalizeSource(ev.source),
             lib.canonical(ev.provider), lib.canonical(ev.model), ev.tenant, ev.inputTokens, ev.outputTokens,
             ToMinorUnits(CostUSD(ev, rate)), lib.version, rate.approximate, rate.currency))
  }

  function Abs(x: real): real
  {
    if x < 0.0 then -x else x
  }

  /** The rounded amount is within half a cent of the exact one, exactly when the exact one
      is no further than half a cent below zero. */
  lemma RoundingError(usd: real)
    ensures Abs(ToMinorUnits(usd) as real - 100.0 * usd) <= 0.5 <==> usd >= -0.005
  {
  }

  /** It is the nearest whole number of cents, and of two equally near ones the larger. */
  lemma NearestMinor(usd: real, other: int)
    requires usd >= 0.0
    ensures var minor := ToMinorUnits(usd);
            && Abs(minor as real - 100.0 * usd) <= Abs(other as real - 100.0 * usd)
            && (other > minor ==> Abs(minor as real - 100.0 * usd) < Abs(other as real - 100.0 * usd))
  {
    var minor := ToMinorUnits(usd);
    if usd == 0.0 {
      assert minor == 0;
    } else {
      assert minor as real - 0.5 <= 100.0 * usd < minor as real + 0.5;
      if other > minor { assert other as real >= minor as real + 1.0; }
      if other < minor { assert other as real <= minor as real - 1.0; }
    }
  }

  /** Negative token counts are priced as none. */
  function Positive(tokens: int): int
  {
    if tokens > 0 then tokens else 0
  }

  lemma CostInCents(ev: RuntimeEvent, rate: Rate)
    ensures 100.0 * CostUSD(ev, rate) ==
            (Positive(ev.inputTokens) as real * rate.inputPer1K + Positive(ev.outputTokens) as real * rate.outputPer1K) / 10.0
    ensures rate.inputPer1K >= 0.0 && rate.outputPer1K >= 0.0 ==> CostUSD(ev, rate) >= 0.0
  {
  }

  /** An event is priced exactly when it is identified and its model is in the catalog, and
      the cents are within one half of a tenth of the tokens times the dollars per thousand. */
  lemma EstimateAccurate(lib: Library, ev: RuntimeEvent)
    ensures Estimate(lib, ev).Ok? <==> ev.eventId != "" && ev.tenant != "" && lib.lookup(ev.provider, ev.model).Some?
    ensures Estimate(lib, ev).Ok? ==>
              var rate := lib.lookup(ev.provider, ev.model).value;
              rate.inputPer1K >= 0.0 && rate.outputPer1K >= 0.0 ==>
                Abs(Estimate(lib, ev).value.costMinor as real
                    - (Positive(ev.inputTokens) as real * rate.inputPer1K
                       + Positive(ev.outputTokens) as real * rate.outputPer1K) / 10.0) <= 0.5
  {
    if Estimate(lib, ev).Ok? {
      var rate := lib.lookup(ev.provider, ev.model).value;
      CostInCents(ev, rate);
      if rate.inputPer1K >= 0.0 && rate.outputPer1K >= 0.0 { RoundingError(CostUSD(ev, rate)); }
    }
  }

  /** The first missing thing is what is reported, in this order; an estimate repeats the
      event's own identity and counts, in canonical spelling, under the catalog that priced it. */
  lemma EstimateExactly(lib: Library, ev: RuntimeEvent)
    ensures Estimate(lib, ev) == Err(MissingEventId) <==> ev.eventId == ""
    ensures Estimate(lib, ev) == Err(MissingTenant) <==> ev.eventId != "" && ev.tenant == ""
    ensures Estimate(lib, ev).Ok? ==>
              var est, rate := Estimate(lib, ev).value, lib.lookup(ev.provider, ev.model).value;
              && est.eventId == lib.deriveId(ev.eventId, lib.version) && est.sourceEventId == ev.eventId
              && est.source == lib.normalizeSource(ev.source) && est.provider == lib.canonical(ev.provider)
              && est.model == lib.canonical(ev.model) && est.tenant == ev.tenant && est.inputTokens == ev.inputTokens
              && est.outputTokens == ev.outputTokens && est.catalogVersion == lib.version
              && est.approximate == rate.approximate && est.currency == rate.currency
  {
  }
}
