# OpenLLM Metrics: verified models

This project models five stateful components of OpenLLM Metrics in Dafny and proves what
they promise over every input, every run and every interleaving.

1. **Audit ledger** (audit-service): concurrent per-tenant appends into a hash chain, the
   canonical encoder that feeds the hash, the segment verifier, cursor paging and the
   consumer's redaction. `Canonical`, `Hasher`, `Ledger`, `AuditStore`, `Verifier`,
   `Paging`, `Redaction`.
2. **Metrics aggregator** (metrics-endpoint): LRU dedup, lint, projection, commit, snapshot
   and Prometheus text. `Lru`, `Contracts`, `Lint`, `Projection`, `Fingerprints`,
   `Float64`, `Aggregator`, `OrderIndependence`, `Collision`, `Replay`, `PromText`,
   `Exposition`.
3. **Gateway tap and registry**: SSE line framing across reads, series keys, histograms and
   the double-checked-locking counter. `StreamTap`, `GatewayKey`, `GatewayRegistry`,
   `RegistryProtocol`, `CounterProtocol`.
4. **Cost estimation and reconciliation** (cost-mapper): rounding, buckets, correlation keys
   and drift rows. `CostMapper`, `Reconciler`.
5. **Policy version store** (policy-service): versions and header pointer under row locks.
   `PolicyStore`.

`StringOrder`, `Text`, `Sums`, `Decimal` and `Json` hold what the others share.
`dafny verify dfyconfig.toml` checks the whole project.

Objects that the services update in place are classes with methods proved against
specification functions; concurrent protocols are state machines whose `Run` folds an
arbitrary sequence of steps of arbitrarily many threads or transactions. A step that is not
enabled changes nothing, so every interleaving, including aborts and lock waits, is a run.

What is taken as given: PostgreSQL SERIALIZABLE lets an append commit only if no row of the
same tenant committed after its snapshot; `FOR UPDATE` and `UPDATE` wait for row locks; a
unique index makes an insert wait for an uncommitted insert of the same key. The audit
table's UUID and JSONB columns return their own rendering of what is written to them
(`Ledger.Columns`), which the verifier then hashes. SHA-256,
base64, time formatting, `strings.ToLower`, `strings.TrimSpace` and the SSE model extraction
are function parameters. So are the float addition and division of the rollup; theorems
that need IEEE 754 ask for `Float64.Binary64`, round to nearest even. No theorem assumes that SHA-256 is injective: the tamper theorems
conclude "the rows are equal, or here are two distinct texts with one digest", and the
recomputation theorems name the two texts that must not collide.

## Where the code and its documentation differ

- The snapshot is documented as independent of the order of events
  (apps/api/metrics-endpoint/internal/aggregator/aggregator.go:289-292). It is, exactly when
  no two accepted contributions share a metric and fingerprint but not their labels, and the
  amounts on each series have one float sum in every order
  (`OrderIndependence.OrderIndependentExactly`). Label values containing NUL break the first
  (`Collision.OrderShows`); without NUL it holds (`OrderIndependence.NulFreeNoCollision`).
  Costs break the second: in doubles, events of 10, 20 and 30 cents on one series make
  0.6000000000000001 dollars in this order and 0.6 in the other (`Collision.CentsOrderShows`).
  Requests, errors, tokens and retries keep it: whole amounts totalling at most 2 to the power
  53 on each series (`OrderIndependence.WholeOrderFree`).
- The line accumulator is documented as truncating oversized lines
  (apps/gateway/internal/proxy/streaming.go:125-128). A line longer than 65536 bytes is cut or
  kept whole depending on how the stream was split into reads; cutting is invisible exactly
  when no line is longer (`StreamTap.CuttingAgreesExactly`). What is sampled can depend on the
  cutting only then, and does for a long line that carries a chunk which its end alone does not
  (`StreamTap.LongChunkDependsOnCutting`).
- The ledger is documented as verifiable, but the hash is taken over the submitted values
  (apps/api/audit-service/internal/store/store.go:149-163) and recomputed from what the
  columns return (apps/api/audit-service/internal/store/store.go:379-395). A row recomputes
  exactly when the columns return its input unchanged (`Ledger.RowRecomputesExactly`), and a
  segment verifies exactly when they return every one of its inputs unchanged
  (`Verifier.SegmentVerifiesExactly`). Two inputs that, appended first, commit and then fail
  verification unless two texts share a digest: a
  tenant id in upper case, since the UUID column returns lower case
  (`Verifier.UpperCaseTenantBreaks`), and a payload holding -0, since a JSONB number has no
  negative zero (`Verifier.NegativeZeroBreaks`). Ids and links hold in every run
  (`Ledger.ChainStaysLinear`).
- A correlation key is documented as identifying one drift bucket. Where lower-casing and
  trimming leave alone the pieces of its provider and model, and the last piece of a tenant
  with colons, a key shares its string with no different key exactly when its
  tenant, provider and model are all free of colons (`Reconciler.KeyStandsAlone`): tenant "t",
  provider "p", model "m1:m2" has the string of tenant "t:p", provider "m1", model "m2". Where
  every tenant and provider is free of colons, models may contain them
  (`Reconciler.KeyInjective`).
- Replay is documented as correct whatever the order of events
  (apps/api/metrics-endpoint/internal/consumer/consumer.go:17-21). The aggregator ends as if
  each distinct event were applied once in order of first delivery exactly when every
  redelivery finds fewer distinct keys than the dedup capacity since the last delivery of its
  own key (`Replay.ReplayFirstOrder`); any other order of the events shows the same exactly
  when they do not depend on order in the sense above (`Replay.ReplayAnyOrderExactly`).
- Nothing deduplicates runtime events in the cost mapper: a stream delivered twice doubles its
  buckets (`Reconciler.RedeliveryDoubles`), while reconciled events can be replayed
  (`Reconciler.ReplayStream`).
- A drift row is documented as drift = reconciled - estimated. The stored columns satisfy
  this exactly when the two zero floors cut the same amount (`Reconciler.RowAddsUp`).
- The encoder describes itself as RFC 8785. It sorts keys by code point rather than by UTF-16
  unit and formats numbers its own way; what is proved is what it does.
- `containsForbidden` does not look into arrays nested in arrays
  (`Redaction.NestedArraysEscape`); redaction does, so nothing slips through
  (`Redaction.RedactionNeverRejects`). Redaction covers actor and payload, not resource.
- The verifier cannot see rows missing at either end of a segment: it accepts exactly the
  contiguous runs of an untampered chain (`Verifier.AcceptsExactlyContiguousRuns`).

## Model

| member | source | states |
|---|---|---|
| Canonical.WriteValue | apps/api/audit-service/internal/hasher/hasher.go:111-182 | the builder gains exactly the specified encoding of the value, whatever order a map yields its keys in |
| Canonical.WriteString | apps/api/audit-service/internal/hasher/hasher.go:185-213 | the rune loop writes the quoted, escaped string |
| Canonical.EscapesExactly | apps/api/audit-service/internal/hasher/hasher.go:185-213 | the escape of every character, spelled out: letters for quote, backslash and five control characters, two lower-case hexadecimal digits for the other control characters, none for the rest |
| Canonical.WriteObject | apps/api/audit-service/internal/hasher/hasher.go:152-169 | fields are written once each, in dictionary order of their keys |
| Canonical.KeysInDictionaryOrder | apps/api/audit-service/internal/hasher/hasher.go:152-169 | of two keys of an object, the one that precedes in dictionary order (a key before its own extensions) has its field written earlier |
| Canonical.RoundTrip | apps/api/audit-service/internal/hasher/hasher.go:111-213 | a decoder recovers every tree of null, bool, string, number lexeme, array and object from its encoding followed by any delimiter, and stops exactly at its end |
| Canonical.Injective | apps/api/audit-service/internal/hasher/hasher.go:79-98 | distinct trees have distinct encodings |
| Hasher.ComputeHash | apps/api/audit-service/internal/hasher/hasher.go:66-108 | the digest of the canonical document, and an error exactly when prev_hash has the wrong length |
| Hasher.DocumentFields | apps/api/audit-service/internal/hasher/hasher.go:79-98 | the hashed document holds each field of the entry under its own name, nil maps as empty objects |
| Hasher.TextInjective | apps/api/audit-service/internal/hasher/hasher.go:79-108 | two entries with the same hashed text agree on every field, nil maps counting as empty |
| StringOrder.SortedKeys | apps/api/audit-service/internal/hasher/hasher.go:153-157 | the keys of a map, taken in any order and sorted, are the one list of them in dictionary order |
| StringOrder.LessIsDictionary | apps/api/audit-service/internal/hasher/hasher.go:157 | the order of sort.Strings: at the first place where two strings differ, the one that ends or has the smaller character comes first |
| StringOrder.SortedIsDictionary | apps/api/audit-service/internal/hasher/hasher.go:153-157 | sorting a set lists all its members, pairwise in dictionary order |
| Ledger.Reachable | apps/api/audit-service/internal/store/store.go:103-203 | every interleaving of append steps keeps the chain, unique ids (also those reserved by transactions in flight) and what each open transaction relies on |
| Ledger.ChainStaysLinear | apps/api/audit-service/internal/store/store.go:103-203 | in every run each tenant's committed rows have strictly increasing ids, start from the zero hash and link each prev_hash to the predecessor's entry_hash, whatever the columns return; no id is used twice |
| Ledger.LoneAppendCommits | apps/api/audit-service/internal/store/store.go:103-203 | from every reachable state, a valid append that nobody interrupts adds exactly its row: the next id, the input read back, and as prev_hash the entry_hash of the tenant's last row or the zero hash |
| Ledger.CommitExactly | apps/api/audit-service/internal/store/store.go:112-203 | in any interleaving an inserted row is added by its commit exactly when no row of its tenant sits at or after its snapshot, and otherwise nothing changes |
| Ledger.BurnedForGood | apps/api/audit-service/internal/store/store.go:138-147 | an id that was reserved and that no committed row and no open transaction holds appears in no later row |
| Ledger.AppendOnly | apps/api/audit-service/internal/store/store.go:160-203 | committed rows are never changed or removed by any later steps |
| Ledger.HashNeverFails | apps/api/audit-service/internal/store/store.go:120-175 | in every reachable state the hash of a reserved append can be computed |
| Ledger.RowsComeFromInputs | apps/api/audit-service/internal/store/store.go:103-203 | every committed row is the read-back of a submitted input, nil maps stored as empty ones, under the hash of the input as submitted |
| Ledger.RowRecomputesExactly | apps/api/audit-service/internal/store/store.go:149-190 | a row recomputes exactly when the UUID and JSONB columns return its input unchanged, unless the two texts behind it collide |
| Verifier.Verify | apps/api/audit-service/internal/handler/verify.go:69-134 | OK exactly when every row recomputes and every row but the first links to its predecessor; otherwise the first offending row, the right reason and the number checked up to and including it; an internal error only on a prev_hash of wrong length |
| Verifier.ReachableSegmentsLink | apps/api/audit-service/internal/handler/verify.go:69-94 | every id segment of every reachable ledger is in id order and linked |
| Verifier.SegmentVerifiesExactly | apps/api/audit-service/internal/handler/verify.go:52-134 | an id segment of a reachable ledger verifies exactly when the columns return the input of each of its rows unchanged, given that no digest collides |
| Verifier.FixedInputsVerify | apps/api/audit-service/internal/handler/verify.go:52-134 | if the columns return every submitted input unchanged, every id segment of every tenant verifies |
| Verifier.ChangedInputBreaks | apps/api/audit-service/internal/store/store.go:149-190 | every well-formed input the columns change can be appended first and then fails verification, unless the two texts behind its row collide |
| Verifier.UpperCaseTenantBreaks | platform/db/audit/migrations/2026051804_f031_audit_ledger.sql:35-37 | an upper-case tenant id, appended first, is such an input, unless the two texts behind its row collide |
| Verifier.NegativeZeroBreaks | platform/db/audit/migrations/2026051804_f031_audit_ledger.sql:35-41 | a payload holding -0, appended first, is such an input, unless the two texts behind its row collide |
| AuditStore.SortedAlready | apps/api/audit-service/internal/store/store.go:332-369 | ORDER BY id returns ascending rows unchanged |
| AuditStore.SelectMember | apps/api/audit-service/internal/store/store.go:207-266 | a WHERE clause keeps exactly the rows that satisfy it |
| AuditStore.StreamMember | apps/api/audit-service/internal/store/store.go:332-369 | the stream to verify holds exactly the tenant's rows whose ids lie within the bounds, a non-positive bound being none |
| Verifier.HashDeterminesRow | apps/api/audit-service/internal/hasher/hasher.go:66-98 | two recomputing rows with one entry_hash are equal, or exhibit a digest collision |
| Verifier.LastHashFixesHistory | apps/api/audit-service/internal/handler/verify.go:69-121 | of two verified segments with the same last entry_hash, the shorter is row for row a suffix of the longer, or a digest collision is exhibited |
| Verifier.InteriorTamperDetected | apps/api/audit-service/internal/handler/verify.go:69-121 | a verified segment with the first row and last hash of a segment of a verified ledger is that segment, or holds a collision with a ledger row or a row hashing to all zeros |
| Verifier.AcceptsExactlyContiguousRuns | apps/api/audit-service/internal/handler/verify.go:69-121 | of the rows of a sound chain, the verifier accepts exactly the contiguous runs: any interior drop, reorder or repeat is refused |
| Paging.ServeList | apps/api/audit-service/internal/handler/entries.go:51-116 | 400 exactly on a malformed request; otherwise, zero-time bounds ignored, the filtered page after the cursor under the configured limit, and `next` as the last id of the page |
| Paging.PageMeaning | apps/api/audit-service/internal/handler/entries.go:51-116 | in every reachable ledger a page holds only rows of the tenant with the asked action, actor and time beyond the cursor, and leaves such a row out only if it is full and the row comes later |
| Paging.QueryIsSlice | apps/api/audit-service/internal/store/store.go:207-266 | a query over any reachable table is the slice of the matching rows that starts after the cursor |
| Paging.PagesAreExact | apps/api/audit-service/internal/handler/entries.go:82-116 | with any appends committing between fetches, the pages so far are exactly the matching rows between the first and the last cursor |
| Paging.PagingIsComplete | apps/api/audit-service/internal/handler/entries.go:82-116 | a session that ends at its first empty page has returned every matching row beyond its first cursor exactly once and in id order |
| Redaction.RedactSlice | apps/api/audit-service/internal/consumer/consumer.go:256-270 | the slice is overwritten in place with the redaction of what it held |
| Redaction.RedactedAt | apps/api/audit-service/internal/consumer/consumer.go:242-270 | at every path the redacted tree holds nothing if the path passes a forbidden key, and otherwise the redaction of what was there |
| Redaction.RedactedIsClean | apps/api/audit-service/internal/consumer/consumer.go:242-270 | no forbidden key is left at any depth, arrays nested in arrays included |
| Redaction.RedactIdempotent | apps/api/audit-service/internal/consumer/consumer.go:242-270 | redacting twice is redacting once |
| Redaction.ContainsExactly | apps/api/audit-service/internal/consumer/consumer.go:272-303 | containsForbidden answers true exactly when a forbidden key can be reached without stepping from an array into an array |
| Redaction.NestedArraysEscape | apps/api/audit-service/internal/consumer/consumer.go:272-293 | a forbidden key inside an array inside an array goes unnoticed by containsForbidden |
| Redaction.RedactedContainsNothing | apps/api/audit-service/internal/consumer/consumer.go:242-293 | containsForbidden is false of every redacted tree |
| Redaction.Consumer.Handle | apps/api/audit-service/internal/consumer/consumer.go:136-212 | which counter each record bumps and exactly what is submitted to the store |
| Redaction.DecodeExactly | apps/api/audit-service/internal/consumer/consumer.go:172-212 | a record is decoded exactly when it names an action and a tenant, the header's tenant first; every field is the event's own, with actor type "system" and the producer time filled in only where missing |
| Redaction.RedactionNeverRejects | apps/api/audit-service/internal/consumer/consumer.go:136-154 | the redaction-reject branch is unreachable for every record; actor and payload are clean and resource is passed on as it came |
| Lru.LRUDedup.Seen | apps/api/metrics-endpoint/internal/consumer/dedup.go:41-59 | list and index stay in bijection within capacity; true exactly when the key was not listed; the key moves to the front and the oldest is evicted |
| Lru.CacheIsWindow | apps/api/metrics-endpoint/internal/consumer/dedup.go:27-59 | after any history a key is listed exactly when it is among the `capacity` most recently observed distinct keys |
| Lru.NoEviction | apps/api/metrics-endpoint/internal/consumer/dedup.go:41-59 | while no more distinct keys than the capacity were observed, a key is listed exactly when it was observed |
| Lint.CheckForbiddenFields | packages/telemetry/schema-lint/go/lint.go:254-274 | the reported paths are those of all forbidden keys, whatever the map order |
| Lint.WalksAgree | apps/api/metrics-endpoint/internal/aggregator/aggregator.go:379-401 | the aggregator's walk and the linter's walk agree on every JSON tree, and with the existence of a path that ends in a forbidden key |
| Lint.CheckMandatoryFields | packages/telemetry/schema-lint/go/lint.go:225-252 | one issue per required field that is missing or zero, in order, and none exactly when all are filled |
| Lint.FilledMeans | packages/telemetry/schema-lint/go/lint.go:336-348 | a required field counts as missing exactly when it is absent, null or an empty string, list or object |
| Lint.LintEvent | packages/telemetry/schema-lint/go/lint.go:117-149 | no issue exactly when the event meets all rules, and no forbidden-field issue once the aggregator's own walk found nothing |
| Projection.ProjectionWellLabelled | apps/api/metrics-endpoint/internal/aggregator/projection.go:45-232 | every contribution of every event uses registered labels only and carries the four mandatory ones |
| Projection.UsageLabelsExact | apps/api/metrics-endpoint/internal/aggregator/projection.go:45-115 | a usage contribution carries exactly the common labels the event fills, each with the event's own value |
| Projection.RuntimeLabelsExact | apps/api/metrics-endpoint/internal/aggregator/projection.go:119-232 | a runtime contribution carries exactly those labels its metric allows that the event fills, each with the event's own value |
| Projection.ContributionVerdict | packages/telemetry/schema-lint/go/lint.go:151-205 | for an event that passed the event lint, a contribution passes the metric lint exactly when provider, model, tenant and env are strings |
| Projection.UsageTotals | apps/api/metrics-endpoint/internal/aggregator/projection.go:45-115 | a usage event adds to each metric what its own field says, cost divided into dollars, and nothing to any other metric |
| Projection.RuntimeTotals | apps/api/metrics-endpoint/internal/aggregator/projection.go:119-232 | a runtime event adds one request, its tokens and retries, and one failure of the kind its status names |
| Projection.StatusCodeMeans | apps/api/metrics-endpoint/internal/aggregator/projection.go:133-136 | the status_code label spells the numeric field truncated toward zero, and is absent without one |
| Fingerprints.LabelFingerprint | apps/api/metrics-endpoint/internal/aggregator/aggregator.go:344-360 | the loop writes the sorted pairs with NUL between them, independent of map order |
| Fingerprints.FingerprintRoundTrip | apps/api/metrics-endpoint/internal/aggregator/aggregator.go:340-360 | a fingerprint of labels without separators in keys and NUL in values can be decoded to the labels |
| Fingerprints.FingerprintInjective | apps/api/metrics-endpoint/internal/aggregator/aggregator.go:340-360 | such label maps share a fingerprint only when equal |
| Aggregator.Aggregator.Apply | apps/api/metrics-endpoint/internal/aggregator/aggregator.go:163-242 | the whole new state: topic, decode, forbidden, schema, projection and cardinality verdicts in order, then all contributions or none |
| Aggregator.DecideExactly | apps/api/metrics-endpoint/internal/aggregator/aggregator.go:163-218 | for each reject reason, exactly which events get it: unknown topic, undecodable payload, forbidden key at any depth, broken schema, and a known topic that is not counted |
| Aggregator.Aggregator.TakeSnapshot | apps/api/metrics-endpoint/internal/aggregator/aggregator.go:293-338 | the snapshot of the state: labels, sums and counters |
| Aggregator.SnapshotInOrder | apps/api/metrics-endpoint/internal/aggregator/aggregator.go:293-338 | the metrics stand by name and the series of each by fingerprint, in dictionary order, and none is left out |
| Aggregator.OneTick | apps/api/metrics-endpoint/internal/aggregator/aggregator.go:163-264 | each Apply increments exactly one of processed or a single reject reason |
| Aggregator.RejectedLeavesSeries | apps/api/metrics-endpoint/internal/aggregator/aggregator.go:211-242 | if any contribution, even the last, fails the metric lint, no series changes |
| Aggregator.CardinalityVerdict | apps/api/metrics-endpoint/internal/aggregator/aggregator.go:211-218 | for an event past the lint with a contribution, a cardinality rejection happens exactly when a mandatory label field is not a string |
| Aggregator.SeriesAreSums | apps/api/metrics-endpoint/internal/aggregator/aggregator.go:220-242 | after any run a series exists exactly when an accepted contribution lands on it, and holds the float additions, in order of arrival, of all that did under the labels of the first |
| Aggregator.RunCounts | apps/api/metrics-endpoint/internal/aggregator/aggregator.go:163-264 | processed and each reject counter equal the number of events with that outcome |
| OrderIndependence.OrderIndependent | apps/api/metrics-endpoint/internal/aggregator/aggregator.go:220-242 | any two orders of the same events end in the same state when no labels collide and every series has one float sum in every order |
| OrderIndependence.SnapshotFaithful | apps/api/metrics-endpoint/internal/aggregator/aggregator.go:293-338 | equal snapshots come from equal states |
| OrderIndependence.OrderIndependentExactly | apps/api/metrics-endpoint/internal/aggregator/aggregator.go:289-338 | for every float addition: every order of a list of events gives the same snapshot exactly when no two accepted contributions share metric and fingerprint but not labels, and the amounts landing on each series fold to one sum in every order |
| OrderIndependence.WholeOrderFree | apps/api/metrics-endpoint/internal/aggregator/aggregator.go:220-242 | NUL-free label values, and positive whole amounts of at most 2^53 in all on each series, make the snapshot independent of order when addition is exact on that range |
| OrderIndependence.WholeEventsSeries | apps/api/metrics-endpoint/internal/aggregator/projection.go:45-232 | events with whole counts and no cost contribute positive whole amounts only |
| Float64.BinaryExactOnWhole | apps/api/metrics-endpoint/internal/aggregator/aggregator.go:238 | binary64 addition is exact on whole sums up to 2^53 |
| Float64.RoundEvenNearest | apps/api/metrics-endpoint/internal/aggregator/aggregator.go:238 | the rounding of the model goes to the nearest whole multiple, and of two equally near ones to the even one |
| OrderIndependence.NulFreeNoCollision | apps/api/metrics-endpoint/internal/aggregator/aggregator.go:340-360 | events whose label values are free of NUL never collide |
| Collision.CostOrderShows | apps/api/metrics-endpoint/internal/aggregator/projection.go:103-110 | any three costs that float addition sums differently in two orders make two accepted orders of three events show different snapshots, with no collision |
| Collision.CentsOrderShows | apps/api/metrics-endpoint/internal/aggregator/aggregator.go:238 | in binary64 usage events of 10, 20 and 30 cents are such events |
| Collision.OrderShows | apps/api/metrics-endpoint/internal/aggregator/aggregator.go:289-360 | a family of pairs of accepted events with NUL in a label value whose order shows in the snapshot |
| Replay.Consumer.Handle | apps/api/metrics-endpoint/internal/consumer/consumer.go:88-110 | one delivered event: the dedup list, the aggregator and the counters stay those of the delivered log |
| Replay.KeyExactly | apps/api/metrics-endpoint/internal/consumer/consumer.go:101 | two events on topics without a bar, as the contract topics are, share a dedup key exactly when they share topic and event id |
| Replay.Consumer.RunStream | apps/api/metrics-endpoint/internal/consumer/consumer.go:88-110 | the same for a whole stream, consumed plus deduped counting every event |
| Replay.ReplayFirstOrder | apps/api/metrics-endpoint/internal/consumer/consumer.go:88-110 | for every at-least-once stream of identified events, whatever their labels and amounts, the aggregator ends as if each distinct event were applied once in order of first delivery exactly when every redelivery finds its key in the dedup window |
| Replay.ReplayAnyOrderExactly | apps/api/metrics-endpoint/internal/consumer/consumer.go:88-110 | within the window, every order of applying each event once shows the stream's snapshot exactly when no labels collide and every series has one float sum in every order |
| Replay.ReplaySafeExactly | apps/api/metrics-endpoint/internal/consumer/consumer.go:88-110 | for events that do not depend on order, the aggregator ends as if each distinct event were applied once in any order exactly when every redelivery finds its key in the dedup window |
| Replay.ForwardedExactly | apps/api/metrics-endpoint/internal/consumer/consumer.go:88-110 | every event reaches the aggregator, and only once exactly when its redeliveries stay in the window |
| Replay.NoIdForwarded | apps/api/metrics-endpoint/internal/consumer/consumer.go:88-110 | an event without an id bypasses the dedup set: it is always applied and leaves no key |
| Replay.ReplaySafe | apps/api/metrics-endpoint/internal/consumer/consumer.go:88-110 | for any reordering and redelivery, within the dedup capacity, of identified events that do not depend on order, the aggregator ends as if each distinct event were applied once in any order |
| Replay.ReplaySafeWhole | apps/api/metrics-endpoint/internal/consumer/consumer.go:88-110 | in binary64, for streams of whole counts in range with NUL-free label values, the snapshots in any order are equal |
| PromText.PassesAreOne | apps/api/metrics-endpoint/internal/exposition/exposition.go:151-164 | successive ReplaceAll passes equal one character-wise escape, for label values and help texts |
| PromText.WriteSeries | apps/api/metrics-endpoint/internal/exposition/exposition.go:104-133 | the specified line is appended, labels in ascending order |
| PromText.WriteMetricHeader | apps/api/metrics-endpoint/internal/exposition/exposition.go:96-102 | the HELP and TYPE lines are appended |
| PromText.OneLine | apps/api/metrics-endpoint/internal/exposition/exposition.go:96-133 | a written line holds no newline before its terminator |
| PromText.LineRoundTrip | apps/api/metrics-endpoint/internal/exposition/exposition.go:96-164 | a reader of text format 0.0.4 gets back name, label map and value of every line, for every label value and help text, and stops at its end |
| PromText.DocRoundTrip | apps/api/metrics-endpoint/internal/exposition/exposition.go:47-133 | a whole document is read back line for line |
| Exposition.Write | apps/api/metrics-endpoint/internal/exposition/exposition.go:47-94 | the document of all families in snapshot order followed by the self metrics, every reject reason included; what its lines mean is stated by the rows below |
| Exposition.FormatFloatMeans | apps/api/metrics-endpoint/internal/exposition/exposition.go:138-146 | a whole value in the 64-bit range is spelled so that reading the integer gives it back, every other value by %g |
| Exposition.LinesReadBack | apps/api/metrics-endpoint/internal/exposition/exposition.go:47-164 | after every run, a reader of the format gets back exactly the lines written, whatever the label values contain |
| Exposition.ScrapeRoundTrip | apps/api/metrics-endpoint/internal/exposition/exposition.go:47-164 | after every run, what a scraper takes from the document is, series by series and under its labels, every sum of the snapshot, then the count of each reject reason, the events applied and the series held |
| GatewayKey.KeyRoundTrip | apps/gateway/internal/metrics/metrics.go:186-215 | a series line of the registry is read back to the labels observed |
| GatewayKey.KeyInjective | apps/gateway/internal/metrics/metrics.go:186-215 | two label sets share a key exactly when they agree on every field, non-positive status codes counting as none |
| GatewayRegistry.Hist.Observe | apps/gateway/internal/metrics/metrics.go:280-292 | after each observation every bucket counts the values at or below its bound, the last one all of them, and sum and count match |
| GatewayRegistry.AtMostCounts | apps/gateway/internal/metrics/metrics.go:280-292 | a bucket's number is that of the observations at or below its bound, the bound included |
| GatewayRegistry.CountsCumulate | apps/gateway/internal/metrics/metrics.go:280-292 | bucket counts never decrease along the bounds and end in the count |
| GatewayRegistry.Registry.ObserveRequest | apps/gateway/internal/metrics/metrics.go:83-101 | all six counters and the histograms stay those of the log of observed requests; other keys are untouched |
| GatewayRegistry.RequestAdds | apps/gateway/internal/metrics/metrics.go:83-101 | what one request adds to each of the six counters of its key |
| GatewayRegistry.ErrorsAllOrNone | apps/gateway/internal/metrics/metrics.go:83-101 | requests with one key share a status, so its errors are all or none of its requests |
| GatewayRegistry.RegistryConsistent | apps/gateway/internal/metrics/metrics.go:83-101 | per key: requests = histogram count = usage observed + usage unknown, errors all or none, and the buckets measure exactly the key's latencies |
| RegistryProtocol.RegistryAtRest | apps/gateway/internal/metrics/metrics.go:83-101 | for every interleaving of the updates of any requests, once all are through, per key: requests = latencies observed = usage observed + usage unknown, the latencies are exactly those of the key's requests, and errors are all or none |
| RegistryProtocol.Reachable | apps/gateway/internal/metrics/metrics.go:83-101 | at every step of every interleaving each counter and histogram holds exactly the updates made so far |
| RegistryProtocol.EveryRunCanRest | apps/gateway/internal/metrics/metrics.go:83-101 | from every reachable state the requests in progress can all be brought to their end, without new ones |
| CounterProtocol.InvRun | apps/gateway/internal/metrics/metrics.go:228-244 | every interleaving of lookup, re-check, insert and atomic add keeps the lock discipline, distinct cells and the sums |
| CounterProtocol.CellNeverReplaced | apps/gateway/internal/metrics/metrics.go:228-244 | once a key has a cell it keeps that cell in every later state |
| CounterProtocol.EveryInterleaving | apps/gateway/internal/metrics/metrics.go:228-254 | in every reachable state a key reads the 64-bit sum of the finished adds, and the write section excludes all others |
| CounterProtocol.NoDeltaLost | apps/gateway/internal/metrics/metrics.go:228-254 | when no call is in progress a key reads the sum of all deltas ever added to it |
| CounterProtocol.WrapExactly | apps/gateway/internal/metrics/metrics.go:228-254 | a cell reads the one 64-bit two's complement integer congruent to the sum |
| CounterProtocol.SomeoneGoes | apps/gateway/internal/metrics/metrics.go:228-244 | no deadlock: while any call is in progress one of them may go on |
| CounterProtocol.EveryRunCanFinish | apps/gateway/internal/metrics/metrics.go:228-254 | from every reachable state all calls in progress can finish, and each key then reads the 64-bit sum of all deltas added under it |
| CounterProtocol.CallAlone | apps/gateway/internal/metrics/metrics.go:228-244 | a call that finds the mutex free is through after four steps on a known key and eight on a new one, its delta added |
| StreamTap.TappingReader.SampleStreaming | apps/gateway/internal/proxy/streaming.go:152-168 | the framing loop considers exactly the completed lines of buffer plus chunk, keeps the capped rest, and leaves a newline-free buffer of at most 65536 bytes |
| StreamTap.TappingReader.ConsiderLine | apps/gateway/internal/proxy/streaming.go:170-195 | the sink after one line, which lines carry a chunk being stated by StreamTap.PayloadExactly |
| StreamTap.PayloadExactly | apps/gateway/internal/proxy/streaming.go:170-195 | a line carries exactly the trimmed text after its "data:" when that opens with a brace, or itself when it does; blank, comment, event, [DONE] and all other lines carry nothing |
| StreamTap.TappingReader.Read | apps/gateway/internal/proxy/streaming.go:135-145 | after any reads the tap is that of the chunks read; a buffered response keeps exactly its first maxBuf bytes for every cutting |
| StreamTap.TappingReader.FlushTail | apps/gateway/internal/proxy/streaming.go:227-233 | the sink has considered every framed line and the unterminated rest |
| StreamTap.UsageSink.AppendBuffered | apps/gateway/internal/proxy/streaming.go:65-76 | the buffer is the prefix of all bytes given |
| StreamTap.SampleResponse | apps/gateway/internal/proxy/proxy.go:124-156 | what the proxy reports of a response, however it is cut into reads: the first maxBuf bytes of a buffered one; for a stream of lines of at most 65536 bytes, up to 16384 bytes of the chunk of the last line carrying one, and the first model named |
| StreamTap.LastDataLineReported | apps/gateway/internal/proxy/streaming.go:170-195 | a stream whose last chunk line is "data:" and x reports x trimmed, up to 16384 bytes of it |
| StreamTap.LastChunkWins | apps/gateway/internal/proxy/streaming.go:78-86 | the sink ends with up to 16384 bytes of the chunk of the last line that carries one |
| StreamTap.FirstModelWins | apps/gateway/internal/proxy/streaming.go:88-99 | a fresh sink ends with the model of the first line that names one |
| StreamTap.BufferBounded | apps/gateway/internal/proxy/streaming.go:152-168 | for every stream and cutting the accumulator is newline-free and at most 65536 bytes |
| StreamTap.SplitExactly | apps/gateway/internal/proxy/streaming.go:152-168 | splitting cuts a stream at its newlines and nowhere else and loses nothing |
| StreamTap.CapKeepsEnd | apps/gateway/internal/proxy/streaming.go:156-164 | an accumulator over 65536 bytes keeps its last 16384 bytes, any other keeps everything |
| StreamTap.AnyCuttingAgrees | apps/gateway/internal/proxy/streaming.go:152-195 | for every cutting of a stream of lines of at most 65536 bytes, last chunk and first model equal those of splitting the stream once |
| StreamTap.LongChunkDependsOnCutting | apps/gateway/internal/proxy/streaming.go:152-195 | a line longer than 65536 bytes that carries a chunk which its last 16384 bytes do not is sampled when read in one piece and lost when cut before its newline |
| StreamTap.CuttingAgreesExactly | apps/gateway/internal/proxy/streaming.go:152-168 | every cutting frames the lines of the stream split once exactly when no line exceeds 65536 bytes |
| CostMapper.RoundingError | apps/worker/cost-mapper/internal/mapper/mapper.go:154-159 | in exact arithmetic, the rounded cost is within half a cent of the exact one exactly when the latter is not below minus half a cent |
| CostMapper.NearestMinor | apps/worker/cost-mapper/internal/mapper/mapper.go:145-159 | in exact arithmetic, it is the nearest whole number of cents, ties away from zero |
| CostMapper.EstimateAccurate | apps/worker/cost-mapper/internal/mapper/mapper.go:96-145 | in exact arithmetic, an event is priced exactly when identified and in the catalog, and for non-negative rates the cents are within one half of (input tokens times input rate + output tokens times output rate) / 10, negative counts as zero |
| CostMapper.EstimateExactly | apps/worker/cost-mapper/internal/mapper/mapper.go:96-138 | which error comes first, and that an estimate carries the event's own identity and counts and the catalog's version, currency and approximation |
| Reconciler.KeyInjective | apps/worker/cost-mapper/internal/reconciler/reconciler.go:46-54 | where both tenants and providers are colon-free: equal key strings exactly for equal canonical keys and whole-second periods, even when the model contains colons |
| Reconciler.ColonFreeUnambiguous | apps/worker/cost-mapper/internal/reconciler/reconciler.go:46-54 | a key whose tenant, canonical provider and canonical model hold no colon shares its string with no different key, whatever that key holds |
| Reconciler.KeyStandsAlone | apps/worker/cost-mapper/internal/reconciler/reconciler.go:46-54 | where the canonical form leaves alone the pieces of provider and model and the last piece of a tenant with colons, a key shares its string with no different key exactly when its tenant, provider and model hold no colon |
| Reconciler.ColonsCollide | apps/worker/cost-mapper/internal/reconciler/reconciler.go:46-54 | with a colon in tenant or provider two different keys share a string |
| Reconciler.Reconciler.RecordEstimate | apps/worker/cost-mapper/internal/reconciler/reconciler.go:104-124 | the buckets stay those of the log of estimates |
| Reconciler.BucketMeaning | apps/worker/cost-mapper/internal/reconciler/reconciler.go:104-124 | a bucket exists once an estimate names its key, holds the sum of them all, the attribution of the first and the latest version stamp |
| Reconciler.BucketAccurate | apps/worker/cost-mapper/cmd/cost-mapper/main.go:182-230 | in exact arithmetic, for every stream of runtime events, each priced with the catalog in force, under non-negative rates, the bucket fed by its n estimates differs from the cents of tokens times rate, summed over the events of its tenant, provider, model and hour, by at most n/2 |
| Reconciler.RecordedExactly | apps/worker/cost-mapper/cmd/cost-mapper/main.go:182-230 | a gateway or SDK event with tokens, identified, priced and timed, and no other, is recorded under the key its tenant, provider, model and hour spell, with its own attribution, cost and catalog version |
| Reconciler.RedeliveryDoubles | apps/worker/cost-mapper/internal/reconciler/reconciler.go:104-124 | a stream of runtime events delivered twice doubles every bucket and lowers the drift of its row by that amount |
| Reconciler.Reconciler.ApplyReconciled | apps/worker/cost-mapper/internal/reconciler/reconciler.go:131-175 | one row, found by its unique columns, is written from the bucket and the billed cost; a failing store changes nothing |
| Reconciler.RowKeyExact | apps/worker/cost-mapper/internal/reconciler/reconciler.go:131-175 | two reconciliations write one row exactly when they name one tenant, canonical provider and model, and period |
| Reconciler.RowAddsUp | apps/worker/cost-mapper/internal/reconciler/reconciler.go:147-186 | estimated + drift = reconciled exactly when the two zero floors cut the same amount; the ratio times the billed cost is the drift, a cost below one cent counting as one |
| Reconciler.PricedRowAddsUp | apps/worker/cost-mapper/internal/reconciler/reconciler.go:131-175 | with priced estimates and non-negative billed cost the row shows the exact sums, adds up, and carries the first estimate's attribution and the latest version stamp |
| Reconciler.Reconciler.ApplyStream | apps/worker/cost-mapper/cmd/cost-mapper/main.go:245-290 | a stream of reconciled records appends their upserts, in order, to those before |
| Reconciler.ReplayRewrites | apps/worker/cost-mapper/internal/reconciler/reconciler.go:126-175 | after any upserts, applying a run of reconciled events a second time leaves every row as the first time left it |
| Reconciler.ReplayStream | apps/worker/cost-mapper/internal/reconciler/reconciler.go:126-175 | the same of the object: delivering a stream again changes no row |
| PolicyStore.InvNext | apps/api/policy-service/internal/store/store.go:69-286 | every step of every create, append, delete and read, and every abort, keeps the store invariant |
| PolicyStore.VersionsExact | apps/api/policy-service/internal/store/store.go:69-179 | in every reachable state the versions of a policy are exactly 1 to current_version, each once, and no two policies of a tenant share a name |
| PolicyStore.VersionsImmutable | apps/api/policy-service/internal/store/store.go:122-179 | committed version rows never change or disappear |
| PolicyStore.DeletedGainsNone | apps/api/policy-service/internal/store/store.go:251-267 | a deleted policy keeps its row and gains no version, whatever was in progress |
| PolicyStore.RowsWereAskedFor | apps/api/policy-service/internal/store/store.go:69-179 | every version row and header in every reachable store is exactly what some caller asked for, under the tenant and policy it was asked for |
| PolicyStore.CurrentPairMatches | apps/api/policy-service/internal/store/store.go:183-219 | the two separate reads of GetCurrent always return a header and the version it points to |
| PolicyStore.CreateAlone | apps/api/policy-service/internal/store/store.go:69-120 | a create under a new name, run alone from any reachable state, adds a live header at version 1 and that version under a new id, and nothing else |
| PolicyStore.CreateConflicts | apps/api/policy-service/internal/store/store.go:69-120 | a create under a name the tenant has used, deleted or not, ends in a conflict and changes no row |
| PolicyStore.AppendAlone | apps/api/policy-service/internal/store/store.go:122-179 | an append to a live unlocked policy adds the next version, moves the header to it, changes nothing else and releases the lock |
| PolicyStore.GetAlone | apps/api/policy-service/internal/store/store.go:183-219 | a get of a live policy returns its header and the committed version the header names |
| PolicyStore.NotLive | apps/api/policy-service/internal/store/store.go:122-219 | an append to or a get of a deleted, foreign or unknown policy finds nothing and changes nothing |
| PolicyStore.DeleteAlone | apps/api/policy-service/internal/store/store.go:251-267 | a delete hides an unlocked live policy from every later append and get; its row, versions and name stay |

## Left out

- Kafka clients, consumer groups and offsets: a stream is the sequence of events it delivers.
- SQL text, pgx, row-level security and migrations: tables are sequences or maps of rows, under the isolation and lock rules stated above. What a UUID or JSONB column returns is a parameter; a value it refuses is an abort.
- The olm-audit command line, which copies the hasher and the verify loop.
- HTTP plumbing, wire converters, single-entry lookup and the time-range stream of the audit service: one branch each.
- SHA-256, base64, time formatting, letter case, whitespace trimming and JSON decoding, which are parameters.
- IEEE floating point outside the rollup's sums and its division of cents: latencies and the cost mapper's arithmetic are exact reals, and fractional values are opaque lexemes in text; infinities and results outside the normal range are not modelled. The encoder's fallback for values that JSON decoding never produces and invalid UTF-8 are not modelled.
- Integer widths other than the gateway counter's: ids, counts, versions and cents are unbounded, and a status code beyond the 64-bit range is not modelled. A sum beyond it counts as not whole when rendered, as the conversion on amd64 makes it.
- Aggregator.Aggregator.TakeSnapshot: the type and description of a metric are looked up when rendering, as a parameter; Reset and SeriesCount are easy and omitted.
- GatewayRegistry.Registry.ObserveRequest: one request at a time (RegistryProtocol interleaves them, taking each counter update as one step, which is what CounterProtocol shows); each counter is the map of its values, and bus-publish counters are omitted.
- Redaction.RedactSlice: updates one slice in place; aliasing between nested slices of one decoded event is not modelled.
- CostMapper.EstimateAccurate: some envelope fields that are copied through, the clock reading, float rounding of the cost and a catalog reload between lookup and version are not modelled.
- CostMapper.RoundingError: exact arithmetic; the source multiplies by 100 in float64 before rounding, which can move a near tie.
- CostMapper.NearestMinor: exact arithmetic, likewise.
- Reconciler.BucketAccurate: exact arithmetic, likewise.
- Reconciler.Reconciler.ApplyStream: every upsert of the stream succeeds.
- Reconciler.Reconciler.ApplyReconciled: runs to completion; the source reads the bucket's fields after releasing its lock, so an estimate recorded meanwhile may show in part.
- Lint.CheckForbiddenFields: states which paths are reported, not how often; two keys can spell one path when a key contains a dot.
- StreamTap.TappingReader.Read: the bytes passed on to the client are the source's own and are not modelled; the content-type test is omitted.
- PolicyStore.InvNext: list operations, timestamps and validation findings are omitted.
- Writer errors in the exposition, provider usage parsers, catalog loading, the ingesters, the collector, SDKs, the admin console and generators.
