# Cold-chain compliance core, modelled in Dafny

This project models the server-side core of a cold-chain compliance application, built on
the Convex backend. Temperature readings for shipments come in as CSV text or JSON. They are
normalised into rows, and each row is inserted as a reading. A detection pass then evaluates
each shipment's series against the shipment's food or pharma policy. Each new violation
becomes an excursion with one audit-log entry, and the shipment's risk score is recomputed
from all of its excursions.

Around this pipeline sit:
- an audit-log CSV export;
- the company slug rule;
- policy create and update;
- the read-side queries behind the dashboard, the policy list and the shipment list.

Modules follow the source files:

| module | source |
|---|---|
| `Engine` | `convex/policies/engine.ts` |
| `Scoring` | `convex/risk/scoring.ts` |
| `Detect` | `convex/excursions/detect.ts` |
| `RiskMutations` | `convex/risk/mutations.ts` |
| `Audit` | `convex/audit.ts` |
| `Ingest` | `convex/ingestion/mutations.ts` |
| `Parse` | `convex/ingestion/parse.ts` |
| `Export` | `convex/export.ts` |
| `Companies` | `convex/companies.ts` |
| `Dashboard` | `convex/dashboard.ts` |
| `PolicyQueries` | `convex/policies/queries.ts` |
| `PolicyMutations` | `convex/policies/mutations.ts` |
| `Shipments` | `convex/shipments.ts` |

Shared modules:
- `Types`: the rows of `lib/types.ts` and `convex/schema.ts`.
- `Store`: the Convex database as a class `Db`. It holds one `seq` per table, the id counter
  and the scheduler's task queue. `Db.Valid()` says that ids are fresh and increasing.
- `Sorting`: a stable sort by an integer key, which stands for `Array.prototype.sort` and for
  index order.
- `Seqs` and `Text`: sequence and string helpers with their own lemmas.
- `Wrappers`: `Option`, `Result` and `Outcome`.

Flavour:
- Pure code is modelled as functions and lemmas: the rule evaluator's specification, the
  scorer, the parser's row logic, the CSV serialiser, the slug rule and the queries.
- Code that loops or writes is modelled as methods. Each method is proved equal to a
  specification function, or its new store state is stated outright:
  - `Engine.EvaluatePolicy`, with its two scans;
  - the parser's loops;
  - `Detect.RunForShipment`;
  - `Ingest.IngestReadings`;
  - `RiskMutations.ComputeAndPersist`;
  - the audit, company and policy writes.

JavaScript built-ins are parameters of the model:
- `Date.parse`, `parseFloat`, `String(number)` and `Date.now` are fields of `Parse.Runtime`;
- `toISOString` is an `iso` function;
- the local midnight in `kpis` is `todayMs`;
- a mutation's `Date.now()` is a `now` argument.

Where the code differs from its own comments or evident intent, the model follows the code:
- Detection is commented as idempotent by shipment and `startTime` window (convex/excursions/detect.ts:3, 39), but it looks for an earlier excursion by `detectedAt` within 60 s of the violation's
  `startTime`, not by `startTime`. Re-running detection at a later time therefore inserts
  the same violation again (`Detect.RerunDuplicates`).
- The JSON parser's guard `tsRaw === undefined && tsRaw === null` is never true. An item
  without a timestamp is therefore kept (`Parse.JsonMissingTimestamp`).
- The dashboard counts an excursion as open when `resolvedAt` is absent or `0` (`!e.resolvedAt`).

## Model

| member | source | states |
|---|---|---|
| Engine.GetRules | convex/policies/engine.ts:10-29 | Each rule comes from the explicit rules when supplied. Otherwise it takes the type default: food 2/8/30/3 with frozen max −18, pharma 2/8/15/2 with no frozen max. |
| Engine.EffectiveParams | convex/policies/engine.ts:40-53 | The lower bound is disabled exactly when a frozen maximum is in force and the earliest reading is below 0. The upper bound is then the frozen maximum. Otherwise the bounds are the rule's min and max, and the duration and repeat limits fall back to 15/2 (pharma) or 30/3 (food). |
| Engine.SeverityFromTemp | convex/policies/engine.ts:145-162 | The grade is `low` exactly when the temperature is in range. Above the max, the grade is `critical` from 5 degrees over, `high` from 3 up to 5 degrees over, and `medium` below 3 degrees over. Below a defined min (and not above the max), it is `critical` from 5 degrees under, `high` from 2 up to 5 degrees under, and `medium` below 2 degrees under. |
| Engine.SeverityRank | convex/policies/engine.ts:164-171 | The rank is at most 3. |
| Engine.SeverityRankStrict | convex/policies/engine.ts:164-171 | The rank is injective and strictly increasing: low < medium < high < critical. |
| Engine.SeverityMonotoneAbove | convex/policies/engine.ts:151-155 | Above the max, a hotter reading never gets a lower grade. |
| Engine.SeverityMonotoneBelow | convex/policies/engine.ts:156-160 | Below the min, a colder reading never gets a lower grade. |
| Engine.SortByTimeFacts | convex/policies/engine.ts:48 | The sorted copy is ordered by timestamp and is a permutation of the input. An already sorted series is returned unchanged, so the caller's order is never disturbed. |
| Engine.RunStart | convex/policies/engine.ts:65-69 | The start of the current run is the first reading of a maximal block of out-of-range readings that ends at the given position. |
| Engine.ClosedRuns | convex/policies/engine.ts:60-95 | Every run closed by an in-range reading before position n is non-empty and ends before n. |
| Engine.ClosedRunsShape | convex/policies/engine.ts:60-95 | Those runs are maximal out-of-range blocks that end before n, in increasing and disjoint order. |
| Engine.ClosedRunsBefore | convex/policies/engine.ts:66-67 | Every closed run ends before the start of the run still open. |
| Engine.WorstSpec | convex/policies/engine.ts:72-73 | The run's severity is the highest-ranked per-reading grade in the run, and it is attained by some reading. |
| Engine.ExtendRun | convex/policies/engine.ts:70-74 | Taking one more out-of-range reading into the open run keeps the tracked peak and severity equal to the run's extreme temperature and worst grade. |
| Engine.RunViolation | convex/policies/engine.ts:76-108 | A violation for one run: its start is the run's first timestamp and its end is the run's end, with the duration in minutes between them. The kind is `duration` exactly when the duration exceeds the limit; a duration violation is `high` for pharma and `medium` for food, any other kind has the run's worst grade. The kind is `threshold_high` when the peak is above the max, `ruleViolated` is the kind's name, and the temperature is the peak. |
| Engine.RunViolations | convex/policies/engine.ts:60-109 | One violation per run. |
| Engine.Spikes | convex/policies/engine.ts:115-128 | No more spikes than closed runs. |
| Engine.RunViolationsAppend | convex/policies/engine.ts:76-90 | Closing one more run appends exactly that run's violation. |
| Engine.CloseAtReading | convex/policies/engine.ts:76-93 | The violation pushed when an in-range reading closes a run equals the run's specification violation. |
| Engine.CloseAtEnd | convex/policies/engine.ts:96-109 | The violation pushed for a run still open after the last reading equals the run's specification violation. |
| Engine.SpikesAppend | convex/policies/engine.ts:122-126 | Closing one more run appends a spike exactly when it lasted at most 5 minutes. |
| Engine.ScanThresholds | convex/policies/engine.ts:55-109 | The first scan returns exactly the threshold and duration violations of the maximal runs. |
| Engine.ScanSpikes | convex/policies/engine.ts:111-128 | The second scan returns exactly the spikes of the closed runs. |
| Engine.EvaluatePolicy | convex/policies/engine.ts:35-143 | `evaluatePolicy` equals the specification `Evaluate`. It is an error only when there are no spikes and the repeated count is at most 0, because the code then reads `minorSpikes[0]`. |
| Engine.EvaluateEmpty | convex/policies/engine.ts:129-131 | An empty series gives no violations when the repeated count is positive. |
| Engine.InRangeNoClosedRuns | convex/policies/engine.ts:60-95 | A series with every reading in range closes no run. |
| Engine.EvaluateAllInRange | convex/policies/engine.ts:60-140 | A series entirely within the effective bounds gives no violation of any kind. |
| Engine.RunsCover | convex/policies/engine.ts:60-95 | Every out-of-range reading lies in a closed run or in the run still open. |
| Engine.AllRunsExact | convex/policies/engine.ts:60-109 | The runs reported are exactly the maximal out-of-range blocks, in increasing and non-overlapping order, and they cover every out-of-range reading. |
| Engine.ThresholdViolationsOrdered | convex/policies/engine.ts:60-109 | On a time-sorted series each violation starts no later than it ends, and each one ends no later than the next one starts. |
| Engine.ThresholdViolationsClassified | convex/policies/engine.ts:78-107 | Every run violation has `ruleViolated` equal to its kind. It is `duration` exactly past the limit, with the type's duration severity, and is otherwise `threshold_high`/`threshold_low`. Its severity is never `low`, and it carries a temperature. |
| Engine.PeakOfHighRun | convex/policies/engine.ts:68-71 | For a run above the max, the peak is the run's maximum temperature. |
| Engine.PeakOfLowRun | convex/policies/engine.ts:68-71 | For a run below the min, the peak is the run's minimum temperature. |
| Engine.HighRunViolation | convex/policies/engine.ts:79-89 | A run above the max is reported as `threshold_high` or `duration`, and its temperature is the run's maximum. |
| Engine.LowRunViolation | convex/policies/engine.ts:79-89 | A run below the min is reported as `threshold_low` or `duration`, and its temperature is the run's minimum. |
| Engine.EvaluateRepeatedMinor | convex/policies/engine.ts:111-140 | There is at most one `repeated_minor` violation and it is last. It appears exactly when the number of closed short spikes reaches the repeated count. It runs from the first spike's start to the last spike's end, has severity `medium` (pharma) or `low` (food), and has no temperature. |
| Engine.ScenarioRuns | convex/policies/engine.ts:60-128 | On a worked food series with one hour at 12°C there is one run and no spike. |
| Engine.ScenarioViolation | convex/policies/engine.ts:76-90 | That run is a 60-minute `duration` violation of severity `medium`, peak 12°C. |
| Engine.FoodDurationScenario | convex/policies/engine.ts:35-143 | The worked series evaluates to exactly that single violation. |
| Scoring.ComputeRiskScore | convex/risk/scoring.ts:50-51 | The band is `high` exactly at 65 and above, `medium` exactly from 35 to 64, and `low` below 35. |
| Scoring.ScoreEmpty | convex/risk/scoring.ts:25-27 | No excursions give `low`, 10 and no factors. |
| Scoring.ScoreIsCappedSum | convex/risk/scoring.ts:42-48 | The value is the severity floor plus the bonuses, capped at 100. |
| Scoring.ScoreBounds | convex/risk/scoring.ts:42-48 | A non-empty list scores between 15 and 100. |
| Scoring.ScoreFloors | convex/risk/scoring.ts:43-45 | Any critical gives at least 85 and `high`. Any high gives at least 65 and `high`. Any medium gives at least 45 and not `low`. |
| Scoring.FactorsExact | convex/risk/scoring.ts:33-40 | Each factor is present exactly under its condition. `duration` needs total duration above twice the type threshold. `repeated_violations` needs at least 3 (food) or 2 (pharma) `repeated_minor` excursions. The two severity factors need a critical or a high excursion, and `multiple_excursions` needs more than one excursion. |
| Scoring.FactorsMembers | convex/risk/scoring.ts:36-40 | A factor is in the pushed list exactly when its condition held. |
| Scoring.PushedOrdered | convex/risk/scoring.ts:36-40 | The pushed factors follow the fixed order, each at most once. |
| Scoring.FactorsOrdered | convex/risk/scoring.ts:36-40 | The factor list is in the fixed order duration, repeated_violations, critical_severity, high_severity, multiple_excursions, with no repeats. |
| Scoring.AppendTotals | convex/risk/scoring.ts:29-34 | Appending an excursion adds its duration to the total, never lowers the repeated count, and keeps every severity already present. |
| Scoring.ScoreMonotone | convex/risk/scoring.ts:29-48 | With a non-negative duration, appending an excursion to a non-empty list never lowers the score. |
| Detect.ShipmentReadings | convex/excursions/detect.ts:25-29 | The index query returns only the shipment's readings. |
| Detect.FindReadingAt | convex/excursions/detect.ts:48 | Returns the id of the first reading with the violation's start time, or nothing when no reading has it. |
| Store.Db.InsertExcursion | convex/excursions/detect.ts:49-59 | One excursion document is appended with a fresh id, and nothing else changes. |
| Store.Db.Schedule | convex/excursions/detect.ts:69-83 | `ctx.scheduler.runAfter(0, ...)` appends one task to the queue and changes nothing else. |
| Detect.InsertViolation | convex/excursions/detect.ts:38-78 | One loop iteration equals the specification step. If an excursion of the shipment was detected within ±60000 ms of the start time, nothing is written. Otherwise it writes one excursion, one `excursion_detected` audit entry and one explanation task. |
| Detect.InsertViolations | convex/excursions/detect.ts:38-79 | The loop equals the specification fold over the violations. |
| Detect.RunForShipment | convex/excursions/detect.ts:13-86 | The handler equals the specification `Detection`. A missing shipment or a missing or inactive policy leaves the store unchanged. Otherwise it runs the loop and queues one risk recompute. |
| Detect.ActivePass | convex/excursions/detect.ts:30-85 | With an active policy: an evaluation error fails and writes nothing. Otherwise the store ends as the specification loop over the violations left it, with one risk recompute queued after. |
| Detect.DetectedAfterInserts | convex/excursions/detect.ts:40-46 | After inserts, the window lookup also sees excursions written earlier in the same pass. |
| Detect.LoopClosedForm | convex/excursions/detect.ts:38-79 | The pass inserts exactly the admitted violations, in order, and each one's lookup includes the earlier inserts. |
| Detect.AdmittedSubseq | convex/excursions/detect.ts:38-46 | The inserted violations are a subsequence of the evaluated ones, so there are no more of them. |
| Detect.LoopEffect | convex/excursions/detect.ts:38-79 | Existing excursions, audit entries and tasks are kept as a prefix, and at most one excursion is added per violation. Each new excursion carries the shipment, the shipment's policy and `detectedAt = now`. It is paired with one audit entry with the same rule and severity, and with one explanation task for that entry. |
| Detect.ActivePassEffect | convex/excursions/detect.ts:81-83 | An active pass queues exactly one risk recompute after the per-excursion tasks, even when nothing was inserted. |
| Detect.DetectionEffect | convex/excursions/detect.ts:19-83 | An inactive or missing policy, or a missing shipment, changes nothing. An active pass keeps the prefix and ends with one risk recompute. |
| Detect.RerunDuplicates | convex/excursions/detect.ts:40-46 | Because the window is on `detectedAt`, a second pass an hour later inserts the same violation again. |
| RiskMutations.PolicyTypeOf | convex/risk/mutations.ts:18-19 | The policy's type, or `food` when the policy is missing. |
| RiskMutations.LatestFor | convex/risk/mutations.ts:36-40 | The row found is the shipment's last row in index order, or nothing when the shipment has none. |
| RiskMutations.UpsertExisting | convex/risk/mutations.ts:42-48 | With a row present, only that row changes: score, value, factors and `computedAt`. Its `aiSummary`, id, the other rows and the row count stay. |
| RiskMutations.UpsertNew | convex/risk/mutations.ts:49-57 | With no row, exactly one row for the shipment is appended, and it is the shipment's only row. |
| RiskMutations.UpsertStoresResult | convex/risk/mutations.ts:36-57 | Afterwards the shipment's row holds the computed result and `now`. |
| RiskMutations.LatestUnique | convex/risk/mutations.ts:36-40 | The last row for the shipment is the one the lookup finds. |
| RiskMutations.UpsertRerun | convex/risk/mutations.ts:26-57 | A second run with the same result adds no row and changes only `computedAt`. |
| RiskMutations.ComputeAndPersist | convex/risk/mutations.ts:14-59 | A missing shipment changes nothing. Otherwise the table is upserted with `computeRiskScore` over all the shipment's excursions and its policy type. The id counter moves by one exactly when a new row is inserted. |
| Audit.CreateAuditLog | convex/audit.ts:17-43 | Appends exactly one entry equal to the arguments and returns its fresh id; earlier entries are unchanged. |
| Audit.PatchOnlyExplanation | convex/audit.ts:46-56 | A patch changes only `aiExplanation` of the target entry. The length and every other field and entry stay the same. |
| Audit.PatchIdempotent | convex/audit.ts:53 | Patching the same text twice equals patching once. |
| Audit.PatchAuditExplanation | convex/audit.ts:46-56 | The patch succeeds exactly when the entry exists, and then applies the single-field patch. A missing entry fails and changes nothing. |
| Ingest.KeysDistinct | convex/ingestion/mutations.ts:59-61 | The keys of `byShipment` are distinct. |
| Ingest.KeysMembers | convex/ingestion/mutations.ts:59-61 | A shipment id is a key exactly when some row carries it. |
| Ingest.FindShipmentSpec | convex/ingestion/mutations.ts:43-46 | The `by_shipment_id` lookup returns the first shipment with the id, or nothing when there is none. |
| Ingest.NewShipments | convex/ingestion/mutations.ts:40-58 | No more shipments are created than there are rows. |
| Ingest.FindShipmentAppend | convex/ingestion/mutations.ts:43-56 | Inserting a shipment does not change an existing lookup, and it makes a missing id resolve to the new document. |
| Ingest.GroupAppend | convex/ingestion/mutations.ts:59-60 | A row is pushed onto its own shipment's group only. |
| Ingest.NewReadingsAppend | convex/ingestion/mutations.ts:66-73 | Each row adds one reading with its timestamp, temperature and source and its shipment's document id. |
| Ingest.ResolveByInsert | convex/ingestion/mutations.ts:47-57 | A freshly inserted shipment keeps every earlier resolution valid. |
| Ingest.NewShipmentsStep | convex/ingestion/mutations.ts:40-58 | A row creates a shipment exactly when its id has no shipment yet. |
| Ingest.KeysStep | convex/ingestion/mutations.ts:59 | A new key is added in order of first appearance. |
| Ingest.ConcatPermutes | convex/ingestion/mutations.ts:64-75 | Walking the groups in key order visits the rows with those keys, each once. |
| Ingest.GroupedPermutes | convex/ingestion/mutations.ts:64-75 | The grouped rows are a permutation of the input rows. |
| Ingest.FindShipmentPrefix | convex/ingestion/mutations.ts:43-48 | Later inserts do not change a lookup that already succeeded. |
| Ingest.NewShipmentsShape | convex/ingestion/mutations.ts:50-55 | Created shipments get consecutive fresh ids and the arguments' facility and policy. |
| Ingest.NewShipmentsNew | convex/ingestion/mutations.ts:42-57 | A shipment is created only for an id with no existing shipment, and at most once per id. |
| Ingest.NewShipmentsResolve | convex/ingestion/mutations.ts:40-58 | Afterwards every row's shipment id resolves. |
| Ingest.NewShipmentFirstRow | convex/ingestion/mutations.ts:50-55 | A created shipment takes the product type of the first row with its id. |
| Ingest.ResolvedDistinct | convex/ingestion/mutations.ts:63-75 | Distinct keys resolve to distinct document ids. |
| Ingest.IngestDetectsEachOnce | convex/ingestion/mutations.ts:74-79 | One detection per distinct shipment id, with no document id repeated. |
| Ingest.ResolvedSeen | convex/ingestion/mutations.ts:42 | A row whose id is already mapped keeps the mapping valid. |
| Ingest.ResolvedFound | convex/ingestion/mutations.ts:47-48 | An existing shipment is reused. |
| Ingest.ResolvedInserted | convex/ingestion/mutations.ts:49-57 | A new shipment is mapped to its new id. |
| Ingest.ResolveRow | convex/ingestion/mutations.ts:41-58 | One iteration of the first loop keeps the store equal to the specification's created shipments and keeps the id map valid. |
| Ingest.Collect | convex/ingestion/mutations.ts:59-60 | One iteration keeps the keys and groups equal to the grouping of the rows seen. |
| Ingest.ResolveShipments | convex/ingestion/mutations.ts:40-61 | The first loop creates exactly the specification's new shipments and maps every row's id. |
| Ingest.InsertGroup | convex/ingestion/mutations.ts:66-73 | The inner loop inserts one reading per row of the group. |
| Ingest.InsertReadings | convex/ingestion/mutations.ts:63-75 | The second loop inserts the grouped rows' readings and collects one document id per key. |
| Ingest.QueueDetections | convex/ingestion/mutations.ts:77-79 | One detection task per collected id, in order. |
| Ingest.IngestReadings | convex/ingestion/mutations.ts:35-81 | The shipments gain exactly the new ones, existing shipments are reused unchanged, and the readings gain one per row. Detection is queued once per distinct id, in order of first appearance. An empty batch changes nothing. |
| Parse.DigitRun | convex/ingestion/parse.ts:83 | The leading decimal digits that `parseInt` reads. |
| Parse.ToMillisStable | convex/ingestion/parse.ts:84 | The seconds-to-milliseconds rule is idempotent on values that are already milliseconds. |
| Parse.NormalizeDigits | convex/ingestion/parse.ts:80-85 | A text `Date.parse` rejects but that starts with digits becomes that number, times 1000 below 1e12. |
| Parse.DigitRunExact | convex/ingestion/parse.ts:83 | The digit run ends exactly at the first non-digit. |
| Parse.NormalizeHeaders | convex/ingestion/parse.ts:21 | Each header is normalised in place. |
| Parse.TrimAll | convex/ingestion/parse.ts:24 | Each value is trimmed in place. |
| Parse.NormalizeHeaderSpec | convex/ingestion/parse.ts:21 | A normalised header has no whitespace and no upper-case letter, and normalising twice changes nothing. |
| Parse.NoUpperAfterReplace | convex/ingestion/parse.ts:21 | Replacing whitespace runs by `_` keeps a lower-case string lower-case. |
| Parse.RecordLastWins | convex/ingestion/parse.ts:26-28 | For a repeated header, the last column's value wins, and a missing value is "". |
| Parse.RecordKeys | convex/ingestion/parse.ts:26-28 | The record's keys are exactly the header names. |
| Parse.RowFromRecord | convex/ingestion/parse.ts:29-45 | A kept row carries the source and a non-empty product type. |
| Parse.BuildRecord | convex/ingestion/parse.ts:25-28 | The `forEach` fills exactly the record of header and values. |
| Parse.ParseLines | convex/ingestion/parse.ts:23-46 | The line loop keeps exactly the rows its lines yield, in order. |
| Parse.ParseCSV | convex/ingestion/parse.ts:18-48 | `parseCSV` equals the specification `ParseCsv`. |
| Parse.JsonRowOf | convex/ingestion/parse.ts:57-75 | A kept item carries the source and a non-empty product type. |
| Parse.ParseJSON | convex/ingestion/parse.ts:53-78 | `parseJSON` equals the specification `ParseJson`. |
| Parse.UpperTrimmedCanonical | convex/ingestion/parse.ts:39 | Upper-casing a trimmed non-empty id gives a canonical id. |
| Parse.CsvRowShape | convex/ingestion/parse.ts:29-45 | A kept CSV row has a non-empty, trimmed, upper-cased shipment id and a trimmed non-empty product type. |
| Parse.CsvRowKept | convex/ingestion/parse.ts:34-37 | A CSV row is kept exactly when id, timestamp and temperature are non-empty and the temperature parses. The id is then upper-cased and the temperature is the parsed value. |
| Parse.PickAbsent | convex/ingestion/parse.ts:29-31 | With no alias present, the fallback chain yields its default. |
| Parse.CsvMissingColumn | convex/ingestion/parse.ts:29-34 | A header with no id column, no timestamp column or no temperature column keeps no line. |
| Parse.TrimUnknown | convex/ingestion/parse.ts:32 | The default product type survives trimming. |
| Parse.CsvProductDefault | convex/ingestion/parse.ts:32-42 | The product type is the trimmed product field, or "unknown" when it is blank or no product column exists. |
| Parse.CsvSingleLine | convex/ingestion/parse.ts:19-20 | A trimmed text with fewer than two lines gives no rows. |
| Parse.JsonFieldsTrimmed | convex/ingestion/parse.ts:59-62 | The JSON shipment id and product type are trimmed. |
| Parse.JsonRowShape | convex/ingestion/parse.ts:57-72 | A kept JSON row has a canonical shipment id and a trimmed non-empty product type. |
| Parse.JsonRowKept | convex/ingestion/parse.ts:57-67 | A JSON item is kept exactly when it is a truthy object with a non-empty id and a temperature that parses. |
| Parse.JsonMissingTimestamp | convex/ingestion/parse.ts:60-65 | An item without any timestamp field is still kept, and it gets `normalizeTimestamp("undefined")`. |
| Parse.JsonNumberMatchesText | convex/ingestion/parse.ts:65 | A numeric timestamp follows the same seconds-to-milliseconds rule as a digit string. |
| Parse.JsonSingleValue | convex/ingestion/parse.ts:54 | A non-array input is parsed as a one-element list. |
| Parse.CsvLinesRows | convex/ingestion/parse.ts:23-46 | There are no more rows than data lines. Each row comes from one line, in line order, and every line that yields a row is represented. Every row has a canonical shipment id, a trimmed non-empty product type and the source. |
| Parse.ParseJsonRows | convex/ingestion/parse.ts:54-77 | The same for JSON items: no more rows than items, item order kept, and every row well formed. |
| Export.ProjectAll | convex/export.ts:37-44 | Each selected entry is projected to the six exported fields. |
| Export.ExportRange | convex/export.ts:34-44 | Exactly the entries with start ≤ timestamp ≤ end are selected, in store order, and then projected. |
| Export.Escape | convex/export.ts:65 | Doubling quotes never shortens a field. |
| Export.EscapeCons | convex/export.ts:65 | Each `"` becomes `""` and every other character is kept. |
| Export.UndoubleEscape | convex/export.ts:65 | Replacing `""` with `"` undoes the escaping. |
| Export.UnquoteQuote | convex/export.ts:65 | Removing the outer quotes and undoubling recovers the field. |
| Export.EscapePaired | convex/export.ts:65 | Between the wrapping quotes every `"` is part of a doubled pair. |
| Export.PairedIsEscaped | convex/export.ts:65 | Every text made of doubled pairs is the escaping of its undoubled form. |
| Export.CellsOf | convex/export.ts:65 | A record has five quoted fields after the time, with an absent field written as "". |
| Export.CellsAll | convex/export.ts:64-66 | One record per selected entry, in order. |
| Export.RenderAll | convex/export.ts:64-66 | One rendered line per selected entry, in order. |
| Export.ClosingEscape | convex/export.ts:65 | The reader finds the closing quote of an escaped field and returns the field. |
| Export.QuotedThenQuote | convex/export.ts:65 | The reader reads back a quoted field followed by its separator. |
| Export.UntilPrefix | convex/export.ts:65 | The reader reads back the unquoted time cell up to its comma. |
| Export.ReadQuotedCellsRender | convex/export.ts:65 | The reader reads back the five quoted cells, the last ending with "\n". |
| Export.ReadRender | convex/export.ts:65 | One rendered line reads back as its cells. |
| Export.ReadRenderAll | convex/export.ts:64-67 | The joined lines read back as the list of records. |
| Export.ExportRoundTrip | convex/export.ts:49-69 | An RFC 4180 style reader, applied to the exported text, returns exactly the selected entries' cells, in order. This assumes ISO times contain no comma. |
| Export.ExportHeader | convex/export.ts:63-67 | The output starts with the fixed header line, and with no entry in range it is just that line. |
| Companies.SlugFromName | convex/companies.ts:4-10 | A slug contains only `a-z`, `0-9` and `-`, and is no longer than the name. |
| Companies.SlugPlain | convex/companies.ts:9 | A slug has no whitespace and no upper-case letter. |
| Companies.SlugIdempotent | convex/companies.ts:4-10 | The slug of a slug is itself. |
| Companies.SlugOfWord | convex/companies.ts:4-10 | A single word with no whitespace whose lower-case form uses only slug characters has that lower-case form as its slug. |
| Companies.SlugSpaces | convex/companies.ts:5-8 | Surrounding whitespace is dropped, and a whitespace run between two words becomes one `-`. |
| Companies.SlugOrDefault | convex/companies.ts:17 | The slug, or "company" when the slug is empty. It is never empty. |
| Companies.Base36Slug | convex/companies.ts:24 | `toString(36)` gives a non-empty numeral of slug characters without `-`. |
| Companies.Base36RoundTrip | convex/companies.ts:24 | The numeral reads back as the number, so distinct times give distinct suffixes. |
| Companies.StoredSlug | convex/companies.ts:17-24 | The stored slug is a non-empty slug. |
| Companies.StoredSlugCases | convex/companies.ts:17-31 | A free slug is stored as is and stays unique. A taken one gets "-" and the base-36 time. |
| Companies.SuffixNotRechecked | convex/companies.ts:22-24 | The suffixed slug is not looked up again: for every name, when its slug and the slug with the time suffix are both taken, the new company is stored under a taken slug. |
| Companies.FirstWithSlug | convex/companies.ts:18-21 | The `by_slug` lookup finds a company exactly when some company holds the slug. |
| Store.Db.InsertCompany | convex/companies.ts:32-36 | One company document is appended with a fresh id. |
| Companies.CreateCompany | convex/companies.ts:16-37 | Inserts one company with the trimmed name, the stored slug and `createdAt = now`. |
| Dashboard.IdsOf | convex/dashboard.ts:19 | The document ids of the shipments, in order. |
| Dashboard.KpisCount | convex/dashboard.ts:17-44 | `totalShipments` counts the selected shipments, which is all shipments without a type. The open-excursion count, the high-risk count and the audit-events-today count each count exactly the matching entries. |
| Dashboard.KpisAuditIgnoresType | convex/dashboard.ts:32-36 | The audit count does not depend on the policy type. |
| Dashboard.KpisOpenPartition | convex/dashboard.ts:27 | The open and closed excursions of the selected shipments add up to all of their excursions. |
| Dashboard.KpisShipmentsSplit | convex/dashboard.ts:18-24 | When every shipment's policy exists, the food and pharma shipment counts add up to the total. |
| Dashboard.ReadingViews | convex/dashboard.ts:68 | Each reading is projected to id, timestamp, temperature and shipment. |
| Dashboard.RecentReadingsUnfiltered | convex/dashboard.ts:70-72 | At most `limit` readings, newest first, all drawn from the last `3·limit` inserted. |
| Dashboard.RecentReadingsOfShipment | convex/dashboard.ts:61-68 | At most `limit` readings of the shipment, newest first. No reading of the shipment that is left out is newer than one returned. |
| Dashboard.NewestTaken | convex/dashboard.ts:61-72 | Sorting newest first and keeping `n` gives at most `n` readings from the pool, newest first. None left out of the pool is newer than one kept. |
| Dashboard.RecentExcursions | convex/dashboard.ts:91-102 | The last `limit` excursions, newest insertion first, projected. |
| Dashboard.RecentExcursionsNewestFirst | convex/dashboard.ts:92 | The returned ids strictly decrease. |
| Dashboard.RecentAuditLogs | convex/dashboard.ts:119-128 | The projection of the entries the `by_timestamp` index returns. |
| Dashboard.RecentAuditNewest | convex/dashboard.ts:119-120 | At most `limit` entries, newest timestamp first, and none left out is newer. All are returned when there are at most `limit`. |
| Dashboard.AiInsightsList | convex/dashboard.ts:146-154 | One view per selected insight. |
| Dashboard.InsightsFiltered | convex/dashboard.ts:146-149 | At most `limit` insights, drawn from the last `2·limit`, all of the requested type. An empty type filters nothing. |
| Shipments.ViewAll | convex/shipments.ts:24-30 | Each shipment is projected to its five fields. |
| Shipments.ShipmentsOfTypeExact | convex/shipments.ts:18-23 | A shipment is listed exactly when its policy has the requested type, in table order. |
| Shipments.ListShipmentsAll | convex/shipments.ts:17-31 | Without a type every shipment is listed, in order. |
| Shipments.OneTypePerPolicy | convex/shipments.ts:20-22 | With fresh ids, no policy id is both food and pharma. |
| Shipments.ShipmentsSplitByType | convex/shipments.ts:19-23 | When every shipment's policy exists, the food and pharma lists together are a permutation of all shipments. |
| PolicyQueries.ViewAll | convex/policies/queries.ts:28-36 | Each policy is projected without `createdBy`. |
| PolicyQueries.PolicyIdsOfType | convex/shipments.ts:20-21 | The id set holds exactly the ids of the policies of the type. |
| PolicyQueries.ListPoliciesExact | convex/policies/queries.ts:23-37 | A policy is listed exactly when it has the requested type and, with `activeOnly`, is active. The list keeps table order. |
| PolicyQueries.ListPoliciesAll | convex/policies/queries.ts:24-36 | With no filter, every policy is listed in order. |
| PolicyQueries.GetPolicy | convex/policies/queries.ts:54-66 | Null exactly when no policy has the id; otherwise that policy's fields. |
| PolicyMutations.CreatePolicy | convex/policies/mutations.ts:16-26 | One policy with the given fields and `updatedAt = now` is appended under a fresh id. |
| PolicyMutations.Updated | convex/policies/mutations.ts:40-43 | `updatedAt` is always refreshed. Name, rules and active change only when supplied, and type and creator are kept. |
| PolicyMutations.Patched | convex/policies/mutations.ts:44 | The patch replaces the target's row only. Ids, creation times and the other documents stay. |
| PolicyMutations.UpdatePolicy | convex/policies/mutations.ts:37-46 | A missing policy fails with "Policy not found" and changes nothing. Otherwise exactly that policy is patched. |
| PolicyMutations.UpdateEffect | convex/policies/mutations.ts:38-44 | After an update the policy is still found. It has the supplied fields and the new `updatedAt`, and keeps its type, creator, id and creation time. |
| PolicyMutations.UpdateNothing | convex/policies/mutations.ts:40 | An update that supplies nothing only moves `updatedAt`. |
| Store.Get | convex/excursions/detect.ts:19 | `ctx.db.get` finds a document exactly when one has the id, and returns that document. |
| Sorting.SortBySorted | convex/policies/engine.ts:48 | The sort orders by the key. |
| Sorting.SortByPermutes | convex/policies/engine.ts:48 | The sort is a permutation. |
| Sorting.SortByOfSorted | convex/dashboard.ts:71 | An already ordered list is returned unchanged. |
| Sorting.SortByStable | convex/dashboard.ts:70-71 | The sort is stable: for every key, the elements with that key come out in their input order. |
| Sorting.TakeSmallest | convex/dashboard.ts:71-72 | The first n of the sorted list are ordered, come from the input, and no element left out sorts before them. |
| Text.TrimSpec | convex/ingestion/parse.ts:24 | `trim` removes exactly the leading and trailing whitespace. |
| Text.TrimIdempotent | convex/companies.ts:6 | Trimming twice is trimming once. |
| Text.TrimPadded | convex/companies.ts:6 | Whitespace around a trimmed word is removed. |
| Text.ToUpperSpec | convex/ingestion/parse.ts:39 | Upper-casing leaves no lower-case ASCII letter, changes only lower-case letters, keeps whitespace, and is idempotent. |
| Text.ToLowerSpec | convex/companies.ts:7 | Lower-casing leaves no upper-case ASCII letter, changes only upper-case letters, and keeps whitespace. |
| Text.SplitJoin | convex/ingestion/parse.ts:24 | Splitting on a character and joining the pieces with it gives back the text. |
| Text.SplitWithout | convex/ingestion/parse.ts:24 | A text without the separator splits into itself. |
| Text.ReplaceBetweenWords | convex/companies.ts:8 | A whitespace run between two words becomes one replacement character. |
| Text.ReplaceNoSpace | convex/companies.ts:8 | A text without whitespace is unchanged. |

## Left out

- AI work (`convex/ai/*`): OpenAI calls, explanation and insight generation, and chat. Queued explanation tasks are recorded in the task queue but never run.
- The upload glue (`convex/ingestion/upload.ts`), `mockApi`, `seed`, `users`, `auth` and every UI file. These are not part of this model.
- Concurrency and scheduling in Convex. A mutation runs as one atomic step, and a scheduled task is only appended to the task queue.
- Floating point: temperatures are exact reals, so NaN, Infinity and rounding are not modelled. `parseFloat` returns `None` where JavaScript gives NaN.
- `parseInt` precision past 2^53 is not modelled: digit strings are read as unbounded integers.
- Case mapping is ASCII only, with no Unicode case folding: `toUpperCase` and `toLowerCase` change only the letters a-z and A-Z in the model.
- `Date.parse`, `parseFloat`, `String(number)` and `toISOString` are uninterpreted parameters. The `RangeError` of `toISOString` on an invalid date is not modelled.
- `Date.now` is one `now` per mutation. `createCompany` reads it twice and `normalizeTimestamp` reads it per row; the model uses a single value.
- Parse.JsonTimestamp: a fractional JSON numeric timestamp is floored to integer milliseconds.
- Parse.JsonRowOf: inherited `Object.prototype` keys are not modelled as object fields.
- Limits in the dashboard queries are natural numbers; negative or fractional limits are not modelled.
- Export.ExportRange: the range bounds are reals and timestamps are integers, as JavaScript compares numbers.
- Export.ExportRoundTrip: holds only when ISO times contain no comma, which `toISOString` guarantees but the model leaves as an assumption.
- `rules: v.any()` in the policy mutations is modelled as the typed `PolicyRules`.
- The local midnight in `kpis` is the parameter `todayMs`.
- Ties in index order (equal timestamps) follow insertion order. A descending query therefore returns the later-inserted of two entries with equal timestamps first, which is what `SortBy(Reverse(...))` in Dashboard models.
- Store.AuditRow: the schema's `details: v.optional(v.any())` is narrowed to the excursion details record, the only shape the modelled callers write.
- The `detailsSummary` text of a queued explanation task is not modelled; the task carries the audit id, event type, rule and severity.
