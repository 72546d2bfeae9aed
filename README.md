# PingCastle ingestion handler, modelled in Dafny

This project models the PingCastle ingestion Lambda handler
`backend/ingest-python/src/handlers/ingest.py` and proves properties of the model.

The handler is triggered by an S3 upload, delivered as an EventBridge event or an S3
notification. It finds the uploaded object and parses it as XML. It strips namespace
prefixes from the tags in place and classifies the document as a PingCastle rules catalog,
a healthcheck report or neither. Then:

- **Rules catalog.** The catalog is read into a map from risk id to rule. It is published as
  a content-addressed rules pack in the curated bucket, with a `latest.json` pointer. A pack
  item and a `LATEST` item go into the table.
- **Report.** The handler loads the latest rules pack and reads the report's
  `HealthcheckRiskRule` rows. It maps each row's points to an ASFF severity. It builds one
  ASFF finding per row, enriched from the pack's title, description and solution or falling
  back to defaults. It writes:
  - a run record and a run index entry;
  - a finding record and a finding index entry per row;
  - a curated snapshot of the run.

  The run id and finding ids are derived from the content.

The modules are:

| module | file | what it models |
|---|---|---|
| `Wrappers` | wrappers.dfy | `None` versus a present value |
| `Text` | text.dfy | `strip`, `rstrip`, `lower`, `split`, `find`, substring tests, digit filters |
| `Xml` | xml.dfy | the parsed tree, the in-place namespace strip, `find`/`findall`/`.//`, `_get_text`, `_find_text` |
| `Classify` | classify.dfy | `detect_pingcastle_artifact` |
| `Severity` | severity.dfy | `int(points)` and `pingcastle_points_to_asff_sev` |
| `Fields` | fields.dfy | `normalize_domain`, `get_account_region_from_context`, `parse_iso_to_utc_iso` |
| `Event` | event.dfy | `_extract_s3_bucket_key` over a decoded JSON event |
| `Records` | records.dfy | the documents, table items and ASFF finding written; puts and their effect on both stores |
| `Storage` | store.dfy | the bucket and the table as one mutable `Store` object |
| `Env` | env.dfy | the library calls as function parameters (`Hooks`), the deployment settings, the response |
| `RulesCatalog` | rules.dfy | `parse_rules_catalog` and `process_rules_catalog` |
| `LatestPack` | latest.dfy | `load_latest_rules_pack` |
| `Report` | report.dfy | `process_report` |
| `ReportFacts` | report_facts.dfy | counts, enrichment and keys of a processed report |
| `ReportReplay` | replay.dfy | replaying a report: same keys, latest pointer kept, the store converges |
| `Handler` | handler.dfy | `handler`: fetch, parse, strip, classify, dispatch, and replaying an event |

The imperative parts of the source are methods with loops, proved against pure functions.
These are:

- the scan of `Records`;
- the in-place tag rewrite over an `array` of tags;
- the loops of `parse_rules_catalog` and `process_report`;
- the puts on the `Store` object.

Each processor and the handler itself ensures that its result is the outcome of a pure plan
function, and that the new store equals the old store after the plan's puts. The lemmas are
stated about those plan functions.

## Model

| member | source | states |
|---|---|---|
| Classify.Detect | backend/ingest-python/src/handlers/ingest.py:161-170 | `rules` exactly for a root tagged `ArrayOfExportedRule` or with an `ExportedRule` child. `report` exactly when it is not rules-shaped and has both a `RiskRules` and a `DomainFQDN` descendant. `unknown` otherwise |
| Event.Get | backend/ingest-python/src/handlers/ingest.py:87-95 | a subscript succeeds exactly on an object holding the key, and gives that field |
| Event.BucketKeyOf | backend/ingest-python/src/handlers/ingest.py:87-95 | found exactly when `bucket.name` and `object.key` exist and the key is a string; then the name and the unquoted key. Otherwise the lookup raises, and it is never `(None, None)` |
| Event.RecordStep | backend/ingest-python/src/handlers/ingest.py:93-94 | `"s3" in r` picks an object with an `s3` key; it skips other objects and strings or lists without `s3`. Everything else raises |
| Event.ScanRecords | backend/ingest-python/src/handlers/ingest.py:93-97 | no contract of its own; `Event.FirstRecordWins` shows the first record holding `s3` decides, `Event.AllSkippedAbsent` that all-skipped records give `(None, None)`, and `Event.ExtractBucketKey` computes it with a loop |
| Event.ScanNonList | backend/ingest-python/src/handlers/ingest.py:92-97 | iterating a non-list `Records` gives `(None, None)` exactly for a string or an object with no key containing `s3`; everything else raises |
| Event.ExtractBucketKey | backend/ingest-python/src/handlers/ingest.py:78-97 | the loop returns what the first decisive record gives: `detail` first, then `Records`, otherwise `(None, None)` |
| Event.Extract | backend/ingest-python/src/handlers/ingest.py:78-97 | no contract of its own; `Event.ExtractBucketKey` computes it, `Event.DetailWins` shows `detail` is read first, `Event.FirstRecordWins` shows the first decisive record wins, and `Event.AllSkippedAbsent` gives `(None, None)` when no record decides |
| Event.FirstRecordWins | backend/ingest-python/src/handlers/ingest.py:92-95 | after skipped records, the first record holding `s3` decides the result |
| Event.AllSkippedAbsent | backend/ingest-python/src/handlers/ingest.py:92-97 | records that are all skipped give `(None, None)` |
| Event.DetailWins | backend/ingest-python/src/handlers/ingest.py:86-89 | with `detail` present, `Records` is never looked at |
| Event.WellFormedRecord | backend/ingest-python/src/handlers/ingest.py:91-95 | a well-formed notification yields its bucket name and its decoded key |
| Fields.NormalizeDomain | backend/ingest-python/src/handlers/ingest.py:108-109 | missing or empty becomes `unknown`. The result has no upper-case letter and no trailing dot, and is the lowered input minus a run of trailing dots |
| Fields.NormalizeNonEmpty | backend/ingest-python/src/handlers/ingest.py:108-109 | a non-empty domain is lowered, then every trailing dot is removed |
| Fields.LowerContosoDomain | backend/ingest-python/src/handlers/ingest.py:109 | `Contoso.LOCAL.` lowers to `contoso.local.` |
| Fields.LowerLocalSuffix | backend/ingest-python/src/handlers/ingest.py:109 | `.LOCAL.` lowers to `.local.` |
| Fields.NormalizeContoso | backend/ingest-python/src/handlers/ingest.py:108-109 | `Contoso.LOCAL.` normalizes to `contoso.local` |
| Fields.NormalizeAllDots | backend/ingest-python/src/handlers/ingest.py:108-109 | `...` normalizes to the empty string, not to `..`, and normalizing that again gives `unknown` |
| Fields.NormalizeIdempotent | backend/ingest-python/src/handlers/ingest.py:108-109 | normalizing a non-empty normalized domain changes nothing |
| Fields.AccountRegionOf | backend/ingest-python/src/handlers/ingest.py:112-117 | the region is field 3 of the `:`-split ARN and the account field 4, when present. Fewer than 3 `:` gives the environment region or `ca-central-1`; fewer than 4 gives account `000000000000`. The account never contains `:` |
| Fields.ArnFields | backend/ingest-python/src/handlers/ingest.py:112-117 | a full invoked-function ARN yields its fourth field as region and its fifth as account |
| Fields.SixDigits | backend/ingest-python/src/handlers/ingest.py:138 | exactly six characters: the fraction truncated, or zero-padded; digits stay digits |
| Fields.RewriteFractionAsWritten | backend/ingest-python/src/handlers/ingest.py:131-139 | no contract of its own; `Fields.RewriteFractionAsWrittenShape` gives its result piece by piece, and `Fields.ExampleOffsetSwallowed` runs it on the docstring's date |
| Fields.RewriteFraction | backend/ingest-python/src/handlers/ingest.py:131-139 | no contract of its own; the intended rewrite: `Fields.RewriteFractionShape` gives its result piece by piece, `Fields.ExampleOffsetKept` keeps the docstring date's offset, and `Fields.RewritesAgreeWithoutOffsetDigits` ties it to the rewrite as written |
| Fields.RewriteFractionAsWrittenShape | backend/ingest-python/src/handlers/ingest.py:134-139 | as written: a text without `.` is kept. Otherwise the head and `.` are kept, then six digits from every digit after the `.`, then the text after that many characters |
| Fields.RewriteFractionShape | backend/ingest-python/src/handlers/ingest.py:134-139 | as intended: the same, with the fraction being the leading run of digits after the `.` and the rest kept |
| Fields.OffsetKeptOnlyByCorrected | backend/ingest-python/src/handlers/ingest.py:134-139 | for any time with a digit in its offset, the corrected rewrite keeps the offset and the as-written one cuts it short |
| Fields.RewritesAgreeWithoutOffsetDigits | backend/ingest-python/src/handlers/ingest.py:134-139 | with no digit after the fraction (`Z` or nothing), both rewrites agree |
| Fields.ExampleOffsetSwallowed | backend/ingest-python/src/handlers/ingest.py:122-139 | as written, the docstring's own example `...25.6874739-05:00` becomes `...25.68747300` |
| Fields.ExampleOffsetKept | backend/ingest-python/src/handlers/ingest.py:122-139 | corrected, the same example becomes `...25.687473-05:00` |
| Fields.ParseIsoToUtc | backend/ingest-python/src/handlers/ingest.py:120-145 | empty input, or a text the parser rejects after the rewrite as written, gives the current time. Otherwise the result is the parser's UTC form of the text after the rewrite as written |
| Handler.FetchDocument | backend/ingest-python/src/handlers/ingest.py:42-60 | extract, check, get, parse and strip in place give the normalized document of the pure `Fetch`: a stop with 400, 204 or an exception, or a document |
| Handler.Fetch | backend/ingest-python/src/handlers/ingest.py:42-60 | no contract of its own; `Handler.FetchDocument` computes it, and `Handler.BadEventBeforeFetch`, `Handler.NotXmlNoWrites` and `Handler.FetchIgnoresCuratedWrites` characterise its outcomes |
| Handler.Handle | backend/ingest-python/src/handlers/ingest.py:39-71 | the outcome is the plan's, and the store is the old store after the plan's puts |
| Handler.HandlePlan | backend/ingest-python/src/handlers/ingest.py:39-71 | no contract of its own; `Handler.Handle` computes it, `Handler.HandleStatuses` lists its responses, and `Handler.HandleTwiceSameKeys` relates two deliveries |
| Handler.HandleStatuses | backend/ingest-python/src/handlers/ingest.py:39-71 | every returned status is 200, 204 or 400, and only a 200 comes with puts |
| Handler.DocumentStatuses | backend/ingest-python/src/handlers/ingest.py:62-71 | a parsed document is answered with 200 or 204, and only a 200 comes with puts |
| Handler.BadEventBeforeFetch | backend/ingest-python/src/handlers/ingest.py:42-44 | 400 exactly when the event gives no bucket and key, a falsy bucket or an empty key. That outcome is the same on every store |
| Handler.NotXmlNoWrites | backend/ingest-python/src/handlers/ingest.py:53-57 | an object that does not parse gives 204 "Not XML" and no put |
| Handler.Dispatch | backend/ingest-python/src/handlers/ingest.py:62-71 | a rules shape gets the rules catalog plan even when report markers are present; a report gets the report plan with the pack loaded from the same store; anything else gets 204 "Unknown artifact" and no put |
| Handler.DocumentPlan | backend/ingest-python/src/handlers/ingest.py:62-71 | no contract of its own; `Handler.Dispatch` routes a catalog, a report or neither, `Handler.DocumentStatuses` gives its responses, and `Handler.DocumentKeys` its keys |
| Handler.DocumentKeys | backend/ingest-python/src/handlers/ingest.py:62-69 | given `DateFromContent` for a report (it has a generation date the parser accepts), outcome and written keys do not depend on the clock or the loaded pack; all objects go to the curated bucket |
| Handler.FetchIgnoresCuratedWrites | backend/ingest-python/src/handlers/ingest.py:48-50 | puts to the curated bucket leave an upload in another bucket, and so the fetch, unchanged |
| Handler.HandleTwiceSameKeys | backend/ingest-python/src/handlers/ingest.py:39-71 | given `ValidHooks`, `RawApart` (the upload is not in the curated bucket) and `Dated` (a fetched report must satisfy `DateFromContent`; other documents need not), delivering the same event again, at any time and whether the pack load fails or not, gives the same response, writes the same keys and adds no key to either store |
| LatestPack.LoadLatest | backend/ingest-python/src/handlers/ingest.py:497-519 | a failure or no `LATEST` item gives `(None, {})`. An empty or missing curated key gives the item's pack id and no rules. A named object that is missing or is not JSON gives `(None, {})`. A rules pack there gives the item's pack id and its rules, and any other JSON document the pack id and no rules. A pack id always comes from the `LATEST` item |
| LatestPack.PointerOf | backend/ingest-python/src/handlers/ingest.py:509-510 | no contract of its own; `LatestPack.LoadLatest` states each load outcome in terms of it, and `ReportReplay.LoadReadsPointer` shows the load reads only the item and the object it names |
| LatestPack.LoadLatestRulesPack | backend/ingest-python/src/handlers/ingest.py:497-519 | the reads of the store compute `LoadLatest` of its state |
| LatestPack.CatalogThenLoad | backend/ingest-python/src/handlers/ingest.py:188-226 | round trip: after a rules catalog is processed, a next load that does not fail finds exactly its pack id and its rules, whatever the store held |
| LatestPack.CatalogPointerUnderRules | backend/ingest-python/src/handlers/ingest.py:191-226 | after a rules catalog, the latest pointer names a key under `curated/pingcastle/rules/` |
| Records.BumpSpec | backend/ingest-python/src/handlers/ingest.py:339 | one increment raises one counter by one, keeps the others and raises the total by one |
| Records.ApplyWritesOverlay | backend/ingest-python/src/handlers/ingest.py:461-467 | puts in order leave every written key with its last put and every other key unchanged |
| Records.ApplyWritesIdempotent | backend/ingest-python/src/handlers/ingest.py:461-491 | performing the same puts again changes nothing |
| Records.KeysAfterWrites | backend/ingest-python/src/handlers/ingest.py:461-491 | after the puts, each store holds exactly its old keys plus the written ones |
| Records.ItemUntouched | backend/ingest-python/src/handlers/ingest.py:461-467 | a table key no put writes keeps its item, or its absence |
| Records.ObjectUntouched | backend/ingest-python/src/handlers/ingest.py:471-491 | an object key no put writes keeps its object, or its absence |
| ReportReplay.RunInfoIgnoresClock | backend/ingest-python/src/handlers/ingest.py:286-292 | with a parseable generation date in the report, the run header does not depend on the clock |
| ReportReplay.ReplaySameKeys | backend/ingest-python/src/handlers/ingest.py:291-341 | given `DateFromContent` (the report has a generation date and the parser accepts it), the keys a report writes depend on its content alone: not on the clock, the raw key or the loaded pack |
| ReportReplay.ReplaySameOutcome | backend/ingest-python/src/handlers/ingest.py:291-494 | the response of a report is the same whenever it is processed, and all its objects go to the curated bucket |
| ReportReplay.RowKeysMissLatest | backend/ingest-python/src/handlers/ingest.py:395-426 | no finding or finding index key is the `LATEST` rules key |
| ReportReplay.RunKeysMissLatest | backend/ingest-python/src/handlers/ingest.py:429-467 | no table key of a run is the `LATEST` rules key |
| ReportReplay.SnapshotNotUnderRules | backend/ingest-python/src/handlers/ingest.py:470 | the snapshot key is never under the rules prefix |
| ReportReplay.LoadReadsPointer | backend/ingest-python/src/handlers/ingest.py:502-516 | the load reads only the `LATEST` item and the object it names |
| ReportReplay.ReportKeepsLatest | backend/ingest-python/src/handlers/ingest.py:461-491 | given `LatestUnderRules` (the `LATEST` item names a key under the rules prefix), processing a report leaves what the next load finds unchanged |
| ReportReplay.ReportReplayConverges | backend/ingest-python/src/handlers/ingest.py:285-494 | given `LatestUnderRules` (the `LATEST` item names a key under the rules prefix) and `DateFromContent`, processing the same report again at any later time, with the same pack-load outcome both times, leaves the store exactly as the first processing left it |
| ReportReplay.ClockDateAddsRunIndex | backend/ingest-python/src/handlers/ingest.py:285-286 | for a report with at least one row, whose entry for the second time is not yet stored: when two processings see different UTC dates (it has no generation date or one the parser rejects, so the clock is used), the second adds a `RUNS#pingcastle` entry the first did not write. Both entries are in the store, which does not converge |
| ReportReplay.UnparsedDateAddsRunIndex | backend/ingest-python/src/handlers/ingest.py:285-286 | for a report with at least one row, whose entry for the second time is not yet stored: a report whose generation date the parser rejects, processed again at another time, changes the store again |
| ReportReplay.RunIndexOnlyForItsDate | backend/ingest-python/src/handlers/ingest.py:447-456 | a run writes the run index entry `<generationDateUtc>#RUN#<runId>` of its own UTC date and of no other date |
| Report.RowOf | backend/ingest-python/src/handlers/ingest.py:302-311 | a row carries the stripped `RiskId` text of its element |
| Report.RowsOf | backend/ingest-python/src/handlers/ingest.py:298-313 | at most one row per element, and every row has a non-empty risk id |
| Report.RowsOfAppend | backend/ingest-python/src/handlers/ingest.py:298-313 | the rows of a concatenation are those of each part, in order |
| Report.RowsOfOne | backend/ingest-python/src/handlers/ingest.py:298-313 | one element gives its row exactly when its risk id is non-empty |
| Report.RowsEmptyIff | backend/ingest-python/src/handlers/ingest.py:298-317 | no row exactly when no risk rule element has a risk id |
| Report.ReportRows | backend/ingest-python/src/handlers/ingest.py:298-313 | no contract of its own; `Report.ExtractRows` computes it with a loop, `Report.RowsEmptyIff` gives when it is empty, and `Report.RowsOfAppend` and `Report.RowsOfOne` give its rows in order |
| Report.ExtractRows | backend/ingest-python/src/handlers/ingest.py:297-313 | the loop collects the rows of the first `RiskRules` descendant's `HealthcheckRiskRule` children |
| Report.StatsTotal | backend/ingest-python/src/handlers/ingest.py:331-339 | the five counters sum to the number of rows |
| Report.AddRow | backend/ingest-python/src/handlers/ingest.py:333-426 | one iteration adds the row's finding record, its index record and its count |
| Report.BuildFindings | backend/ingest-python/src/handlers/ingest.py:333-426 | the loop yields a finding and an index record per row, in order, and the counters of the rows, which sum to the number of findings |
| Report.ProcessReport | backend/ingest-python/src/handlers/ingest.py:285-494 | the response is the report plan's; the store is the old store after the batch and then the snapshot |
| Report.ReportPlan | backend/ingest-python/src/handlers/ingest.py:285-494 | no contract of its own; `Report.ProcessReport` computes it, `ReportFacts.NoRowsNoWrites` gives its 204 and 200 cases, and `ReportReplay.ReplaySameKeys` and `ReportReplay.ReportReplayConverges` relate two processings |
| Report.RunInfoOf | backend/ingest-python/src/handlers/ingest.py:285-291 | no contract of its own; `ReportReplay.RunInfoIgnoresClock` shows the header is independent of the clock given a parseable date, and `ReportReplay.ClockDateAddsRunIndex` what happens otherwise |
| Report.GenerationDateOf | backend/ingest-python/src/handlers/ingest.py:286 | no contract of its own; `ReportReplay.RunInfoIgnoresClock` shows a present, parseable date makes the clock irrelevant, and `ReportReplay.ClockDateAddsRunIndex` what the clock fallback does |
| Report.RunId | backend/ingest-python/src/handlers/ingest.py:290-291 | no contract of its own; a function of the report text alone, so `ReportReplay.ReplaySameKeys` and `ReportReplay.ReplaySameOutcome` find the same run id on every processing |
| Report.FindingId | backend/ingest-python/src/handlers/ingest.py:341 | no contract of its own; a function of the run id and risk id, so `ReportFacts.FindingWritesKeys` and `ReportFacts.DuplicateRiskIdCollapses` give one finding key per risk id |
| Report.RunWrites | backend/ingest-python/src/handlers/ingest.py:429-491 | no contract of its own; `ReportFacts.RunCounts` gives its count and order, `ReportFacts.RunKeys` its exact keys, and `ReportFacts.SnapshotListsFindingAsffs` the snapshot's findings |
| Report.AsffOf | backend/ingest-python/src/handlers/ingest.py:334-392 | no contract of its own; `ReportFacts.Enrichment` gives the title, description and remediation, `ReportFacts.NoRulesFallbacks` the fallbacks, and `ReportFacts.FindingSeverity` the severity |
| Report.MapRows | backend/ingest-python/src/handlers/ingest.py:333-420 | one result per row; `Report.MapRowsAt` makes the `j`-th the function of the `j`-th row, so the findings and index records follow the rows in order |
| Report.StatsOf | backend/ingest-python/src/handlers/ingest.py:333-339 | no contract of its own; `Report.StatsTotal` sums its counters to the row count, and `ReportFacts.StatsCountLevels` makes each counter the number of rows of that severity |
| Report.Snapshot | backend/ingest-python/src/handlers/ingest.py:469-491 | no contract of its own; `ReportFacts.RunCounts` gives its counts and `ReportFacts.SnapshotListsFindingAsffs` its findings, in order |
| ReportFacts.NoRowsNoWrites | backend/ingest-python/src/handlers/ingest.py:315-317 | no rows exactly when there are no puts, with 204 "No findings"; otherwise 200 with the content-derived run id |
| ReportFacts.RunCounts | backend/ingest-python/src/handlers/ingest.py:429-485 | 2n+3 puts for n rows. The run record, the run index entry and the snapshot all count n, and the counters sum to n |
| ReportFacts.SnapshotListsFindingAsffs | backend/ingest-python/src/handlers/ingest.py:485 | the snapshot's findings are the ASFF documents of the finding records, in order |
| ReportFacts.StatsCountLevels | backend/ingest-python/src/handlers/ingest.py:335-339 | each counter is the number of rows of that severity |
| ReportFacts.FindingSeverity | backend/ingest-python/src/handlers/ingest.py:337-362 | a finding's severity is the label and score of its points, with the points text as original |
| ReportFacts.Enrichment | backend/ingest-python/src/handlers/ingest.py:335-392 | title, description and remediation come from the pack's rule where non-empty. The fallbacks are `PingCastle <riskId>`, the rationale and no remediation |
| ReportFacts.NoRulesFallbacks | backend/ingest-python/src/handlers/ingest.py:335-392 | with no pack, every finding takes all three fallbacks |
| ReportFacts.FindingWritesKeys | backend/ingest-python/src/handlers/ingest.py:395-410 | the finding records are written exactly under `RUN#<runId>` / `FINDING#<fid>` for each row, and they put no object |
| ReportFacts.IndexWritesKeys | backend/ingest-python/src/handlers/ingest.py:411-426 | the index records are written exactly under `FINDING#<fid>` / `META` for each row |
| ReportFacts.HeaderKeys | backend/ingest-python/src/handlers/ingest.py:429-458 | the run record and run index entry are written exactly under `RUN#<runId>` / `META` and `RUNS#pingcastle` / `<utc>#RUN#<runId>` |
| ReportFacts.RunKeys | backend/ingest-python/src/handlers/ingest.py:429-491 | a run writes exactly its header keys, the per-row keys and the one snapshot object |
| ReportFacts.DuplicateRiskIdCollapses | backend/ingest-python/src/handlers/ingest.py:395-441 | a further row with a risk id already present adds one to the count but no key |
| RulesCatalog.RuleOf | backend/ingest-python/src/handlers/ingest.py:265-276 | the rule carries its element's stripped `RiskId` text |
| RulesCatalog.RulesOf | backend/ingest-python/src/handlers/ingest.py:259-278 | no contract of its own; `RulesCatalog.RulesKeys` gives its keys as exactly the non-empty ids, `RulesCatalog.RulesCarryTheirKey` ties each rule to its key, and `RulesCatalog.LaterDuplicateWins` makes the last rule for an id win |
| RulesCatalog.CatalogOf | backend/ingest-python/src/handlers/ingest.py:259-261 | no contract of its own; the rules of the root's direct `ExportedRule` children, which `RulesCatalog.ParseRulesCatalog` computes with a loop |
| RulesCatalog.ParseRulesCatalog | backend/ingest-python/src/handlers/ingest.py:259-278 | the loop builds the catalog of the root's direct `ExportedRule` children |
| RulesCatalog.RulesCarryTheirKey | backend/ingest-python/src/handlers/ingest.py:259-278 | every key is non-empty and its rule's `riskId` is that key |
| RulesCatalog.RulesKeys | backend/ingest-python/src/handlers/ingest.py:259-278 | the keys are exactly the non-empty risk ids of the elements |
| RulesCatalog.LaterDuplicateWins | backend/ingest-python/src/handlers/ingest.py:261-276 | of elements sharing a risk id, the last one's rule is kept |
| RulesCatalog.PackKeyIsNotLatestKey | backend/ingest-python/src/handlers/ingest.py:191-192 | a pack key never collides with the latest pointer's key |
| RulesCatalog.RulesCatalogEffect | backend/ingest-python/src/handlers/ingest.py:188-253 | after the four puts, the pack and latest documents and the pack and `LATEST` items hold the content-hash id and the rule count; every other key is unchanged |
| RulesCatalog.RulesCatalogWrites | backend/ingest-python/src/handlers/ingest.py:188-253 | no contract of its own; `RulesCatalog.RulesCatalogEffect` gives the store after its puts, `RulesCatalog.RulesCatalogKeys` its keys, and `LatestPack.CatalogThenLoad` the next load |
| RulesCatalog.RulesCatalogKeys | backend/ingest-python/src/handlers/ingest.py:191-253 | exactly two table keys and two curated objects are written |
| RulesCatalog.ProcessRulesCatalog | backend/ingest-python/src/handlers/ingest.py:177-256 | the store is the old store after the four puts; the response is 200 with the pack id |
| Severity.SeverityOf | backend/ingest-python/src/handlers/ingest.py:536-544 | each label exactly for its range (at least 30, 20-29, 10-19, 1-9, below 1), with its score |
| Severity.ParsePoints | backend/ingest-python/src/handlers/ingest.py:531-534 | no contract of its own; `Severity.ParsePrintedPoints` shows it reads back every printed integer, and `Severity.NonNumericPointsInformational` its error path |
| Severity.PointsToSeverity | backend/ingest-python/src/handlers/ingest.py:522-544 | the score belongs to the label. Points that `int()` parses give the severity of that number; other text counts as informational |
| Severity.SeverityMonotonic | backend/ingest-python/src/handlers/ingest.py:536-544 | more points never give a lower score |
| Severity.ParsePrintedPoints | backend/ingest-python/src/handlers/ingest.py:531-534 | `int(str(n)) == n` for every integer |
| Severity.ZeroPointsInformational | backend/ingest-python/src/handlers/ingest.py:529-544 | `"0"` is informational |
| Severity.NonNumericPointsInformational | backend/ingest-python/src/handlers/ingest.py:531-534 | text starting with no space, sign or digit, such as `abc`, is informational |
| Severity.ThirtyPointsCritical | backend/ingest-python/src/handlers/ingest.py:536-537 | `"30"` is critical, score 90 |
| Severity.TwentyNinePointsHigh | backend/ingest-python/src/handlers/ingest.py:536-539 | `"29"` is high, score 70 |
| Storage.Store.GetObject | backend/ingest-python/src/handlers/ingest.py:514 | an object exists exactly when its key is stored, and is what is stored |
| Storage.Store.GetItem | backend/ingest-python/src/handlers/ingest.py:503-504 | an item exists exactly when its key is stored, and is what is stored |
| Storage.Store.PutObjectAt | backend/ingest-python/src/handlers/ingest.py:206-211 | overwrites the object under its key only |
| Storage.Store.PutItemAt | backend/ingest-python/src/handlers/ingest.py:229-241 | overwrites the item under its key only |
| Storage.Store.PutAll | backend/ingest-python/src/handlers/ingest.py:461-467 | the puts one after the other, overwriting by key |
| Text.StripIsTrimmedSlice | backend/ingest-python/src/handlers/ingest.py:549 | `strip()` is the slice between leading and trailing whitespace, with no whitespace at either end |
| Text.RStripChar | backend/ingest-python/src/handlers/ingest.py:109 | `rstrip(c)` keeps a prefix, removes only `c`, and leaves no trailing `c` |
| Text.ToLower | backend/ingest-python/src/handlers/ingest.py:109 | same length, each character lowered |
| Text.Split | backend/ingest-python/src/handlers/ingest.py:114 | one more part than separators, no part contains the separator, and joining gives the text back |
| Text.IndexOf | backend/ingest-python/src/handlers/ingest.py:135 | the first occurrence of the character |
| Text.AllDigits | backend/ingest-python/src/handlers/ingest.py:136 | only digits, no longer than the input |
| Text.AllDigitsAppend | backend/ingest-python/src/handlers/ingest.py:136 | the digits of a concatenation are those of each part, in order |
| Text.AllDigitsCounts | backend/ingest-python/src/handlers/ingest.py:136 | each digit occurs as often as in the input, and nothing else occurs |
| Text.LeadingDigits | backend/ingest-python/src/handlers/ingest.py:136-137 | the input is the digit run followed by a part not starting with a digit |
| Xml.LocalName | backend/ingest-python/src/handlers/ingest.py:153-154 | a tag without `}` is kept; otherwise the result follows the first `}` |
| Xml.StripTree | backend/ingest-python/src/handlers/ingest.py:148-154 | every tag becomes its local name, the text and the number of children are kept; `Xml.StripViewCommutes` equates it with the in-place rewrite |
| Xml.StripNamespacesInPlace | backend/ingest-python/src/handlers/ingest.py:148-154 | every element's tag is rewritten to its local name exactly once; tags of other elements are untouched |
| Xml.StripViewCommutes | backend/ingest-python/src/handlers/ingest.py:148-154 | rewriting the tag table in place equals stripping the document value |
| Xml.FirstWithTagSpec | backend/ingest-python/src/handlers/ingest.py:548 | `find` gives `None` exactly when no element has the tag; otherwise the first one that has it |
| Xml.FilterTag | backend/ingest-python/src/handlers/ingest.py:261 | `findall` gives exactly the elements with the tag |
| Xml.FilterTagAppend | backend/ingest-python/src/handlers/ingest.py:261 | `findall` over a concatenation keeps each part's matches, in order |
| Xml.FilterTagCounts | backend/ingest-python/src/handlers/ingest.py:261 | each element with the tag occurs as often as in the input, and no other element occurs |
| Xml.FindIsFirstOfFindAll | backend/ingest-python/src/handlers/ingest.py:548 | `find` is the first element of `findall` |
| Xml.TextOfIsTrimmed | backend/ingest-python/src/handlers/ingest.py:549 | an element's text, stripped, has no whitespace at either end |
| Xml.TextOf | backend/ingest-python/src/handlers/ingest.py:549 | no contract of its own; `Xml.TextOfIsTrimmed` shows its result has no whitespace at either end |
| Xml.GetTextSpec | backend/ingest-python/src/handlers/ingest.py:547-549 | the stripped text of the first child with the tag, `""` when there is none, and never padded |
| Xml.GetText | backend/ingest-python/src/handlers/ingest.py:547-549 | no contract of its own; `Xml.GetTextSpec` gives it as the text of the first direct child with the tag, or `""` |
| Xml.FindTextSpec | backend/ingest-python/src/handlers/ingest.py:552-554 | the stripped text of the first descendant with the tag, `""` when there is none, and never padded |
| Xml.FindText | backend/ingest-python/src/handlers/ingest.py:552-554 | no contract of its own; `Xml.FindTextSpec` gives it as the text of the first strict descendant with the tag, or `""` |

## Left out

- Logging: the `print` calls are not modelled.
- JSON: encoding and decoding, and `json.dumps` of the response body, are not modelled.
  Documents and responses are datatypes, and the event is a decoded JSON value.
- Decoding: the UTF-8 decoding of the object body is not modelled; the stored upload is its text.
- Library calls: `hashlib.sha256`, `uuid.uuid5`, `urllib.parse.unquote_plus`, `ET.fromstring`
  and `datetime.fromisoformat` with UTC conversion are function parameters (`Env.Hooks`). They
  have no modelled behaviour. A parse is only assumed to give a tree whose element ids are
  distinct and index its tag table.
- Clock: `utc_now_iso` is one `now` value per invocation.
- Deployment settings: `CURATED_BUCKET` is part of `Env.Context`, and so are the context's
  function ARN and `AWS_REGION`. The table name, which only selects the table, is not modelled.
- Storage outside the load: put failures, partial batches, throttling and concurrent runs
  are not modelled. Apart from load failures, the storage calls always succeed. A
  `get_object` for a missing key, or a bucket that is not a string, is an unhandled
  exception (`Handler.Outcome.Unhandled`).
- Load failures: in `load_latest_rules_pack` a storage failure is the parameter `fails`. A
  document that fails to decode is a stored upload (`Blob`). Any other document has no
  `rulesByRiskId`.
- Non-upload objects: a stored object other than an upload (a document the handler wrote)
  is answered "Not XML": its JSON text is not XML.
- Snapshot: `Report.Snapshot` builds the snapshot's findings from the rows.
  `ReportFacts.SnapshotListsFindingAsffs` proves that these are the ASFF documents of the
  finding records.
- Severity.ParsePoints: does not model Python `int()` details beyond optional surrounding
  whitespace and an optional sign before ASCII digits. Underscores between digits and
  non-ASCII digits are rejected here, though Python accepts them.
- Text.ToLower: lowers ASCII letters only; Python's `str.lower()` also lowers other letters.
- Text.AllDigits: counts only ASCII digits; Python's `str.isdigit()` also accepts other
  digits.
- Text.AllDigits: its contract bounds the length and keeps only digits. Order and
  multiplicity are stated by `Text.AllDigitsAppend` and `Text.AllDigitsCounts`.
- Xml.FilterTag: its contract states membership both ways. Order and multiplicity are stated
  by `Xml.FilterTagAppend` and `Xml.FilterTagCounts`.
- Report.RowsOf: its contract bounds the count and keeps only non-empty risk ids. The rows
  themselves, in order, are stated by `Report.RowsOfAppend` and `Report.RowsOfOne`.
- Fields.ParseIsoToUtc: applies the fraction rewrite as written, so a timezone offset whose
  digits follow a fraction is lost before parsing (see Findings).
- Text.IsSpace: is the fixed set of code points `str.isspace()` accepts.
- ASFF constants: the schema versions, the resource type and partition, and `source` are
  constants of `Records`. They are not repeated in every datatype value.
- Other files: the translation scripts, the UI and the API server are not part of this model.

Two details of the code that the model keeps:

- `normalize_domain` removes every trailing dot (`rstrip(".")`), not just one.
- The run snapshot is stored as `curated/pingcastle/runs/runId=<runId>/findings.asff.json`.

## Findings

| source | as written | input that shows it | evidently intended | confidence | as-written member | corrected member |
|---|---|---|---|---|---|---|
| backend/ingest-python/src/handlers/ingest.py:134-139 | the fraction takes every digit after the first `.`, including the offset's digits, and the kept suffix starts that many characters in, which cuts off the offset | `2025-12-18T14:32:25.6874739-05:00` becomes `2025-12-18T14:32:25.68747300` | keep the timezone offset, as the comment says: `2025-12-18T14:32:25.687473-05:00` | high; proved, not executed | Fields.RewriteFractionAsWritten (Fields.ExampleOffsetSwallowed, Fields.OffsetKeptOnlyByCorrected) | Fields.RewriteFraction (Fields.ExampleOffsetKept, Fields.RewritesAgreeWithoutOffsetDigits) |

`Fields.ParseIsoToUtc`, and through it the run's UTC generation date, applies the rewrite
as written, so the processing of a report behaves as the code does. `Fields.RewriteFraction`
is the intended rewrite, and its properties are proved alongside.
