/**
 * `process_report`: a PingCastle healthcheck report becomes a run with one
 * ASFF finding per risk rule, enriched from the latest rules pack, written
 * as a run record, a run index entry, a finding and a finding index entry
 * per rule, and a curated snapshot of the whole run.
 */
module Report {
  import opened Wrappers
  import opened Text
  import opened Xml
  import opened Severity
  import opened Fields
  import opened Records
  import opened Storage
  import opened Env
  import opened LatestPack

  // ---------------------------------------------------------------------------
  // Rows
  // ---------------------------------------------------------------------------

  /** A `HealthcheckRiskRule` element as a row of stripped texts. */
  function RowOf(e: Element): (r: Row)
    ensures r.riskId == GetText(e, "RiskId")
  {
    Row(GetText(e, "RiskId"), GetText(e, "Category"), GetText(e, "Model"), GetText(e, "Points"), GetText(e, "Rationale"))
  }

  /** The rows of the elements `es` in order, skipping those without a risk id. */
  function RowsOf(es: seq<Element>): (rows: seq<Row>)
    ensures |rows| <= |es|
    ensures forall i :: 0 <= i < |rows| ==> rows[i].riskId != ""
    decreases |es|
  {
    if es == [] then []
    else
      var e := es[|es| - 1];
      RowsOf(es[..|es| - 1]) + (if GetText(e, "RiskId") == "" then [] else [RowOf(e)])
  }

  /** The rows of a concatenation are those of each part, in order. */
  lemma {:induction false} RowsOfAppend(a: seq<Element>, b: seq<Element>)
    ensures RowsOf(a + b) == RowsOf(a) + RowsOf(b)
    decreases |b|
  {
    if b == [] {
      assert a + b == a;
    } else {
      var init, e := b[..|b| - 1], b[|b| - 1];
      var keep := if GetText(e, "RiskId") == "" then [] else [RowOf(e)];
      assert (a + b)[..|a + b| - 1] == a + init;
      assert (a + b)[|a + b| - 1] == e;
      assert RowsOf(a + b) == RowsOf(a + init) + keep;
      RowsOfAppend(a, init);
      assert RowsOf(b) == RowsOf(init) + keep;
    }
  }

  /** A single element gives its row exactly when it has a risk id. */
  lemma RowsOfOne(e: Element)
    ensures RowsOf([e]) == if GetText(e, "RiskId") == "" then [] else [RowOf(e)]
  {
    assert [e][..0] == [];
  }

  /** The risk rule elements: the `HealthcheckRiskRule` children of the first `RiskRules` descendant. */
  function RiskRuleElements(root: Element): seq<Element> {
    match FindDescendant(root, "RiskRules")
    case None => []
    case Some(rr) => FindAll(rr, "HealthcheckRiskRule")
  }

  function ReportRows(root: Element): seq<Row> {
    RowsOf(RiskRuleElements(root))
  }

  /** There are no rows exactly when no risk rule element has a risk id. */
  lemma {:induction false} RowsEmptyIff(es: seq<Element>)
    ensures RowsOf(es) == [] <==> forall i :: 0 <= i < |es| ==> GetText(es[i], "RiskId") == ""
    decreases |es|
  {
    if es != [] {
      var init := es[..|es| - 1];
      RowsEmptyIff(init);
      assert forall i :: 0 <= i < |init| ==> init[i] == es[i];
    }
  }

  /** The loop that fills `parsed`. */
  method ExtractRows(root: Element) returns (rows: seq<Row>)
    ensures rows == ReportRows(root)
  {
    var es := RiskRuleElements(root);
    rows := [];
    var i := 0;
    while i < |es|
      invariant 0 <= i <= |es|
      invariant rows == RowsOf(es[..i])
    {
      assert es[..i + 1][..i] == es[..i];
      var riskId := GetText(es[i], "RiskId");
      if riskId != "" {
        rows := rows + [RowOf(es[i])];
      }
      i := i + 1;
    }
    assert es[..i] == es;
  }

  // ---------------------------------------------------------------------------
  // Identifiers and keys
  // ---------------------------------------------------------------------------

  /** `uuid5(NAMESPACE, "pingcastle|report|" + sha256(xml_text))`. */
  function RunId(hooks: Hooks, xmlText: string): string {
    hooks.uuid5(NamespaceUuid, "pingcastle|report|" + hooks.sha256Hex(xmlText))
  }

  /** `uuid5(NAMESPACE, "asff|pingcastle|" + runId + "|" + riskId)`. */
  function FindingId(hooks: Hooks, runId: string, riskId: string): string {
    hooks.uuid5(NamespaceUuid, "asff|pingcastle|" + runId + "|" + riskId)
  }

  function RunPk(runId: string): string { "RUN#" + runId }
  function FindingSk(fid: string): string { "FINDING#" + fid }
  function FindingPk(fid: string): string { "FINDING#" + fid }
  const MetaSk := "META"
  const RunsPk := "RUNS#pingcastle"
  function RunIndexSk(generationDateUtc: string, runId: string): string { generationDateUtc + "#RUN#" + runId }

  const RunsPrefix := CuratedRoot + "runs/"

  /** Where the curated snapshot of a run is stored. */
  function SnapshotKey(runId: string): string {
    RunsPrefix + "runId=" + runId + "/findings.asff.json"
  }

  // ---------------------------------------------------------------------------
  // Findings
  // ---------------------------------------------------------------------------

  /** What every finding of one run shares. */
  datatype RunInfo = RunInfo(
    runId: string,
    domain: string,
    generationDate: string,
    generationDateUtc: string,
    rawKey: string,
    rulesPackId: string,
    account: string,
    productArn: string)

  /** `rules_by_riskid.get(risk_id)`, absent as `None`. */
  function RuleFor(rules: map<string, Rule>, riskId: string): Option<Rule> {
    if riskId in rules then Some(rules[riskId]) else None
  }

  function TitleFor(rule: Option<Rule>, riskId: string): string {
    if rule.Some? && rule.value.title != "" then rule.value.title else "PingCastle " + riskId
  }

  function DescriptionFor(rule: Option<Rule>, rationale: string): string {
    if rule.Some? && rule.value.description != "" then rule.value.description
    else rationale
  }

  function RemediationFor(rule: Option<Rule>): Option<string> {
    if rule.Some? && rule.value.solution != "" then Some(rule.value.solution) else None
  }

  /** The ASFF finding of one row. */
  function AsffOf(hooks: Hooks, info: RunInfo, rules: map<string, Rule>, row: Row): Asff {
    var rule := RuleFor(rules, row.riskId);
    var sev := PointsToSeverity(row.points);
    var fid := FindingId(hooks, info.runId, row.riskId);
    Asff(
      "adcyberwatch:" + fid, info.productArn, info.account, info.generationDateUtc, info.generationDateUtc,
      AsffSeverity(LabelName(sev.level), sev.score, row.points),
      TitleFor(rule, row.riskId), DescriptionFor(rule, row.rationale),
      "ad://domain/" + info.domain, info.domain,
      ProductFields(
        info.runId, info.domain, info.generationDate, info.generationDateUtc, info.rawKey,
        row.riskId, row.category, row.model, row.points, row.rationale, info.rulesPackId),
      RemediationFor(rule))
  }

  /** The put of the finding record of one row, under `RUN#<runId>` / `FINDING#<fid>`. */
  function FindingWrite(hooks: Hooks, info: RunInfo, rules: map<string, Rule>, row: Row): Write {
    var a := AsffOf(hooks, info, rules, row);
    var fid := FindingId(hooks, info.runId, row.riskId);
    PutItem(RunPk(info.runId), FindingSk(fid),
      FindingItem(info.runId, fid, info.domain, row.riskId, a.severity.level, a.title, a))
  }

  /** The put of the finding index record of one row, under `FINDING#<fid>` / `META`. */
  function IndexWrite(hooks: Hooks, info: RunInfo, rules: map<string, Rule>, row: Row): Write {
    var a := AsffOf(hooks, info, rules, row);
    var fid := FindingId(hooks, info.runId, row.riskId);
    PutItem(FindingPk(fid), MetaSk,
      FindingIndexItem(info.runId, fid, info.domain, row.riskId, a.severity.level, a.title, a))
  }

  /** `f` applied to each row, in order. */
  function MapRows<T>(f: Row -> T, rows: seq<Row>): (xs: seq<T>)
    ensures |xs| == |rows|
    decreases |rows|
  {
    if rows == [] then [] else MapRows(f, rows[..|rows| - 1]) + [f(rows[|rows| - 1])]
  }

  /** The `j`-th element is `f` of the `j`-th row. */
  lemma {:induction false} MapRowsAt<T>(f: Row -> T, rows: seq<Row>, j: nat)
    requires j < |rows|
    ensures MapRows(f, rows)[j] == f(rows[j])
    decreases |rows|
  {
    if j < |rows| - 1 {
      var init := rows[..|rows| - 1];
      MapRowsAt(f, init, j);
      assert init[j] == rows[j];
    }
  }

  /** One more row of the prefix adds its image at the end. */
  lemma MapRowsSnoc<T>(f: Row -> T, rows: seq<Row>, i: nat)
    requires i < |rows|
    ensures MapRows(f, rows[..i + 1]) == MapRows(f, rows[..i]) + [f(rows[i])]
  {
    assert rows[..i + 1][..i] == rows[..i];
  }

  function FindingWrites(hooks: Hooks, info: RunInfo, rules: map<string, Rule>, rows: seq<Row>): seq<Write> {
    MapRows(row => FindingWrite(hooks, info, rules, row), rows)
  }

  function IndexWrites(hooks: Hooks, info: RunInfo, rules: map<string, Rule>, rows: seq<Row>): seq<Write> {
    MapRows(row => IndexWrite(hooks, info, rules, row), rows)
  }

  /** The snapshot's findings: the ASFF of each finding record. */
  function Asffs(hooks: Hooks, info: RunInfo, rules: map<string, Rule>, rows: seq<Row>): seq<Asff> {
    MapRows(row => AsffOf(hooks, info, rules, row), rows)
  }

  /** The severity counters over `rows`: one increment per row, by that row's severity. */
  function StatsOf(rows: seq<Row>): Stats
    decreases |rows|
  {
    if rows == [] then NoStats
    else Bump(StatsOf(rows[..|rows| - 1]), PointsToSeverity(rows[|rows| - 1].points).level)
  }

  /** The five counters sum to the number of rows. */
  lemma {:induction false} StatsTotal(rows: seq<Row>)
    ensures Total(StatsOf(rows)) == |rows|
    decreases |rows|
  {
    if rows != [] {
      StatsTotal(rows[..|rows| - 1]);
      BumpSpec(StatsOf(rows[..|rows| - 1]), PointsToSeverity(rows[|rows| - 1].points).level);
    }
  }

  /**
   * The loop over the rows: a finding and an index record per row, and the
   * counters bumped by each row's severity.
   */
  method BuildFindings(hooks: Hooks, info: RunInfo, rules: map<string, Rule>, rows: seq<Row>)
    returns (findingsItems: seq<Write>, indexItems: seq<Write>, stats: Stats)
    ensures findingsItems == FindingWrites(hooks, info, rules, rows)
    ensures indexItems == IndexWrites(hooks, info, rules, rows)
    ensures stats == StatsOf(rows) && Total(stats) == |findingsItems|
  {
    findingsItems, indexItems, stats := [], [], NoStats;
    var i := 0;
    while i < |rows|
      invariant 0 <= i <= |rows|
      invariant findingsItems == FindingWrites(hooks, info, rules, rows[..i])
      invariant indexItems == IndexWrites(hooks, info, rules, rows[..i])
      invariant stats == StatsOf(rows[..i])
    {
      findingsItems, indexItems, stats := AddRow(hooks, info, rules, rows, i, findingsItems, indexItems, stats);
      i := i + 1;
    }
    assert rows[..i] == rows;
    StatsTotal(rows);
  }

  /** One pass of the loop over the rows: the finding of row `i`, its index record, and its count. */
  method AddRow(hooks: Hooks, info: RunInfo, rules: map<string, Rule>, rows: seq<Row>, i: nat,
                findingsItems: seq<Write>, indexItems: seq<Write>, stats: Stats)
    returns (findingsItems': seq<Write>, indexItems': seq<Write>, stats': Stats)
    requires i < |rows|
    requires findingsItems == FindingWrites(hooks, info, rules, rows[..i])
    requires indexItems == IndexWrites(hooks, info, rules, rows[..i])
    requires stats == StatsOf(rows[..i])
    ensures findingsItems' == FindingWrites(hooks, info, rules, rows[..i + 1])
    ensures indexItems' == IndexWrites(hooks, info, rules, rows[..i + 1])
    ensures stats' == StatsOf(rows[..i + 1])
  {
    PrefixSnoc(hooks, info, rules, rows, i);
    var sev := PointsToSeverity(rows[i].points);
    stats' := Bump(stats, sev.level);
    findingsItems' := findingsItems + [FindingWrite(hooks, info, rules, rows[i])];
    indexItems' := indexItems + [IndexWrite(hooks, info, rules, rows[i])];
  }

  /** One more row of the prefix adds one finding put, one index put and one increment. */
  lemma PrefixSnoc(hooks: Hooks, info: RunInfo, rules: map<string, Rule>, rows: seq<Row>, i: nat)
    requires i < |rows|
    ensures FindingWrites(hooks, info, rules, rows[..i + 1]) == FindingWrites(hooks, info, rules, rows[..i]) + [FindingWrite(hooks, info, rules, rows[i])]
    ensures IndexWrites(hooks, info, rules, rows[..i + 1]) == IndexWrites(hooks, info, rules, rows[..i]) + [IndexWrite(hooks, info, rules, rows[i])]
    ensures StatsOf(rows[..i + 1]) == Bump(StatsOf(rows[..i]), PointsToSeverity(rows[i].points).level)
  {
    MapRowsSnoc(row => FindingWrite(hooks, info, rules, row), rows, i);
    MapRowsSnoc(row => IndexWrite(hooks, info, rules, row), rows, i);
    assert rows[..i + 1][..i] == rows[..i];
  }

  // ---------------------------------------------------------------------------
  // The run
  // ---------------------------------------------------------------------------

  /** The run record and the run index entry, both counting the rows. */
  function RunHeader(info: RunInfo, rows: seq<Row>): seq<Write> {
    var n := |rows|;
    [ PutItem(RunPk(info.runId), MetaSk,
        RunItem(info.runId, info.domain, info.generationDate, info.generationDateUtc, info.generationDateUtc,
          info.rawKey, info.rulesPackId, n, StatsOf(rows))),
      PutItem(RunsPk, RunIndexSk(info.generationDateUtc, info.runId),
        RunIndexItem(info.runId, info.domain, info.generationDateUtc, info.generationDate, n)) ]
  }

  /** The curated snapshot: the run header fields and the ASFF findings. */
  function Snapshot(hooks: Hooks, info: RunInfo, rules: map<string, Rule>, rows: seq<Row>, curatedBucket: string): Write {
    PutObject(curatedBucket, SnapshotKey(info.runId),
      RunDoc(info.runId, info.domain, info.generationDate, info.generationDateUtc, info.rawKey,
        info.rulesPackId, |rows|, StatsOf(rows), Asffs(hooks, info, rules, rows)))
  }

  /** The run record, the run index entry, then every finding, every index entry, and the snapshot. */
  function RunWrites(hooks: Hooks, info: RunInfo, rules: map<string, Rule>, rows: seq<Row>, curatedBucket: string): seq<Write> {
    RunHeader(info, rows)
    + FindingWrites(hooks, info, rules, rows)
    + IndexWrites(hooks, info, rules, rows)
    + [Snapshot(hooks, info, rules, rows, curatedBucket)]
  }

  /** `_find_text(root, ".//GenerationDate") or now`. */
  function GenerationDateOf(root: Element, now: string): string {
    var t := FindText(root, "GenerationDate");
    if t == "" then now else t
  }

  /** The run header from the report, the invocation and the loaded pack. */
  function RunInfoOf(root: Element, xmlText: string, rawKey: string, hooks: Hooks, ctx: Context, now: string, loaded: Loaded): RunInfo {
    var generationDate := GenerationDateOf(root, now);
    var ar := AccountRegionOf(ctx.functionArn, ctx.envRegion);
    RunInfo(
      RunId(hooks, xmlText),
      NormalizeDomain(Some(FindText(root, "DomainFQDN"))),
      generationDate,
      ParseIsoToUtc(generationDate, hooks.toUtc, now),
      rawKey,
      loaded.packId.GetOr(""),
      ar.account,
      "arn:aws:securityhub:" + ar.region + ":" + ar.account + ":product/" + ar.account + "/default")
  }

  /** What processing the report does: the response, and the puts (none when there are no rows). */
  function ReportPlan(root: Element, xmlText: string, rawKey: string, hooks: Hooks, ctx: Context, now: string, loaded: Loaded)
    : (Response, seq<Write>)
  {
    var rows := ReportRows(root);
    if rows == [] then (Response(204, Message("No findings")), [])
    else
      var info := RunInfoOf(root, xmlText, rawKey, hooks, ctx, now, loaded);
      (Response(200, WithRunId("Report processed", info.runId)), RunWrites(hooks, info, loaded.rules, rows, ctx.curatedBucket))
  }

  /**
   * `process_report`: load the latest pack, extract the rows, build the
   * findings and put everything, the batch first and the snapshot last.
   */
  method ProcessReport(store: Store, root: Element, xmlText: string, rawKey: string, hooks: Hooks, ctx: Context, now: string, loadFails: bool)
    returns (resp: Response)
    modifies store
    ensures var plan := ReportPlan(root, xmlText, rawKey, hooks, ctx, now, LoadLatest(old(store.State()), ctx.curatedBucket, loadFails));
      resp == plan.0 && store.State() == ApplyWrites(old(store.State()), plan.1)
  {
    var loaded := LoadLatestRulesPack(store, ctx.curatedBucket, loadFails);
    var rows := ExtractRows(root);
    if rows == [] {
      return Response(204, Message("No findings"));
    }
    var info := RunInfoOf(root, xmlText, rawKey, hooks, ctx, now, loaded);
    var findingsItems, indexItems, stats := BuildFindings(hooks, info, loaded.rules, rows);
    var runItem := PutItem(RunPk(info.runId), MetaSk,
      RunItem(info.runId, info.domain, info.generationDate, info.generationDateUtc, info.generationDateUtc,
        info.rawKey, info.rulesPackId, |findingsItems|, stats));
    var runIndexItem := PutItem(RunsPk, RunIndexSk(info.generationDateUtc, info.runId),
      RunIndexItem(info.runId, info.domain, info.generationDateUtc, info.generationDate, |findingsItems|));
    ghost var s0 := store.State();
    var batch := [runItem, runIndexItem] + findingsItems + indexItems;
    store.PutAll(batch);
    var snapshot := [PutObject(ctx.curatedBucket, SnapshotKey(info.runId),
      RunDoc(info.runId, info.domain, info.generationDate, info.generationDateUtc, info.rawKey,
        info.rulesPackId, |findingsItems|, stats, Asffs(hooks, info, loaded.rules, rows)))];
    store.PutAll(snapshot);
    ApplyWritesAppend(s0, batch, snapshot);
    resp := Response(200, WithRunId("Report processed", info.runId));
  }
}
