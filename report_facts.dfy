/**
 * What processing a report promises: the empty report writes nothing, every
 * row gives one finding and one index record, the counters add up, every
 * finding is enriched from the pack or falls back, the keys depend only on
 * the content, and processing the same report again changes nothing.
 */
module ReportFacts {
  import opened Wrappers
  import opened Xml
  import opened Severity
  import opened Fields
  import opened Records
  import opened Env
  import opened RulesCatalog
  import opened LatestPack
  import opened Report

  // ---------------------------------------------------------------------------
  // Outcome and counts
  // ---------------------------------------------------------------------------

  /** No row: 204 and no put at all; some row: 200 with the content-derived run id, and puts. */
  lemma NoRowsNoWrites(root: Element, xmlText: string, rawKey: string, hooks: Hooks, ctx: Context, now: string, loaded: Loaded)
    ensures var plan := ReportPlan(root, xmlText, rawKey, hooks, ctx, now, loaded);
      && (ReportRows(root) == [] <==> plan.1 == [])
      && (ReportRows(root) == [] ==> plan.0 == Response(204, Message("No findings")))
      && (ReportRows(root) != [] ==> plan.0 == Response(200, WithRunId("Report processed", RunId(hooks, xmlText))))
  {
  }

  /**
   * The run record and its index entry come first and the snapshot last, with
   * a finding and an index entry per row between them; the run record, the
   * index entry and the snapshot all count the rows, the counters of the run
   * record sum to that count, and the snapshot lists one finding per row.
   */
  lemma RunCounts(hooks: Hooks, info: RunInfo, rules: map<string, Rule>, rows: seq<Row>, curatedBucket: string)
    ensures |RunWrites(hooks, info, rules, rows, curatedBucket)| == 2 * |rows| + 3
    ensures var h := RunHeader(info, rows);
      && h[0].item.RunItem? && h[0].item.findingCount == |rows| && Total(h[0].item.stats) == |rows|
      && h[1].item.RunIndexItem? && h[1].item.findingCount == |rows|
    ensures var snap := Snapshot(hooks, info, rules, rows, curatedBucket).payload;
      snap.RunDoc? && snap.findingCount == |rows| && |snap.findings| == |rows| && Total(snap.stats) == |rows|
  {
    StatsTotal(rows);
  }

  /** The snapshot's findings are the ASFF documents of the finding records, in the same order. */
  lemma SnapshotListsFindingAsffs(hooks: Hooks, info: RunInfo, rules: map<string, Rule>, rows: seq<Row>, curatedBucket: string)
    ensures var fs, ws := Snapshot(hooks, info, rules, rows, curatedBucket).payload.findings, FindingWrites(hooks, info, rules, rows);
      |fs| == |ws| && forall j :: 0 <= j < |ws| ==> ws[j].PutItem? && ws[j].item.FindingItem? && fs[j] == ws[j].item.asff
  {
    var f := row => FindingWrite(hooks, info, rules, row);
    var g := row => AsffOf(hooks, info, rules, row);
    forall j | 0 <= j < |rows|
      ensures FindingWrites(hooks, info, rules, rows)[j] == f(rows[j])
      ensures Asffs(hooks, info, rules, rows)[j] == g(rows[j])
    {
      MapRowsAt(f, rows, j);
      MapRowsAt(g, rows, j);
    }
  }

  // ---------------------------------------------------------------------------
  // Severity counters
  // ---------------------------------------------------------------------------

  /** The severity of each row, in order. */
  function Levels(rows: seq<Row>): (ls: seq<Label>)
    ensures |ls| == |rows|
    decreases |rows|
  {
    if rows == [] then [] else Levels(rows[..|rows| - 1]) + [PointsToSeverity(rows[|rows| - 1].points).level]
  }

  /** Each counter is the number of rows of that severity. */
  lemma {:induction false} StatsCountLevels(rows: seq<Row>, l: Label)
    ensures StatOf(StatsOf(rows), l) == multiset(Levels(rows))[l]
    decreases |rows|
  {
    if rows != [] {
      var init := rows[..|rows| - 1];
      var m := PointsToSeverity(rows[|rows| - 1].points).level;
      StatsCountLevels(init, l);
      BumpSpec(StatsOf(init), m);
      assert multiset(Levels(rows)) == multiset(Levels(init)) + multiset{m};
    }
  }

  // ---------------------------------------------------------------------------
  // Enrichment
  // ---------------------------------------------------------------------------

  /** A finding also carries the severity its points give, with the points text as given. */
  lemma FindingSeverity(hooks: Hooks, info: RunInfo, rules: map<string, Rule>, row: Row)
    ensures var sev := PointsToSeverity(row.points);
      AsffOf(hooks, info, rules, row).severity == AsffSeverity(LabelName(sev.level), Score(sev.level), row.points)
  {
  }

  /**
   * Title, description and remediation come from the pack's rule for the
   * row's risk id where that field is non-empty, and otherwise fall back to
   * `PingCastle <riskId>`, the rationale, and no remediation.
   */
  lemma Enrichment(hooks: Hooks, info: RunInfo, rules: map<string, Rule>, row: Row)
    ensures var a := AsffOf(hooks, info, rules, row);
      && (row.riskId in rules && rules[row.riskId].title != "" ==> a.title == rules[row.riskId].title)
      && (row.riskId !in rules || rules[row.riskId].title == "" ==> a.title == "PingCastle " + row.riskId)
      && (row.riskId in rules && rules[row.riskId].description != "" ==> a.description == rules[row.riskId].description)
      && (row.riskId !in rules || rules[row.riskId].description == "" ==> a.description == row.rationale)
      && (a.remediation.Some? <==> row.riskId in rules && rules[row.riskId].solution != "")
      && (a.remediation.Some? ==> a.remediation.value == rules[row.riskId].solution)
  {
  }

  /** With no rules loaded every finding takes all three fallbacks. */
  lemma NoRulesFallbacks(hooks: Hooks, info: RunInfo, row: Row)
    ensures var a := AsffOf(hooks, info, map[], row);
      a.title == "PingCastle " + row.riskId && a.description == row.rationale && a.remediation == None
  {
    Enrichment(hooks, info, map[], row);
  }

  // ---------------------------------------------------------------------------
  // Keys
  // ---------------------------------------------------------------------------

  /** Puts that are all table items, the one for row `r` under `key(r)`, write exactly those keys. */
  lemma {:induction false} MapRowsItemKeys(f: Row -> Write, key: Row -> (string, string), rows: seq<Row>)
    requires forall r :: f(r).PutItem? && (f(r).pk, f(r).sk) == key(r)
    ensures ItemKeys(MapRows(f, rows)) == set r | r in rows :: key(r)
    ensures ObjectKeys(MapRows(f, rows)) == {}
    decreases |rows|
  {
    if rows != [] {
      var init := rows[..|rows| - 1];
      var last := rows[|rows| - 1];
      MapRowsItemKeys(f, key, init);
      ItemKeysAppend(MapRows(f, init), [f(last)]);
      assert [f(last)][1..] == [];
      assert rows == init + [last];
      assert (set r | r in rows :: key(r)) == (set r | r in init :: key(r)) + {key(last)};
    }
  }

  /** `RUN#<runId>` / `FINDING#<fid>` for each row. */
  function FindingKeys(hooks: Hooks, runId: string, rows: seq<Row>): set<(string, string)> {
    set r | r in rows :: (RunPk(runId), FindingSk(FindingId(hooks, runId, r.riskId)))
  }

  /** `FINDING#<fid>` / `META` for each row. */
  function IndexKeys(hooks: Hooks, runId: string, rows: seq<Row>): set<(string, string)> {
    set r | r in rows :: (FindingPk(FindingId(hooks, runId, r.riskId)), MetaSk)
  }

  /** The finding puts write one key per row, determined by the run id and the risk id, and no object. */
  lemma FindingWritesKeys(hooks: Hooks, info: RunInfo, rules: map<string, Rule>, rows: seq<Row>)
    ensures ItemKeys(FindingWrites(hooks, info, rules, rows)) == FindingKeys(hooks, info.runId, rows)
    ensures ObjectKeys(FindingWrites(hooks, info, rules, rows)) == {}
  {
    var f := row => FindingWrite(hooks, info, rules, row);
    var key := (row: Row) => (RunPk(info.runId), FindingSk(FindingId(hooks, info.runId, row.riskId)));
    MapRowsItemKeys(f, key, rows);
  }

  /** The index puts write one key per row, determined by the run id and the risk id, and no object. */
  lemma IndexWritesKeys(hooks: Hooks, info: RunInfo, rules: map<string, Rule>, rows: seq<Row>)
    ensures ItemKeys(IndexWrites(hooks, info, rules, rows)) == IndexKeys(hooks, info.runId, rows)
    ensures ObjectKeys(IndexWrites(hooks, info, rules, rows)) == {}
  {
    var f := row => IndexWrite(hooks, info, rules, row);
    var key := (row: Row) => (FindingPk(FindingId(hooks, info.runId, row.riskId)), MetaSk);
    MapRowsItemKeys(f, key, rows);
  }

  /** The header writes the run record and the run index entry, and no object. */
  lemma HeaderKeys(info: RunInfo, rows: seq<Row>)
    ensures ItemKeys(RunHeader(info, rows)) == {(RunPk(info.runId), MetaSk), (RunsPk, RunIndexSk(info.generationDateUtc, info.runId))}
    ensures ObjectKeys(RunHeader(info, rows)) == {}
  {
    var h := RunHeader(info, rows);
    ItemPairKeys(h[0], h[1]);
    assert h == [h[0], h[1]];
  }

  lemma ItemPairKeys(a: Write, b: Write)
    requires a.PutItem? && b.PutItem?
    ensures ItemKeys([a, b]) == {(a.pk, a.sk), (b.pk, b.sk)} && ObjectKeys([a, b]) == {}
  {
    assert [a, b][1..] == [b] && [b][1..] == [];
    assert ItemKeys([b]) == {(b.pk, b.sk)} && ObjectKeys([b]) == {};
  }

  /**
   * The keys of a run: its record and index entry, a finding and an index
   * entry per risk id, and one snapshot object.
   */
  lemma RunKeys(hooks: Hooks, info: RunInfo, rules: map<string, Rule>, rows: seq<Row>, curatedBucket: string)
    ensures var ws := RunWrites(hooks, info, rules, rows, curatedBucket);
      && ItemKeys(ws) == {(RunPk(info.runId), MetaSk), (RunsPk, RunIndexSk(info.generationDateUtc, info.runId))}
                         + FindingKeys(hooks, info.runId, rows) + IndexKeys(hooks, info.runId, rows)
      && ObjectKeys(ws) == {(curatedBucket, SnapshotKey(info.runId))}
  {
    var snap := [Snapshot(hooks, info, rules, rows, curatedBucket)];
    KeysOfFour(RunHeader(info, rows), FindingWrites(hooks, info, rules, rows), IndexWrites(hooks, info, rules, rows), snap);
    assert snap[1..] == [];
    HeaderKeys(info, rows);
    FindingWritesKeys(hooks, info, rules, rows);
    IndexWritesKeys(hooks, info, rules, rows);
  }

  /**
   * A further row whose risk id the report already has: one more row to
   * count, and the same keys, so the store holds one finding per risk id.
   */
  lemma DuplicateRiskIdCollapses(hooks: Hooks, info: RunInfo, rules: map<string, Rule>, rows: seq<Row>, row: Row, curatedBucket: string)
    requires exists j :: 0 <= j < |rows| && rows[j].riskId == row.riskId
    ensures ItemKeys(RunWrites(hooks, info, rules, rows + [row], curatedBucket)) == ItemKeys(RunWrites(hooks, info, rules, rows, curatedBucket))
    ensures RunHeader(info, rows + [row])[0].item.findingCount == |rows| + 1
  {
    var more := rows + [row];
    var j :| 0 <= j < |rows| && rows[j].riskId == row.riskId;
    assert rows[j] in rows;
    assert FindingKeys(hooks, info.runId, more) == FindingKeys(hooks, info.runId, rows);
    assert IndexKeys(hooks, info.runId, more) == IndexKeys(hooks, info.runId, rows);
    RunKeys(hooks, info, rules, rows, curatedBucket);
    RunKeys(hooks, info, rules, more, curatedBucket);
  }
}
