/**
 * Replaying a report: the keys it writes depend on its content alone, its
 * puts leave the latest rules pointer and the pack it names alone, and
 * processing it a second time leaves the store as the first time left it.
 */
module ReportReplay {
  import opened Wrappers
  import opened Xml
  import opened Fields
  import opened Records
  import opened Env
  import opened RulesCatalog
  import opened LatestPack
  import opened Report
  import opened ReportFacts

  /** The generation date comes from the report and parses, so the clock does not enter the run. */
  predicate DateFromContent(root: Element, hooks: Hooks) {
    && FindText(root, "GenerationDate") != ""
    && hooks.toUtc(RewriteFractionAsWritten(FindText(root, "GenerationDate"))).Some?
  }

  /** With the date in the report, the run header does not depend on when the report is processed. */
  lemma RunInfoIgnoresClock(root: Element, xmlText: string, rawKey: string, hooks: Hooks, ctx: Context, now1: string, now2: string, loaded: Loaded)
    requires DateFromContent(root, hooks)
    ensures RunInfoOf(root, xmlText, rawKey, hooks, ctx, now1, loaded) == RunInfoOf(root, xmlText, rawKey, hooks, ctx, now2, loaded)
  {
  }

  /**
   * The keys a report writes depend on its content alone: neither the clock,
   * nor the raw object's key, nor the loaded pack changes them.
   */
  lemma ReplaySameKeys(root: Element, xmlText: string, hooks: Hooks, ctx: Context,
                       rawKey1: string, now1: string, loaded1: Loaded, rawKey2: string, now2: string, loaded2: Loaded)
    requires DateFromContent(root, hooks)
    ensures var ws1 := ReportPlan(root, xmlText, rawKey1, hooks, ctx, now1, loaded1).1;
      var ws2 := ReportPlan(root, xmlText, rawKey2, hooks, ctx, now2, loaded2).1;
      ItemKeys(ws1) == ItemKeys(ws2) && ObjectKeys(ws1) == ObjectKeys(ws2)
  {
    var rows := ReportRows(root);
    if rows != [] {
      var info1 := RunInfoOf(root, xmlText, rawKey1, hooks, ctx, now1, loaded1);
      var info2 := RunInfoOf(root, xmlText, rawKey2, hooks, ctx, now2, loaded2);
      assert info1.runId == info2.runId && info1.generationDateUtc == info2.generationDateUtc;
      RunKeys(hooks, info1, loaded1.rules, rows, ctx.curatedBucket);
      RunKeys(hooks, info2, loaded2.rules, rows, ctx.curatedBucket);
    }
  }

  /**
   * A report processed twice gives the same response both times, and all of
   * its objects go to the curated bucket.
   */
  lemma ReplaySameOutcome(root: Element, xmlText: string, hooks: Hooks, ctx: Context,
                          rawKey1: string, now1: string, loaded1: Loaded, rawKey2: string, now2: string, loaded2: Loaded)
    ensures var p1 := ReportPlan(root, xmlText, rawKey1, hooks, ctx, now1, loaded1);
      var p2 := ReportPlan(root, xmlText, rawKey2, hooks, ctx, now2, loaded2);
      && p1.0 == p2.0
      && forall k :: k in ObjectKeys(p1.1) ==> k.0 == ctx.curatedBucket
  {
    NoRowsNoWrites(root, xmlText, rawKey1, hooks, ctx, now1, loaded1);
    NoRowsNoWrites(root, xmlText, rawKey2, hooks, ctx, now2, loaded2);
    var rows := ReportRows(root);
    if rows != [] {
      RunKeys(hooks, RunInfoOf(root, xmlText, rawKey1, hooks, ctx, now1, loaded1), loaded1.rules, rows, ctx.curatedBucket);
    }
  }

  /** No report key is the latest rules pointer's key: the partition keys differ in their first letter. */
  lemma RunKeysMissLatest(hooks: Hooks, info: RunInfo, rules: map<string, Rule>, rows: seq<Row>, curatedBucket: string)
    ensures (RulesPk, LatestSk) !in ItemKeys(RunWrites(hooks, info, rules, rows, curatedBucket))
  {
    RunKeys(hooks, info, rules, rows, curatedBucket);
    RowKeysMissLatest(hooks, info.runId, rows);
    assert RulesPk[0] == 'P';
    assert RunPk(info.runId)[0] == 'R' && RunsPk[0] == 'R';
  }

  lemma RowKeysMissLatest(hooks: Hooks, runId: string, rows: seq<Row>)
    ensures (RulesPk, LatestSk) !in FindingKeys(hooks, runId, rows)
    ensures (RulesPk, LatestSk) !in IndexKeys(hooks, runId, rows)
  {
    assert RulesPk[0] == 'P';
    assert RunPk(runId)[0] == 'R';
    forall r | r in rows
      ensures FindingPk(FindingId(hooks, runId, r.riskId))[0] == 'F'
    {
    }
  }

  /** The snapshot key is not under the rules prefix: `runs/` and `rules/` differ at their third letter. */
  lemma SnapshotNotUnderRules(runId: string, key: string)
    requires |key| >= |RulesPrefix| && key[..|RulesPrefix|] == RulesPrefix
    ensures SnapshotKey(runId) != key
  {
    var i := |CuratedRoot| + 2;
    assert key[i] == key[..|RulesPrefix|][i] == RulesPrefix[i] == 'l';
    assert SnapshotKey(runId)[i] == RunsPrefix[i] == 'n';
  }

  /** The load reads only the latest item and the object it names. */
  lemma LoadReadsPointer(s: StoreState, t: StoreState, curatedBucket: string, fails: bool)
    requires (RulesPk, LatestSk) in s.items <==> (RulesPk, LatestSk) in t.items
    requires (RulesPk, LatestSk) in s.items ==> t.items[(RulesPk, LatestSk)] == s.items[(RulesPk, LatestSk)]
    requires (RulesPk, LatestSk) in s.items && PointerOf(s.items[(RulesPk, LatestSk)]).1.Some? ==>
      var k := (curatedBucket, PointerOf(s.items[(RulesPk, LatestSk)]).1.value);
      (k in s.objects <==> k in t.objects) && (k in s.objects ==> t.objects[k] == s.objects[k])
    ensures LoadLatest(t, curatedBucket, fails) == LoadLatest(s, curatedBucket, fails)
  {
  }

  /** Processing a report leaves what the next load finds as it was. */
  lemma ReportKeepsLatest(s: StoreState, hooks: Hooks, info: RunInfo, rules: map<string, Rule>, rows: seq<Row>, curatedBucket: string, fails: bool)
    requires LatestUnderRules(s)
    ensures LoadLatest(ApplyWrites(s, RunWrites(hooks, info, rules, rows, curatedBucket)), curatedBucket, fails)
      == LoadLatest(s, curatedBucket, fails)
  {
    var ws := RunWrites(hooks, info, rules, rows, curatedBucket);
    var t := ApplyWrites(s, ws);
    RunKeysMissLatest(hooks, info, rules, rows, curatedBucket);
    ItemUntouched(s, ws, (RulesPk, LatestSk));
    if (RulesPk, LatestSk) in s.items && PointerOf(s.items[(RulesPk, LatestSk)]).1.Some? {
      var ck := PointerOf(s.items[(RulesPk, LatestSk)]).1.value;
      RunKeys(hooks, info, rules, rows, curatedBucket);
      SnapshotNotUnderRules(info.runId, ck);
      ObjectUntouched(s, ws, (curatedBucket, ck));
    }
    LoadReadsPointer(s, t, curatedBucket, fails);
  }

  /** The store after the report is processed once against `s`, at time `now`. */
  function ProcessedOnce(s: StoreState, root: Element, xmlText: string, rawKey: string, hooks: Hooks, ctx: Context, now: string, fails: bool): StoreState {
    ApplyWrites(s, ReportPlan(root, xmlText, rawKey, hooks, ctx, now, LoadLatest(s, ctx.curatedBucket, fails)).1)
  }

  /**
   * Replaying a report converges: processing the same report again, at any
   * later time, leaves the store exactly as the first processing left it,
   * provided the generation date comes from the report and the latest pointer
   * names a key under the rules prefix (as processing a rules catalog leaves it).
   */
  lemma ReportReplayConverges(s: StoreState, root: Element, xmlText: string, rawKey: string, hooks: Hooks, ctx: Context,
                              now1: string, now2: string, fails: bool)
    requires LatestUnderRules(s)
    requires DateFromContent(root, hooks)
    ensures var t := ProcessedOnce(s, root, xmlText, rawKey, hooks, ctx, now1, fails);
      ProcessedOnce(t, root, xmlText, rawKey, hooks, ctx, now2, fails) == t
  {
    var loaded := LoadLatest(s, ctx.curatedBucket, fails);
    var ws := ReportPlan(root, xmlText, rawKey, hooks, ctx, now1, loaded).1;
    var t := ApplyWrites(s, ws);
    var rows := ReportRows(root);
    if rows != [] {
      var info := RunInfoOf(root, xmlText, rawKey, hooks, ctx, now1, loaded);
      ReportKeepsLatest(s, hooks, info, loaded.rules, rows, ctx.curatedBucket, fails);
      RunInfoIgnoresClock(root, xmlText, rawKey, hooks, ctx, now1, now2, loaded);
    }
    assert LoadLatest(t, ctx.curatedBucket, fails) == loaded;
    assert ReportPlan(root, xmlText, rawKey, hooks, ctx, now2, loaded).1 == ws;
    ApplyWritesIdempotent(s, ws);
  }

  /** The run's UTC generation date when the report is processed at time `now`. */
  function UtcDateAt(root: Element, hooks: Hooks, now: string): string {
    ParseIsoToUtc(GenerationDateOf(root, now), hooks.toUtc, now)
  }

  /** Two run index sort keys of one run are equal only when their dates are. */
  lemma RunIndexSkDate(d: string, g: string, id: string)
    ensures RunIndexSk(d, id) == RunIndexSk(g, id) ==> d == g
  {
    var w := "#RUN#" + id;
    assert RunIndexSk(d, id) == d + w && RunIndexSk(g, id) == g + w;
    if d + w == g + w {
      assert d == (d + w)[..|d|];
      assert g == (g + w)[..|g|];
    }
  }

  /** A run's partition key is not the run index's: they differ at their fourth letter. */
  lemma RunPkNotRunsPk(id: string)
    ensures RunPk(id) != RunsPk
  {
    assert RunPk(id)[3] == '#' && RunsPk[3] == 'S';
  }

  /** No finding or index key of a run is a run index key. */
  lemma RowKeysMissRunIndex(hooks: Hooks, id: string, rows: seq<Row>, sk: string)
    ensures (RunsPk, sk) !in FindingKeys(hooks, id, rows) + IndexKeys(hooks, id, rows)
  {
    RunPkNotRunsPk(id);
    forall r | r in rows
      ensures FindingPk(FindingId(hooks, id, r.riskId))[0] == 'F'
    {
    }
  }

  /** Among a run's record key, its index key and other keys, a run index key is found only for the run's date. */
  lemma RunIndexAmongRunKeys(id: string, g: string, d: string, rest: set<(string, string)>)
    requires (RunsPk, RunIndexSk(d, id)) !in rest
    ensures (RunsPk, RunIndexSk(d, id)) in {(RunPk(id), MetaSk), (RunsPk, RunIndexSk(g, id))} + rest <==> d == g
  {
    RunIndexSkDate(d, g, id);
    RunPkNotRunsPk(id);
  }

  /** A run writes the run index entry for its own UTC date and for no other. */
  lemma RunIndexOnlyForItsDate(hooks: Hooks, info: RunInfo, rules: map<string, Rule>, rows: seq<Row>, curatedBucket: string, d: string)
    ensures (RunsPk, RunIndexSk(d, info.runId)) in ItemKeys(RunWrites(hooks, info, rules, rows, curatedBucket))
      <==> d == info.generationDateUtc
  {
    RunKeys(hooks, info, rules, rows, curatedBucket);
    RowKeysMissRunIndex(hooks, info.runId, rows, RunIndexSk(d, info.runId));
    RunIndexAmongRunKeys(info.runId, info.generationDateUtc, d, FindingKeys(hooks, info.runId, rows) + IndexKeys(hooks, info.runId, rows));
  }

  /**
   * Without a report date the clock enters the run: when the two processings
   * see different UTC dates, the second one writes a run index entry the
   * first did not, so a redelivered report leaves two `RUNS#pingcastle`
   * entries for one run and the store does not converge.
   */
  lemma ClockDateAddsRunIndex(s: StoreState, root: Element, xmlText: string, rawKey: string, hooks: Hooks, ctx: Context,
                              now1: string, now2: string, fails: bool)
    requires ReportRows(root) != []
    requires UtcDateAt(root, hooks, now1) != UtcDateAt(root, hooks, now2)
    requires (RunsPk, RunIndexSk(UtcDateAt(root, hooks, now2), RunId(hooks, xmlText))) !in s.items
    ensures var t := ProcessedOnce(s, root, xmlText, rawKey, hooks, ctx, now1, fails);
      var u := ProcessedOnce(t, root, xmlText, rawKey, hooks, ctx, now2, fails);
      && (RunsPk, RunIndexSk(UtcDateAt(root, hooks, now1), RunId(hooks, xmlText))) in u.items
      && (RunsPk, RunIndexSk(UtcDateAt(root, hooks, now2), RunId(hooks, xmlText))) in u.items
      && u != t
  {
    var rows, id := ReportRows(root), RunId(hooks, xmlText);
    var loaded1 := LoadLatest(s, ctx.curatedBucket, fails);
    var info1 := RunInfoOf(root, xmlText, rawKey, hooks, ctx, now1, loaded1);
    var ws1 := RunWrites(hooks, info1, loaded1.rules, rows, ctx.curatedBucket);
    assert ReportPlan(root, xmlText, rawKey, hooks, ctx, now1, loaded1).1 == ws1;
    var t := ApplyWrites(s, ws1);
    var loaded2 := LoadLatest(t, ctx.curatedBucket, fails);
    var info2 := RunInfoOf(root, xmlText, rawKey, hooks, ctx, now2, loaded2);
    var ws2 := RunWrites(hooks, info2, loaded2.rules, rows, ctx.curatedBucket);
    assert ReportPlan(root, xmlText, rawKey, hooks, ctx, now2, loaded2).1 == ws2;
    var d1, d2 := info1.generationDateUtc, info2.generationDateUtc;
    assert d1 == UtcDateAt(root, hooks, now1) && d2 == UtcDateAt(root, hooks, now2);
    assert info1.runId == id && info2.runId == id;
    RunIndexOnlyForItsDate(hooks, info1, loaded1.rules, rows, ctx.curatedBucket, d1);
    RunIndexOnlyForItsDate(hooks, info1, loaded1.rules, rows, ctx.curatedBucket, d2);
    RunIndexOnlyForItsDate(hooks, info2, loaded2.rules, rows, ctx.curatedBucket, d2);
    KeysAfterWrites(s, ws1);
    KeysAfterWrites(t, ws2);
    assert (RunsPk, RunIndexSk(d2, id)) !in t.items;
  }

  /**
   * A report whose date the parser rejects takes the clock as its UTC date,
   * so redelivering it at another time adds a run index entry.
   */
  lemma UnparsedDateAddsRunIndex(s: StoreState, root: Element, xmlText: string, rawKey: string, hooks: Hooks, ctx: Context,
                                 now1: string, now2: string, fails: bool)
    requires ReportRows(root) != []
    requires FindText(root, "GenerationDate") != ""
    requires hooks.toUtc(RewriteFractionAsWritten(FindText(root, "GenerationDate"))).None?
    requires now1 != now2
    requires (RunsPk, RunIndexSk(now2, RunId(hooks, xmlText))) !in s.items
    ensures var t := ProcessedOnce(s, root, xmlText, rawKey, hooks, ctx, now1, fails);
      ProcessedOnce(t, root, xmlText, rawKey, hooks, ctx, now2, fails) != t
  {
    assert UtcDateAt(root, hooks, now1) == now1 && UtcDateAt(root, hooks, now2) == now2;
    ClockDateAddsRunIndex(s, root, xmlText, rawKey, hooks, ctx, now1, now2, fails);
  }
}
