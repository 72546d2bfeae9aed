/**
 * `load_latest_rules_pack`: the latest rules pointer from the table, then the
 * pack it names from the curated bucket. Every failure gives no pack id and
 * no rules, except a pointer without a curated key, which keeps its pack id.
 */
module LatestPack {
  import opened Wrappers
  import opened Records
  import opened Storage
  import opened Env
  import opened RulesCatalog

  datatype Loaded = Loaded(packId: Option<string>, rules: map<string, Rule>)

  const NothingLoaded := Loaded(None, map[])

  /** `item.get("packId")` and `item.get("curatedS3Key")`: only the two rules records have them. */
  function PointerOf(it: Item): (Option<string>, Option<string>) {
    match it
    case RulesPackItem(packId, curatedKey, _, _, _) => (Some(packId), Some(curatedKey))
    case RulesLatestItem(packId, curatedKey, _, _) => (Some(packId), Some(curatedKey))
    case _ => (None, None)
  }

  /**
   * The outcome read from state `s`. `fails` stands for an exception of the
   * storage client, which the source catches like every other failure.
   * A document other than a rules pack has no `rulesByRiskId`; an uploaded
   * text is not a JSON document and cannot be decoded.
   */
  function LoadLatest(s: StoreState, curatedBucket: string, fails: bool): (r: Loaded)
    ensures fails || (RulesPk, LatestSk) !in s.items ==> r == NothingLoaded
    ensures r.packId.Some? ==> (RulesPk, LatestSk) in s.items && r.packId == PointerOf(s.items[(RulesPk, LatestSk)]).0
    ensures r.rules != map[] ==> (
      && (RulesPk, LatestSk) in s.items
      && var key := PointerOf(s.items[(RulesPk, LatestSk)]).1;
      && key.Some?
      && (curatedBucket, key.value) in s.objects
      && s.objects[(curatedBucket, key.value)].RulesPackDoc?
      && r.rules == s.objects[(curatedBucket, key.value)].rules)
    ensures !fails && (RulesPk, LatestSk) in s.items ==>
      var (packId, key) := PointerOf(s.items[(RulesPk, LatestSk)]);
      key in {None, Some("")} ==> r == Loaded(packId, map[])
    ensures !fails && (RulesPk, LatestSk) in s.items ==>
      var key := PointerOf(s.items[(RulesPk, LatestSk)]).1;
      key.Some? && key.value != "" && ((curatedBucket, key.value) !in s.objects || s.objects[(curatedBucket, key.value)].Blob?) ==>
        r == NothingLoaded
    ensures !fails && (RulesPk, LatestSk) in s.items ==>
      var (packId, key) := PointerOf(s.items[(RulesPk, LatestSk)]);
      key.Some? && key.value != "" && (curatedBucket, key.value) in s.objects && s.objects[(curatedBucket, key.value)].RulesPackDoc? ==>
        r == Loaded(packId, s.objects[(curatedBucket, key.value)].rules)
    ensures !fails && (RulesPk, LatestSk) in s.items ==>
      var (packId, key) := PointerOf(s.items[(RulesPk, LatestSk)]);
      key.Some? && key.value != "" && (curatedBucket, key.value) in s.objects
        && !s.objects[(curatedBucket, key.value)].RulesPackDoc? && !s.objects[(curatedBucket, key.value)].Blob? ==>
        r == Loaded(packId, map[])
  {
    if fails || (RulesPk, LatestSk) !in s.items then NothingLoaded
    else
      var (packId, curatedKey) := PointerOf(s.items[(RulesPk, LatestSk)]);
      if curatedKey == None || curatedKey == Some("") then Loaded(packId, map[])
      else if (curatedBucket, curatedKey.value) !in s.objects then NothingLoaded
      else
        match s.objects[(curatedBucket, curatedKey.value)]
        case RulesPackDoc(_, _, _, _, rules) => Loaded(packId, rules)
        case Blob(_) => NothingLoaded
        case _ => Loaded(packId, map[])
  }

  /** The load as a read of the store. */
  method LoadLatestRulesPack(store: Store, curatedBucket: string, fails: bool) returns (r: Loaded)
    ensures r == LoadLatest(store.State(), curatedBucket, fails)
  {
    if fails {
      return NothingLoaded;
    }
    var item := store.GetItem(RulesPk, LatestSk);
    if item.None? {
      return NothingLoaded;
    }
    var (packId, curatedKey) := PointerOf(item.value);
    if curatedKey == None || curatedKey == Some("") {
      return Loaded(packId, map[]);
    }
    var obj := store.GetObject(curatedBucket, curatedKey.value);
    if obj.None? {
      return NothingLoaded;
    }
    match obj.value {
      case RulesPackDoc(_, _, _, _, rules) => r := Loaded(packId, rules);
      case Blob(_) => r := NothingLoaded;
      case _ => r := Loaded(packId, map[]);
    }
  }

  /**
   * Round trip: after a rules catalog is processed into the curated bucket,
   * the load (when the storage does not fail) finds exactly that pack id and
   * that catalog, whatever the store held before.
   */
  lemma CatalogThenLoad(s: StoreState, rules: map<string, Rule>, xmlText: string, rawKey: string, hooks: Hooks, ctx: Context, now: string)
    ensures LoadLatest(ApplyWrites(s, RulesCatalogWrites(rules, xmlText, rawKey, hooks, ctx, now)), ctx.curatedBucket, false)
      == Loaded(Some(hooks.sha256Hex(xmlText)), rules)
  {
    RulesCatalogEffect(s, rules, xmlText, rawKey, hooks, ctx, now);
    PackKeyIsNotLatestKey(hooks.sha256Hex(xmlText));
    PackKeyNotEmpty(hooks.sha256Hex(xmlText));
  }

  lemma PackKeyNotEmpty(packId: string)
    ensures PackKey(packId) != ""
  {
    assert |PackKey(packId)| >= |RulesPrefix|;
  }

  /** The latest pointer, where there is one, names a key under the rules prefix. */
  predicate LatestUnderRules(s: StoreState) {
    (RulesPk, LatestSk) in s.items ==>
      var ck := PointerOf(s.items[(RulesPk, LatestSk)]).1;
      ck.Some? ==> |ck.value| >= |RulesPrefix| && ck.value[..|RulesPrefix|] == RulesPrefix
  }

  /** Processing a rules catalog leaves a pointer under the rules prefix. */
  lemma CatalogPointerUnderRules(s: StoreState, rules: map<string, Rule>, xmlText: string, rawKey: string, hooks: Hooks, ctx: Context, now: string)
    ensures LatestUnderRules(ApplyWrites(s, RulesCatalogWrites(rules, xmlText, rawKey, hooks, ctx, now)))
  {
    RulesCatalogEffect(s, rules, xmlText, rawKey, hooks, ctx, now);
    var k := PackKey(hooks.sha256Hex(xmlText));
    assert k[..|RulesPrefix|] == RulesPrefix;
  }
}
