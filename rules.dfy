/**
 * `parse_rules_catalog` and `process_rules_catalog`: the rules of a PingCastle
 * rules catalog by risk id, and the four puts that publish them as a
 * content-addressed pack with a `latest` pointer in both stores.
 */
module RulesCatalog {
  import opened Wrappers
  import opened Text
  import opened Xml
  import opened Records
  import opened Storage
  import opened Env

  /** The stripped `RiskId` text of an `ExportedRule` element. */
  function RiskIdOf(e: Element): string {
    GetText(e, "RiskId")
  }

  /** The rule an `ExportedRule` element describes: each field is the stripped text of its child. */
  function RuleOf(e: Element): (r: Rule)
    ensures r.riskId == RiskIdOf(e)
  {
    Rule(
      GetText(e, "RiskId"), GetText(e, "Title"), GetText(e, "Description"), GetText(e, "Solution"),
      GetText(e, "Documentation"), GetText(e, "TechnicalExplanation"), GetText(e, "Category"),
      GetText(e, "Model"), GetText(e, "Type"), GetText(e, "MaturityLevel"))
  }

  /**
   * The map a loop builds from `es`, in order, putting `val(e)` under
   * `key(e)`: elements with an empty key are skipped and a later element
   * overwrites an earlier one with the same key.
   */
  function Keyed<T, V>(es: seq<T>, key: T -> string, val: T -> V): map<string, V>
    decreases |es|
  {
    if es == [] then map[]
    else
      var m := Keyed(es[..|es| - 1], key, val);
      var e := es[|es| - 1];
      if key(e) == "" then m else m[key(e) := val(e)]
  }

  /** One more element: the map of the prefix, updated with that element unless its key is empty. */
  lemma KeyedSnoc<T, V>(es: seq<T>, key: T -> string, val: T -> V, i: nat)
    requires i < |es|
    ensures Keyed(es[..i + 1], key, val)
      == if key(es[i]) == "" then Keyed(es[..i], key, val) else Keyed(es[..i], key, val)[key(es[i]) := val(es[i])]
  {
    assert es[..i + 1][..i] == es[..i];
  }

  lemma {:induction false} KeyedComplete<T, V>(es: seq<T>, key: T -> string, val: T -> V, i: nat)
    requires i < |es| && key(es[i]) != ""
    ensures key(es[i]) in Keyed(es, key, val)
    decreases |es|
  {
    if i < |es| - 1 {
      var init := es[..|es| - 1];
      assert init[i] == es[i];
      KeyedComplete(init, key, val, i);
    }
  }

  lemma {:induction false} KeyedSound<T, V>(es: seq<T>, key: T -> string, val: T -> V, k: string) returns (i: nat)
    requires k in Keyed(es, key, val)
    ensures i < |es| && key(es[i]) == k && k != "" && Keyed(es, key, val)[k] == val(es[i])
    decreases |es|
  {
    var init := es[..|es| - 1];
    if k == key(es[|es| - 1]) && k != "" {
      i := |es| - 1;
    } else {
      i := KeyedSound(init, key, val, k);
      assert init[i] == es[i];
    }
  }

  lemma {:induction false} KeyedLastWins<T, V>(es: seq<T>, key: T -> string, val: T -> V, i: nat)
    requires i < |es| && key(es[i]) != ""
    requires forall j :: i < j < |es| ==> key(es[j]) != key(es[i])
    ensures key(es[i]) in Keyed(es, key, val) && Keyed(es, key, val)[key(es[i])] == val(es[i])
    decreases |es|
  {
    if i < |es| - 1 {
      var init := es[..|es| - 1];
      assert init[i] == es[i];
      KeyedLastWins(init, key, val, i);
    }
  }

  /** The catalog the loop builds from `ExportedRule` elements, keyed by risk id. */
  function RulesOf(es: seq<Element>): map<string, Rule> {
    Keyed(es, RiskIdOf, RuleOf)
  }

  /** The catalog of a (normalized) root: its direct `ExportedRule` children. */
  function CatalogOf(root: Element): map<string, Rule> {
    RulesOf(FindAll(root, "ExportedRule"))
  }

  /** `parse_rules_catalog`: the loop over `root.findall("ExportedRule")` filling `out`. */
  method ParseRulesCatalog(root: Element) returns (out: map<string, Rule>)
    ensures out == CatalogOf(root)
  {
    var es := FindAll(root, "ExportedRule");
    out := map[];
    var i := 0;
    while i < |es|
      invariant 0 <= i <= |es|
      invariant out == RulesOf(es[..i])
    {
      KeyedSnoc(es, RiskIdOf, RuleOf, i);
      var riskId := GetText(es[i], "RiskId");
      if riskId != "" {
        out := out[riskId := RuleOf(es[i])];
      }
      i := i + 1;
    }
    assert es[..i] == es;
  }

  /** Every key is non-empty and its rule carries it as `riskId`. */
  lemma RulesCarryTheirKey(es: seq<Element>)
    ensures forall k :: k in RulesOf(es) ==> k != "" && RulesOf(es)[k].riskId == k
  {
    forall k | k in RulesOf(es)
      ensures k != "" && RulesOf(es)[k].riskId == k
    {
      var i := KeyedSound(es, RiskIdOf, RuleOf, k);
    }
  }

  /** The keys are exactly the non-empty risk ids of the elements. */
  lemma RulesKeys(es: seq<Element>)
    ensures forall k :: k in RulesOf(es) <==> k != "" && exists i :: 0 <= i < |es| && RiskIdOf(es[i]) == k
  {
    forall k | k in RulesOf(es)
      ensures k != "" && exists i :: 0 <= i < |es| && RiskIdOf(es[i]) == k
    {
      var i := KeyedSound(es, RiskIdOf, RuleOf, k);
      assert RiskIdOf(es[i]) == k;
    }
    forall i | 0 <= i < |es| && RiskIdOf(es[i]) != ""
      ensures RiskIdOf(es[i]) in RulesOf(es)
    {
      KeyedComplete(es, RiskIdOf, RuleOf, i);
    }
  }

  /** Among elements with the same risk id, the last one is the rule kept. */
  lemma LaterDuplicateWins(es: seq<Element>, i: nat)
    requires i < |es| && RiskIdOf(es[i]) != ""
    requires forall j :: i < j < |es| ==> RiskIdOf(es[j]) != RiskIdOf(es[i])
    ensures RiskIdOf(es[i]) in RulesOf(es) && RulesOf(es)[RiskIdOf(es[i])] == RuleOf(es[i])
  {
    KeyedLastWins(es, RiskIdOf, RuleOf, i);
  }

  // ---------------------------------------------------------------------------
  // process_rules_catalog
  // ---------------------------------------------------------------------------

  const RulesPrefix := CuratedRoot + "rules/"
  const LatestKey := RulesPrefix + "latest.json"
  const RulesPk := "PINGCASTLE#RULES"
  const LatestSk := "LATEST"

  /** Where the pack with content hash `packId` is stored. */
  function PackKey(packId: string): string {
    RulesPrefix + "packId=" + packId + "/rules.json"
  }

  function PackSk(packId: string): string {
    "PACK#" + packId
  }

  /** No pack key is the latest pointer's key: they differ right after the common prefix. */
  lemma PackKeyIsNotLatestKey(packId: string)
    ensures PackKey(packId) != LatestKey
  {
    assert PackKey(packId)[|RulesPrefix|] == 'p';
    assert LatestKey[|RulesPrefix|] == 'l';
  }

  /**
   * The four puts in order: the pack document, the latest document, the pack
   * item and the latest item, all stamped with `now` and the rule count.
   */
  function RulesCatalogWrites(rules: map<string, Rule>, xmlText: string, rawKey: string, hooks: Hooks, ctx: Context, now: string): seq<Write> {
    var packId := hooks.sha256Hex(xmlText);
    var curatedKey := PackKey(packId);
    var n := |rules|;
    [ PutObject(ctx.curatedBucket, curatedKey, RulesPackDoc(packId, now, rawKey, n, rules)),
      PutObject(ctx.curatedBucket, LatestKey, LatestDoc(packId, curatedKey, now, n)),
      PutItem(RulesPk, PackSk(packId), RulesPackItem(packId, curatedKey, now, n, rawKey)),
      PutItem(RulesPk, LatestSk, RulesLatestItem(packId, curatedKey, now, n)) ]
  }

  /**
   * After the four puts, the store holds the pack and the latest pointer under
   * keys determined by the catalog text alone, both records counting the rules;
   * every other key is as before.
   */
  lemma RulesCatalogEffect(s: StoreState, rules: map<string, Rule>, xmlText: string, rawKey: string, hooks: Hooks, ctx: Context, now: string)
    ensures var t := ApplyWrites(s, RulesCatalogWrites(rules, xmlText, rawKey, hooks, ctx, now));
      var packId := hooks.sha256Hex(xmlText);
      var curatedKey := PackKey(packId);
      && t.objects == s.objects[(ctx.curatedBucket, curatedKey) := RulesPackDoc(packId, now, rawKey, |rules|, rules)]
                               [(ctx.curatedBucket, LatestKey) := LatestDoc(packId, curatedKey, now, |rules|)]
      && t.items == s.items[(RulesPk, PackSk(packId)) := RulesPackItem(packId, curatedKey, now, |rules|, rawKey)]
                           [(RulesPk, LatestSk) := RulesLatestItem(packId, curatedKey, now, |rules|)]
  {
    var ws := RulesCatalogWrites(rules, xmlText, rawKey, hooks, ctx, now);
    var s1 := ApplyWrite(s, ws[0]);
    var s2 := ApplyWrite(s1, ws[1]);
    var s3 := ApplyWrite(s2, ws[2]);
    var s4 := ApplyWrite(s3, ws[3]);
    assert ws[1..][0] == ws[1] && ws[1..][1..] == ws[2..];
    assert ws[2..][0] == ws[2] && ws[2..][1..] == ws[3..];
    assert ws[3..][0] == ws[3] && ws[3..][1..] == [];
    assert ApplyWrites(s3, ws[3..]) == s4;
    assert ApplyWrites(s2, ws[2..]) == s4;
    assert ApplyWrites(s1, ws[1..]) == s4;
  }

  /** The keys the catalog writes: the pack and the latest item, the pack and the latest document. */
  lemma RulesCatalogKeys(rules: map<string, Rule>, xmlText: string, rawKey: string, hooks: Hooks, ctx: Context, now: string)
    ensures var ws := RulesCatalogWrites(rules, xmlText, rawKey, hooks, ctx, now);
      var packId := hooks.sha256Hex(xmlText);
      && ItemKeys(ws) == {(RulesPk, PackSk(packId)), (RulesPk, LatestSk)}
      && ObjectKeys(ws) == {(ctx.curatedBucket, PackKey(packId)), (ctx.curatedBucket, LatestKey)}
  {
    var ws := RulesCatalogWrites(rules, xmlText, rawKey, hooks, ctx, now);
    KeysOfObjectsThenItems(ws[0], ws[1], ws[2], ws[3]);
    assert ws == [ws[0], ws[1], ws[2], ws[3]];
  }

  lemma PackSkIsNotLatestSk(packId: string)
    ensures PackSk(packId) != LatestSk
  {
    assert PackSk(packId)[0] == "PACK#"[0] == 'P';
    assert LatestSk[0] == 'L';
  }

  /** `process_rules_catalog`: the catalog of the normalized root, then its four puts. */
  method ProcessRulesCatalog(store: Store, root: Element, xmlText: string, rawKey: string, hooks: Hooks, ctx: Context, now: string)
    returns (resp: Response)
    modifies store
    ensures store.State() == ApplyWrites(old(store.State()), RulesCatalogWrites(CatalogOf(root), xmlText, rawKey, hooks, ctx, now))
    ensures resp == Response(200, WithPackId("Rules catalog processed", hooks.sha256Hex(xmlText)))
  {
    var rules := ParseRulesCatalog(root);
    store.PutAll(RulesCatalogWrites(rules, xmlText, rawKey, hooks, ctx, now));
    resp := Response(200, WithPackId("Rules catalog processed", hooks.sha256Hex(xmlText)));
  }
}
