/**
 * The records the ingestion handler writes: documents put into object storage
 * and items put into the single table keyed by `(pk, sk)`, the ASFF finding
 * they carry, and the state of both stores with the rule that a later put
 * under the same key overwrites an earlier one.
 */
module Records {
  import opened Wrappers
  import opened Severity

  const SchemaVersion := "v0.1"
  const AsffSchemaVersion := "2018-10-08"
  const GeneratorId := "ad-cyberwatch.ai/pingcastle"
  const FindingType := "Software and Configuration Checks/Vulnerabilities"
  const Source := "pingcastle"

  /** The common prefix of every curated object the handler writes. */
  const CuratedRoot := "curated/pingcastle/"

  /** One entry of the rules catalog, every field a stripped text (possibly empty). */
  datatype Rule = Rule(
    riskId: string,
    title: string,
    description: string,
    solution: string,
    documentation: string,
    technicalExplanation: string,
    category: string,
    model: string,
    ruleType: string,
    maturityLevel: string)

  /** One `HealthcheckRiskRule` of a report. */
  datatype Row = Row(riskId: string, category: string, model: string, points: string, rationale: string)

  /** The five severity counters of a run. */
  datatype Stats = Stats(critical: nat, high: nat, medium: nat, low: nat, informational: nat)

  const NoStats := Stats(0, 0, 0, 0, 0)

  function StatOf(s: Stats, l: Label): nat {
    match l
    case Critical => s.critical
    case High => s.high
    case Medium => s.medium
    case Low => s.low
    case Informational => s.informational
  }

  function Total(s: Stats): nat {
    s.critical + s.high + s.medium + s.low + s.informational
  }

  /** `stats[label] += 1`. */
  function Bump(s: Stats, l: Label): Stats {
    match l
    case Critical => s.(critical := s.critical + 1)
    case High => s.(high := s.high + 1)
    case Medium => s.(medium := s.medium + 1)
    case Low => s.(low := s.low + 1)
    case Informational => s.(informational := s.informational + 1)
  }

  /** One increment: the counter of `l` goes up by one, the others stay, and the total grows by one. */
  lemma BumpSpec(s: Stats, l: Label)
    ensures StatOf(Bump(s, l), l) == StatOf(s, l) + 1
    ensures forall m :: m != l ==> StatOf(Bump(s, l), m) == StatOf(s, m)
    ensures Total(Bump(s, l)) == Total(s) + 1
  {
  }

  /** The `Severity` block of a finding: label, normalized score, and the points text as given. */
  datatype AsffSeverity = AsffSeverity(level: string, normalized: int, original: string)

  /** The `ProductFields` of a finding (the fixed `adcyberwatch.source` is `Source`). */
  datatype ProductFields = ProductFields(
    runId: string,
    domain: string,
    generationDate: string,
    generationDateUtc: string,
    rawKey: string,
    riskId: string,
    category: string,
    model: string,
    points: string,
    rationale: string,
    rulesPackId: string)

  /**
   * The minimal ASFF finding. Its fixed parts are constants of this module:
   * schema version, generator, type, and a single resource of type `Other`
   * in partition `aws` whose id is `resourceId` and whose detail is the domain.
   * `remediation` is the `Remediation.Recommendation.Text`, when there is one.
   */
  datatype Asff = Asff(
    id: string,
    productArn: string,
    awsAccountId: string,
    createdAt: string,
    updatedAt: string,
    severity: AsffSeverity,
    title: string,
    description: string,
    resourceId: string,
    resourceDomain: string,
    fields: ProductFields,
    remediation: Option<string>)

  /** A table item; its `pk` and `sk` are the key it is stored under. */
  datatype Item =
    | RulesPackItem(packId: string, curatedKey: string, updatedAt: string, ruleCount: nat, rawKey: string)
    | RulesLatestItem(packId: string, curatedKey: string, updatedAt: string, ruleCount: nat)
    | RunItem(
        runId: string, domain: string, generationDate: string, generationDateUtc: string,
        createdAt: string, rawKey: string, rulesPackId: string, findingCount: nat, stats: Stats)
    | RunIndexItem(runId: string, domain: string, generationDateUtc: string, generationDate: string, findingCount: nat)
    | FindingItem(
        runId: string, findingId: string, domain: string, riskId: string,
        severityLabel: string, title: string, asff: Asff)
    | FindingIndexItem(
        runId: string, findingId: string, domain: string, riskId: string,
        severityLabel: string, title: string, asff: Asff)

  /** The `entityType` attribute of each kind of item. */
  function EntityType(it: Item): string {
    match it
    case RulesPackItem(_, _, _, _, _) => "RULES_PACK"
    case RulesLatestItem(_, _, _, _) => "RULES_LATEST"
    case RunItem(_, _, _, _, _, _, _, _, _) => "RUN"
    case RunIndexItem(_, _, _, _, _) => "RUN_INDEX"
    case FindingItem(_, _, _, _, _, _, _) => "FINDING"
    case FindingIndexItem(_, _, _, _, _, _, _) => "FINDING_INDEX"
  }

  /** An object in a bucket: uploaded text, or one of the JSON documents the handler writes. */
  datatype Payload =
    | Blob(text: string)
    | RulesPackDoc(packId: string, ingestedAt: string, rawKey: string, ruleCount: nat, rules: map<string, Rule>)
    | LatestDoc(packId: string, curatedKey: string, updatedAt: string, ruleCount: nat)
    | RunDoc(
        runId: string, domain: string, generationDate: string, generationDateUtc: string,
        rawKey: string, rulesPackId: string, findingCount: nat, stats: Stats, findings: seq<Asff>)

  /** One put: an object under `(bucket, key)` or an item under `(pk, sk)`. */
  datatype Write =
    | PutObject(bucket: string, key: string, payload: Payload)
    | PutItem(pk: string, sk: string, item: Item)

  /** Both stores: objects by `(bucket, key)`, table items by `(pk, sk)`. */
  datatype StoreState = StoreState(objects: map<(string, string), Payload>, items: map<(string, string), Item>)

  /** A put overwrites whatever was stored under its key. */
  function ApplyWrite(s: StoreState, w: Write): StoreState {
    match w
    case PutObject(b, k, p) => s.(objects := s.objects[(b, k) := p])
    case PutItem(pk, sk, it) => s.(items := s.items[(pk, sk) := it])
  }

  /** The puts performed in order. */
  function ApplyWrites(s: StoreState, ws: seq<Write>): StoreState
    decreases |ws|
  {
    if ws == [] then s else ApplyWrites(ApplyWrite(s, ws[0]), ws[1..])
  }

  /** The objects a sequence of puts leaves behind on its own: for each key, the last put. */
  function ObjectsOf(ws: seq<Write>): map<(string, string), Payload>
    decreases |ws|
  {
    if ws == [] then map[]
    else
      var rest := ObjectsOf(ws[1..]);
      match ws[0]
      case PutObject(b, k, p) => if (b, k) in rest then rest else rest[(b, k) := p]
      case PutItem(_, _, _) => rest
  }

  /** The items a sequence of puts leaves behind on its own: for each key, the last put. */
  function ItemsOf(ws: seq<Write>): map<(string, string), Item>
    decreases |ws|
  {
    if ws == [] then map[]
    else
      var rest := ItemsOf(ws[1..]);
      match ws[0]
      case PutItem(pk, sk, it) => if (pk, sk) in rest then rest else rest[(pk, sk) := it]
      case PutObject(_, _, _) => rest
  }

  /** The `(pk, sk)` keys a sequence of puts writes. */
  function ItemKeys(ws: seq<Write>): set<(string, string)>
    decreases |ws|
  {
    if ws == [] then {}
    else (if ws[0].PutItem? then {(ws[0].pk, ws[0].sk)} else {}) + ItemKeys(ws[1..])
  }

  /** The `(bucket, key)` pairs a sequence of puts writes. */
  function ObjectKeys(ws: seq<Write>): set<(string, string)>
    decreases |ws|
  {
    if ws == [] then {}
    else (if ws[0].PutObject? then {(ws[0].bucket, ws[0].key)} else {}) + ObjectKeys(ws[1..])
  }

  lemma {:induction false} ItemsOfKeys(ws: seq<Write>)
    ensures ItemsOf(ws).Keys == ItemKeys(ws)
    decreases |ws|
  {
    if ws != [] {
      ItemsOfKeys(ws[1..]);
    }
  }

  lemma {:induction false} ObjectsOfKeys(ws: seq<Write>)
    ensures ObjectsOf(ws).Keys == ObjectKeys(ws)
    decreases |ws|
  {
    if ws != [] {
      ObjectsOfKeys(ws[1..]);
    }
  }

  /**
   * Performing puts in order is overlaying the old state with the last put of
   * each key: every written key holds its last put, every other key is unchanged.
   */
  lemma {:induction false} ApplyWritesOverlay(s: StoreState, ws: seq<Write>)
    ensures ApplyWrites(s, ws) == StoreState(s.objects + ObjectsOf(ws), s.items + ItemsOf(ws))
    decreases |ws|
  {
    if ws != [] {
      var s1 := ApplyWrite(s, ws[0]);
      ApplyWritesOverlay(s1, ws[1..]);
      match ws[0]
      case PutObject(b, k, p) =>
        UpdateThenOverlay(s.objects, (b, k), p, ObjectsOf(ws[1..]));
      case PutItem(pk, sk, it) =>
        UpdateThenOverlay(s.items, (pk, sk), it, ItemsOf(ws[1..]));
    }
  }

  /** An update overlaid by `r` is the overlay by `r` extended with the update where `r` is silent. */
  lemma UpdateThenOverlay<K, V>(m: map<K, V>, k: K, v: V, r: map<K, V>)
    ensures m[k := v] + r == m + (if k in r then r else r[k := v])
  {
    var lhs, rhs := m[k := v] + r, m + (if k in r then r else r[k := v]);
    assert lhs.Keys == rhs.Keys;
    forall x | x in lhs
      ensures lhs[x] == rhs[x]
    {
    }
  }

  /** Replaying the same puts onto their own result changes nothing. */
  lemma ApplyWritesIdempotent(s: StoreState, ws: seq<Write>)
    ensures ApplyWrites(ApplyWrites(s, ws), ws) == ApplyWrites(s, ws)
  {
    var t := ApplyWrites(s, ws);
    ApplyWritesOverlay(s, ws);
    ApplyWritesOverlay(t, ws);
    assert t.objects + ObjectsOf(ws) == t.objects;
    assert t.items + ItemsOf(ws) == t.items;
  }

  /** After the puts, the table holds exactly the keys it held plus the keys written. */
  lemma KeysAfterWrites(s: StoreState, ws: seq<Write>)
    ensures ApplyWrites(s, ws).items.Keys == s.items.Keys + ItemKeys(ws)
    ensures ApplyWrites(s, ws).objects.Keys == s.objects.Keys + ObjectKeys(ws)
  {
    ApplyWritesOverlay(s, ws);
    ItemsOfKeys(ws);
    ObjectsOfKeys(ws);
  }

  /** Puts to other keys leave a key's item as it was. */
  lemma ItemUntouched(s: StoreState, ws: seq<Write>, key: (string, string))
    requires key !in ItemKeys(ws)
    ensures key in ApplyWrites(s, ws).items <==> key in s.items
    ensures key in s.items ==> ApplyWrites(s, ws).items[key] == s.items[key]
  {
    ApplyWritesOverlay(s, ws);
    ItemsOfKeys(ws);
  }

  /** Puts to other keys leave an object as it was. */
  lemma ObjectUntouched(s: StoreState, ws: seq<Write>, key: (string, string))
    requires key !in ObjectKeys(ws)
    ensures key in ApplyWrites(s, ws).objects <==> key in s.objects
    ensures key in s.objects ==> ApplyWrites(s, ws).objects[key] == s.objects[key]
  {
    ApplyWritesOverlay(s, ws);
    ObjectsOfKeys(ws);
  }

  /** Puts in sequence: the second batch starts from the state the first leaves. */
  lemma {:induction false} ApplyWritesAppend(s: StoreState, a: seq<Write>, b: seq<Write>)
    ensures ApplyWrites(s, a + b) == ApplyWrites(ApplyWrites(s, a), b)
    decreases |a|
  {
    if a == [] {
      assert a + b == b;
    } else {
      assert (a + b)[0] == a[0];
      assert (a + b)[1..] == a[1..] + b;
      ApplyWritesAppend(ApplyWrite(s, a[0]), a[1..], b);
    }
  }

  lemma {:induction false} ItemKeysAppend(a: seq<Write>, b: seq<Write>)
    ensures ItemKeys(a + b) == ItemKeys(a) + ItemKeys(b)
    ensures ObjectKeys(a + b) == ObjectKeys(a) + ObjectKeys(b)
    decreases |a|
  {
    if a == [] {
      assert a + b == b;
    } else {
      assert (a + b)[0] == a[0];
      assert (a + b)[1..] == a[1..] + b;
      ItemKeysAppend(a[1..], b);
    }
  }

  /** Two object puts followed by two item puts write exactly their four keys. */
  lemma KeysOfObjectsThenItems(a: Write, b: Write, c: Write, d: Write)
    requires a.PutObject? && b.PutObject? && c.PutItem? && d.PutItem?
    ensures ItemKeys([a, b, c, d]) == {(c.pk, c.sk), (d.pk, d.sk)}
    ensures ObjectKeys([a, b, c, d]) == {(a.bucket, a.key), (b.bucket, b.key)}
  {
    var ws := [a, b, c, d];
    assert ws[1..] == [b, c, d] && ws[1..][1..] == [c, d] && ws[1..][1..][1..] == [d] && [d][1..] == [];
    assert ItemKeys([d]) == {(d.pk, d.sk)} && ObjectKeys([d]) == {};
    assert ItemKeys([c, d]) == {(c.pk, c.sk), (d.pk, d.sk)} && ObjectKeys([c, d]) == {};
  }

  lemma KeysOfFour(a: seq<Write>, b: seq<Write>, c: seq<Write>, d: seq<Write>)
    ensures ItemKeys(a + b + c + d) == ItemKeys(a) + ItemKeys(b) + ItemKeys(c) + ItemKeys(d)
    ensures ObjectKeys(a + b + c + d) == ObjectKeys(a) + ObjectKeys(b) + ObjectKeys(c) + ObjectKeys(d)
  {
    ItemKeysAppend(a + b + c, d);
    ItemKeysAppend(a + b, c);
    ItemKeysAppend(a, b);
  }

  /** Puts with the keys of puts already applied add no key. */
  lemma RewriteSameKeys(s: StoreState, ws1: seq<Write>, ws2: seq<Write>)
    requires ItemKeys(ws2) == ItemKeys(ws1) && ObjectKeys(ws2) == ObjectKeys(ws1)
    ensures var t := ApplyWrites(s, ws1);
      ApplyWrites(t, ws2).items.Keys == t.items.Keys && ApplyWrites(t, ws2).objects.Keys == t.objects.Keys
  {
    KeysAfterWrites(s, ws1);
    KeysAfterWrites(ApplyWrites(s, ws1), ws2);
  }
}
