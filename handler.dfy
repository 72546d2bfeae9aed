/**
 * `handler`: locate the uploaded object named by the event, parse it, strip
 * namespaces, classify it and hand it to the matching processor. A bad event
 * gives 400 before anything is fetched; a document that is not XML, or not
 * a PingCastle artifact, gives 204; nothing is written on any of these paths.
 */
module Handler {
  import opened Wrappers
  import opened Xml
  import opened Classify
  import opened Event
  import opened Records
  import opened Storage
  import opened Env
  import opened RulesCatalog
  import opened LatestPack
  import opened Report
  import opened ReportFacts
  import opened ReportReplay

  /** What an invocation ends with: a response, or an exception that escapes the handler. */
  datatype Outcome = Returned(response: Response) | Unhandled

  const BadEvent := Returned(Response(400, Message("Bad event structure")))
  const NotXml := Returned(Response(204, Message("Not XML")))
  const UnknownArtifact := Returned(Response(204, Message("Unknown artifact")))

  /** How far the handler gets before classifying: it stops with an outcome, or has a document. */
  datatype Fetched = Stop(outcome: Outcome) | Document(root: Element, xmlText: string, key: string)

  /**
   * The event, the fetch and the parse. A bucket that is not a string, or an
   * object that does not exist, makes `get_object` raise; a stored document
   * other than an upload is JSON text, which the XML parser rejects.
   */
  function Fetch(s: StoreState, event: Json, hooks: Hooks): (f: Fetched)
    requires ValidHooks(hooks)
  {
    match Extract(event, hooks.unquote)
    case Raised => Stop(Unhandled)
    case Absent => Stop(BadEvent)
    case Found(b, key) =>
      if !Truthy(b) || key == "" then Stop(BadEvent)
      else if !b.JStr? || (b.s, key) !in s.objects then Stop(Unhandled)
      else
        match s.objects[(b.s, key)]
        case Blob(text) =>
          (match hooks.parse(text)
           case None => Stop(NotXml)
           case Some(p) => Document(Normalized(p), text, key))
        case _ => Stop(NotXml)
  }

  /** What the handler does with the normalized document, given the pack the report path would load. */
  function DocumentPlan(root: Element, xmlText: string, key: string, hooks: Hooks, ctx: Context, now: string, loaded: Loaded): (Outcome, seq<Write>) {
    match Detect(root)
    case Rules =>
      (Returned(Response(200, WithPackId("Rules catalog processed", hooks.sha256Hex(xmlText)))),
       RulesCatalogWrites(CatalogOf(root), xmlText, key, hooks, ctx, now))
    case Report =>
      var plan := ReportPlan(root, xmlText, key, hooks, ctx, now, loaded);
      (Returned(plan.0), plan.1)
    case Unknown => (UnknownArtifact, [])
  }

  /** What one invocation does on state `s`: its outcome, and the puts it performs. */
  function HandlePlan(s: StoreState, event: Json, hooks: Hooks, ctx: Context, now: string, loadFails: bool): (Outcome, seq<Write>)
    requires ValidHooks(hooks)
  {
    match Fetch(s, event, hooks)
    case Stop(o) => (o, [])
    case Document(root, xmlText, key) => DocumentPlan(root, xmlText, key, hooks, ctx, now, LoadLatest(s, ctx.curatedBucket, loadFails))
  }

  /**
   * The first half of `handler`: extract the bucket and key, get the object,
   * parse it, and strip the namespaces of the parsed tree in place.
   */
  method FetchDocument(store: Store, event: Json, hooks: Hooks) returns (f: Fetched)
    requires ValidHooks(hooks)
    ensures f == Fetch(store.State(), event, hooks)
  {
    var ex := ExtractBucketKey(event, hooks.unquote);
    if ex.Raised? {
      return Stop(Unhandled);
    }
    if ex.Absent? || !Truthy(ex.bucket) || ex.key == "" {
      return Stop(BadEvent);
    }
    if !ex.bucket.JStr? {
      return Stop(Unhandled);
    }
    var obj := store.GetObject(ex.bucket.s, ex.key);
    if obj.None? {
      return Stop(Unhandled);
    }
    if !obj.value.Blob? {
      return Stop(NotXml);
    }
    var xmlText := obj.value.text;
    var parsed := hooks.parse(xmlText);
    if parsed.None? {
      return Stop(NotXml);
    }
    var p := parsed.value;
    var tags := new string[|p.tags|](i requires 0 <= i < |p.tags| => p.tags[i]);
    assert tags[..] == p.tags;
    BoundedIds(p.root, |p.tags|);
    StripNamespacesInPlace(p.root, tags);
    BoundedIds(p.root, tags.Length);
    StripViewCommutes(p.root, p.tags, tags[..]);
    f := Document(View(p.root, tags[..]), xmlText, ex.key);
  }

  /** `handler`: fetch and normalize the document, then classify it and run its processor. */
  method Handle(store: Store, event: Json, hooks: Hooks, ctx: Context, now: string, loadFails: bool) returns (out: Outcome)
    requires ValidHooks(hooks)
    modifies store
    ensures var plan := HandlePlan(old(store.State()), event, hooks, ctx, now, loadFails);
      out == plan.0 && store.State() == ApplyWrites(old(store.State()), plan.1)
  {
    var f := FetchDocument(store, event, hooks);
    if f.Stop? {
      return f.outcome;
    }
    var kind := Detect(f.root);
    match kind {
      case Rules =>
        var r := ProcessRulesCatalog(store, f.root, f.xmlText, f.key, hooks, ctx, now);
        out := Returned(r);
      case Report =>
        var r := ProcessReport(store, f.root, f.xmlText, f.key, hooks, ctx, now, loadFails);
        out := Returned(r);
      case Unknown =>
        out := UnknownArtifact;
    }
  }

  // ---------------------------------------------------------------------------
  // What the handler promises
  // ---------------------------------------------------------------------------

  /** Every response is 200, 204 or 400, and only a 200 comes with puts. */
  lemma HandleStatuses(s: StoreState, event: Json, hooks: Hooks, ctx: Context, now: string, loadFails: bool)
    requires ValidHooks(hooks)
    ensures var plan := HandlePlan(s, event, hooks, ctx, now, loadFails);
      && (plan.0.Returned? ==> plan.0.response.statusCode in {200, 204, 400})
      && (plan.1 != [] ==> plan.0.Returned? && plan.0.response.statusCode == 200)
  {
    var d := Fetch(s, event, hooks);
    if d.Document? {
      DocumentStatuses(d.root, d.xmlText, d.key, hooks, ctx, now, LoadLatest(s, ctx.curatedBucket, loadFails));
    }
  }

  /** A document is answered with 200 or 204, and only a 200 comes with puts. */
  lemma DocumentStatuses(root: Element, xmlText: string, key: string, hooks: Hooks, ctx: Context, now: string, loaded: Loaded)
    ensures var plan := DocumentPlan(root, xmlText, key, hooks, ctx, now, loaded);
      && plan.0.Returned? && plan.0.response.statusCode in {200, 204}
      && (plan.1 != [] ==> plan.0.response.statusCode == 200)
  {
    if Detect(root) == Report {
      NoRowsNoWrites(root, xmlText, key, hooks, ctx, now, loaded);
    }
  }

  /**
   * 400 exactly when the event names no bucket and key (or an empty one),
   * decided before the store is read: the outcome is the same on every state.
   */
  lemma BadEventBeforeFetch(s: StoreState, t: StoreState, event: Json, hooks: Hooks, ctx: Context, now: string, loadFails: bool)
    requires ValidHooks(hooks)
    ensures var ex := Extract(event, hooks.unquote);
      HandlePlan(s, event, hooks, ctx, now, loadFails).0 == BadEvent
      <==> ex.Absent? || (ex.Found? && (!Truthy(ex.bucket) || ex.key == ""))
    ensures HandlePlan(s, event, hooks, ctx, now, loadFails).0 == BadEvent ==>
      HandlePlan(s, event, hooks, ctx, now, loadFails) == HandlePlan(t, event, hooks, ctx, now, loadFails)
  {
    var d := Fetch(s, event, hooks);
    if d.Document? {
      DocumentStatuses(d.root, d.xmlText, d.key, hooks, ctx, now, LoadLatest(s, ctx.curatedBucket, loadFails));
    }
  }

  /** A stored object that is not XML gives 204 "Not XML" and no put. */
  lemma NotXmlNoWrites(s: StoreState, event: Json, hooks: Hooks, ctx: Context, now: string, loadFails: bool, bucket: string, key: string)
    requires ValidHooks(hooks)
    requires Extract(event, hooks.unquote) == Found(JStr(bucket), key) && bucket != "" && key != ""
    requires (bucket, key) in s.objects
    requires !s.objects[(bucket, key)].Blob? || hooks.parse(s.objects[(bucket, key)].text).None?
    ensures HandlePlan(s, event, hooks, ctx, now, loadFails) == (NotXml, [])
  {
  }

  /**
   * Dispatch on the classified document: a rules shape is processed as a
   * rules catalog even when report markers are present too, a report as a
   * report with the pack loaded from the same state, anything else is 204
   * "Unknown artifact" with no put.
   */
  lemma Dispatch(s: StoreState, event: Json, hooks: Hooks, ctx: Context, now: string, loadFails: bool)
    requires ValidHooks(hooks)
    requires Fetch(s, event, hooks).Document?
    ensures var d := Fetch(s, event, hooks);
      var plan := HandlePlan(s, event, hooks, ctx, now, loadFails);
      && (IsRulesShape(d.root) ==>
            plan == (Returned(Response(200, WithPackId("Rules catalog processed", hooks.sha256Hex(d.xmlText)))),
                     RulesCatalogWrites(CatalogOf(d.root), d.xmlText, d.key, hooks, ctx, now)))
      && (!IsRulesShape(d.root) && HasDescendant(d.root, "RiskRules") && HasDescendant(d.root, "DomainFQDN") ==>
            var rp := ReportPlan(d.root, d.xmlText, d.key, hooks, ctx, now, LoadLatest(s, ctx.curatedBucket, loadFails));
            plan == (Returned(rp.0), rp.1))
      && (!IsRulesShape(d.root) && !(HasDescendant(d.root, "RiskRules") && HasDescendant(d.root, "DomainFQDN")) ==>
            plan == (UnknownArtifact, []))
  {
  }

  // ---------------------------------------------------------------------------
  // Replaying an event
  // ---------------------------------------------------------------------------

  /** The uploaded object is not in the curated bucket, where the handler writes. */
  predicate RawApart(event: Json, hooks: Hooks, ctx: Context) {
    var ex := Extract(event, hooks.unquote);
    ex.Found? && ex.bucket.JStr? ==> ex.bucket.s != ctx.curatedBucket
  }

  /** A report, if the handler gets one, carries its own generation date; other documents need none. */
  predicate Dated(s: StoreState, event: Json, hooks: Hooks)
    requires ValidHooks(hooks)
  {
    var d := Fetch(s, event, hooks);
    d.Document? && Detect(d.root) == Report ==> DateFromContent(d.root, hooks)
  }

  /**
   * The keys the handler writes for a document depend on the document alone
   * (for a report, given its own generation date), not on the clock or the
   * pack loaded, and every object written is in the curated bucket.
   */
  lemma DocumentKeys(root: Element, xmlText: string, key: string, hooks: Hooks, ctx: Context,
                     now1: string, loaded1: Loaded, now2: string, loaded2: Loaded)
    requires Detect(root) == Report ==> DateFromContent(root, hooks)
    ensures var p1 := DocumentPlan(root, xmlText, key, hooks, ctx, now1, loaded1);
      var p2 := DocumentPlan(root, xmlText, key, hooks, ctx, now2, loaded2);
      && p1.0 == p2.0
      && ItemKeys(p1.1) == ItemKeys(p2.1) && ObjectKeys(p1.1) == ObjectKeys(p2.1)
      && forall k :: k in ObjectKeys(p1.1) ==> k.0 == ctx.curatedBucket
  {
    match Detect(root)
    case Rules =>
      RulesCatalogKeys(CatalogOf(root), xmlText, key, hooks, ctx, now1);
      RulesCatalogKeys(CatalogOf(root), xmlText, key, hooks, ctx, now2);
    case Report =>
      ReplaySameKeys(root, xmlText, hooks, ctx, key, now1, loaded1, key, now2, loaded2);
      ReplaySameOutcome(root, xmlText, hooks, ctx, key, now1, loaded1, key, now2, loaded2);
    case Unknown =>
  }

  /**
   * Delivering the same event again, at any time and whatever the storage
   * does on the pack lookup, gives the same response and writes the same
   * keys, so the store ends with the key set the first delivery left.
   */
  lemma HandleTwiceSameKeys(s: StoreState, event: Json, hooks: Hooks, ctx: Context,
                            now1: string, fails1: bool, now2: string, fails2: bool)
    requires ValidHooks(hooks)
    requires RawApart(event, hooks, ctx)
    requires Dated(s, event, hooks)
    ensures var first := HandlePlan(s, event, hooks, ctx, now1, fails1);
      var t := ApplyWrites(s, first.1);
      var second := HandlePlan(t, event, hooks, ctx, now2, fails2);
      && second.0 == first.0
      && ItemKeys(second.1) == ItemKeys(first.1) && ObjectKeys(second.1) == ObjectKeys(first.1)
      && ApplyWrites(t, second.1).items.Keys == t.items.Keys
      && ApplyWrites(t, second.1).objects.Keys == t.objects.Keys
  {
    var first := HandlePlan(s, event, hooks, ctx, now1, fails1);
    var t := ApplyWrites(s, first.1);
    var d := Fetch(s, event, hooks);
    if d.Document? {
      DocumentKeys(d.root, d.xmlText, d.key, hooks, ctx,
        now1, LoadLatest(s, ctx.curatedBucket, fails1), now2, LoadLatest(t, ctx.curatedBucket, fails2));
    }
    FetchIgnoresCuratedWrites(s, first.1, event, hooks, ctx);
    RewriteSameKeys(s, first.1, HandlePlan(t, event, hooks, ctx, now2, fails2).1);
  }

  /** Puts that only go to the curated bucket leave the uploaded object, and so the fetch, as they were. */
  lemma FetchIgnoresCuratedWrites(s: StoreState, ws: seq<Write>, event: Json, hooks: Hooks, ctx: Context)
    requires ValidHooks(hooks)
    requires RawApart(event, hooks, ctx)
    requires forall k :: k in ObjectKeys(ws) ==> k.0 == ctx.curatedBucket
    ensures Fetch(ApplyWrites(s, ws), event, hooks) == Fetch(s, event, hooks)
  {
    var ex := Extract(event, hooks.unquote);
    if ex.Found? && ex.bucket.JStr? {
      ObjectUntouched(s, ws, (ex.bucket.s, ex.key));
    }
  }
}
