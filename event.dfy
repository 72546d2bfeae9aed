/**
 * `_extract_s3_bucket_key`: the bucket and key named by an invocation event,
 * either the EventBridge shape `detail.bucket.name` / `detail.object.key` or
 * the notification shape `Records[].s3.bucket.name` / `Records[].s3.object.key`.
 * The event is a decoded JSON value; every Python exception the lookups can
 * raise (a missing key, subscripting a list or a string, iterating `None`, ...)
 * is the single outcome `Raised`.
 */
module Event {
  import opened Wrappers
  import opened Text

  datatype Json =
    | JNull
    | JBool(b: bool)
    | JNum(n: int)
    | JStr(s: string)
    | JArr(items: seq<Json>)
    | JObj(fields: map<string, Json>)

  /** Python truthiness of a decoded JSON value. */
  predicate Truthy(j: Json) {
    match j
    case JNull => false
    case JBool(b) => b
    case JNum(n) => n != 0
    case JStr(s) => s != ""
    case JArr(items) => items != []
    case JObj(fields) => fields != map[]
  }

  /** What the extraction gives: a bucket value and a decoded key, `(None, None)`, or an exception. */
  datatype Extracted = Found(bucket: Json, key: string) | Absent | Raised

  /** `j[k]` for a string key: defined only on an object holding `k`. */
  function Get(j: Json, k: string): (r: Option<Json>)
    ensures r.Some? <==> j.JObj? && k in j.fields
    ensures r.Some? ==> r.value == j.fields[k]
  {
    if j.JObj? && k in j.fields then Some(j.fields[k]) else None
  }

  /**
   * `(x["bucket"]["name"], unquote_plus(x["object"]["key"]))` for the block `x`
   * (`detail` or a record's `s3`): both paths must exist and the key must be a
   * string, which `unquote` then decodes.
   */
  function BucketKeyOf(x: Json, unquote: string -> string): (r: Extracted)
    ensures r.Found? <==> (
      && Get(x, "bucket").Some? && Get(Get(x, "bucket").value, "name").Some?
      && Get(x, "object").Some? && Get(Get(x, "object").value, "key").Some?
      && Get(Get(x, "object").value, "key").value.JStr?)
    ensures r.Found? ==> (
      && r.bucket == x.fields["bucket"].fields["name"]
      && r.key == unquote(x.fields["object"].fields["key"].s))
    ensures !r.Absent?
  {
    var b, o := Get(x, "bucket"), Get(x, "object");
    if b.None? || o.None? then Raised
    else
      var name, k := Get(b.value, "name"), Get(o.value, "key");
      if name.Some? && k.Some? && k.value.JStr? then Found(name.value, unquote(k.value.s))
      else Raised
  }

  /** What the scan of `Records` does with one element. */
  datatype Step = Hit | Skip | Fail

  /**
   * The test `"s3" in r` on one element of `Records`: a key of an object, a
   * substring of a string, an element of a list; it raises on `None`, a
   * boolean or a number. A string or list that passes makes the following
   * `r["s3"]` raise.
   */
  function RecordStep(r: Json): (st: Step)
    ensures st == Hit <==> r.JObj? && "s3" in r.fields
    ensures st == Skip <==> (
      || (r.JObj? && "s3" !in r.fields)
      || (r.JStr? && !Contains(r.s, "s3"))
      || (r.JArr? && JStr("s3") !in r.items))
  {
    match r
    case JObj(fields) => if "s3" in fields then Hit else Skip
    case JStr(s) => if Contains(s, "s3") then Fail else Skip
    case JArr(items) => if JStr("s3") in items then Fail else Skip
    case _ => Fail
  }

  /** The outcome of the scan over the elements of a `Records` list, the first decisive one winning. */
  function ScanRecords(rs: seq<Json>, unquote: string -> string): Extracted {
    if rs == [] then Absent
    else
      match RecordStep(rs[0])
      case Hit => BucketKeyOf(rs[0].fields["s3"], unquote)
      case Fail => Raised
      case Skip => ScanRecords(rs[1..], unquote)
  }

  /**
   * `for r in event.get("Records", [])` over a value that is not a list: an
   * object iterates over its keys (a key containing `s3` makes `r["s3"]`
   * raise), a string over its characters (none of which contains `s3`), and
   * anything else cannot be iterated.
   */
  function ScanNonList(records: Json): (r: Extracted)
    requires !records.JArr?
    ensures r == Absent <==> records.JStr? || (records.JObj? && forall k :: k in records.fields ==> !Contains(k, "s3"))
    ensures r != Absent ==> r == Raised
  {
    match records
    case JStr(_) => Absent
    case JObj(fields) => if exists k :: k in fields && Contains(k, "s3") then Raised else Absent
    case _ => Raised
  }

  /** The whole extraction: `detail` first, then `Records`, otherwise `(None, None)`. */
  function Extract(event: Json, unquote: string -> string): Extracted {
    if event.JObj? && "detail" in event.fields then BucketKeyOf(event.fields["detail"], unquote)
    else if event.JObj? && "Records" in event.fields then
      var records := event.fields["Records"];
      if records.JArr? then ScanRecords(records.items, unquote) else ScanNonList(records)
    else Absent
  }

  /** The scan as the source writes it: a loop over the records that returns at the first hit. */
  method ExtractBucketKey(event: Json, unquote: string -> string) returns (r: Extracted)
    ensures r == Extract(event, unquote)
  {
    if event.JObj? && "detail" in event.fields {
      return BucketKeyOf(event.fields["detail"], unquote);
    }
    if !(event.JObj? && "Records" in event.fields) {
      return Absent;
    }
    var records := event.fields["Records"];
    if !records.JArr? {
      return ScanNonList(records);
    }
    var rs := records.items;
    var i := 0;
    while i < |rs|
      invariant 0 <= i <= |rs|
      invariant ScanRecords(rs[i..], unquote) == ScanRecords(rs, unquote)
    {
      assert rs[i..][1..] == rs[i + 1..];
      var st := RecordStep(rs[i]);
      if st == Hit {
        return BucketKeyOf(rs[i].fields["s3"], unquote);
      } else if st == Fail {
        return Raised;
      }
      i := i + 1;
    }
    return Absent;
  }

  /** Skipped records before a hit do not matter: the first record holding `s3` decides. */
  lemma {:induction false} FirstRecordWins(rs: seq<Json>, i: nat, unquote: string -> string)
    requires i < |rs|
    requires forall j :: 0 <= j < i ==> RecordStep(rs[j]) == Skip
    requires rs[i].JObj? && "s3" in rs[i].fields
    ensures ScanRecords(rs, unquote) == BucketKeyOf(rs[i].fields["s3"], unquote)
  {
    if i > 0 {
      assert RecordStep(rs[0]) == Skip;
      FirstRecordWins(rs[1..], i - 1, unquote);
    }
  }

  /** A list of records none of which holds `s3` (and none of which raises) gives `(None, None)`. */
  lemma {:induction false} AllSkippedAbsent(rs: seq<Json>, unquote: string -> string)
    requires forall j :: 0 <= j < |rs| ==> RecordStep(rs[j]) == Skip
    ensures ScanRecords(rs, unquote) == Absent
  {
    if rs != [] {
      AllSkippedAbsent(rs[1..], unquote);
    }
  }

  /** The EventBridge shape wins over the notification shape when both are present. */
  lemma DetailWins(fields: map<string, Json>, unquote: string -> string)
    requires "detail" in fields
    ensures Extract(JObj(fields), unquote) == BucketKeyOf(fields["detail"], unquote)
  {
  }

  /** A well-formed notification record yields its bucket name and decoded key. */
  lemma WellFormedRecord(bucket: string, key: string, unquote: string -> string)
    ensures var s3 := JObj(map["bucket" := JObj(map["name" := JStr(bucket)]), "object" := JObj(map["key" := JStr(key)])]);
      Extract(JObj(map["Records" := JArr([JObj(map["s3" := s3])])]), unquote) == Found(JStr(bucket), unquote(key))
  {
    var s3 := JObj(map["bucket" := JObj(map["name" := JStr(bucket)]), "object" := JObj(map["key" := JStr(key)])]);
    var rs := [JObj(map["s3" := s3])];
    FirstRecordWins(rs, 0, unquote);
  }
}
