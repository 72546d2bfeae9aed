/**
 * `pingcastle_points_to_asff_sev`: PingCastle risk points to a five-level
 * severity label and a 0-100 normalized score.
 */
module Severity {
  import opened Wrappers
  import opened Text

  datatype Label = Critical | High | Medium | Low | Informational

  /** The label as written into records and the `stats` keys. */
  function LabelName(l: Label): string {
    match l
    case Critical => "CRITICAL"
    case High => "HIGH"
    case Medium => "MEDIUM"
    case Low => "LOW"
    case Informational => "INFORMATIONAL"
  }

  /** The normalized score that goes with each label. */
  function Score(l: Label): int {
    match l
    case Critical => 90
    case High => 70
    case Medium => 40
    case Low => 20
    case Informational => 0
  }

  datatype Sev = Sev(level: Label, score: int)

  // ---------------------------------------------------------------------------
  // Points parsing: Python's `int(points_str)`, with a failure as `None`
  // ---------------------------------------------------------------------------

  predicate AllDigitChars(s: string) {
    forall k :: 0 <= k < |s| ==> IsDigit(s[k])
  }

  function DigitValue(c: char): nat
    requires IsDigit(c)
  {
    c as int - '0' as int
  }

  /** The value of a decimal numeral, most significant digit first. */
  function DigitsValue(s: string): nat
    requires AllDigitChars(s)
  {
    if s == [] then 0 else 10 * DigitsValue(s[..|s| - 1]) + DigitValue(s[|s| - 1])
  }

  /** An optional sign followed by one or more decimal digits. */
  function ParseSigned(t: string): Option<int> {
    if t != [] && (t[0] == '+' || t[0] == '-') then
      var ds := t[1..];
      var v: int := if ds != [] && AllDigitChars(ds) then DigitsValue(ds) else 0;
      if ds != [] && AllDigitChars(ds) then Some(if t[0] == '-' then -v else v)
      else None
    else if t != [] && AllDigitChars(t) then Some(DigitsValue(t))
    else None
  }

  /** `int(s)`: surrounding whitespace allowed, then an optionally signed decimal numeral. */
  function ParsePoints(s: string): Option<int> {
    ParseSigned(Strip(s))
  }

  /** The decimal numeral of `n` with no leading zeros (Python's `str(n)` for `n >= 0`). */
  function NatToString(n: nat): (s: string)
    ensures s != [] && AllDigitChars(s)
  {
    var d := [('0' as int + n % 10) as char];
    if n < 10 then d else NatToString(n / 10) + d
  }

  /** Python's `str(n)`. */
  function IntToString(n: int): (s: string)
    ensures s != []
  {
    if n < 0 then "-" + NatToString(-n) else NatToString(n)
  }

  lemma {:induction false} NatToStringValue(n: nat)
    ensures DigitsValue(NatToString(n)) == n
  {
    var s := NatToString(n);
    var d := [('0' as int + n % 10) as char];
    if n >= 10 {
      NatToStringValue(n / 10);
      assert s[..|s| - 1] == NatToString(n / 10);
    }
  }

  /** An unsigned numeral parses to its value. */
  lemma ParseUnsigned(ds: string)
    requires ds != [] && AllDigitChars(ds)
    ensures ParseSigned(ds) == Some(DigitsValue(ds))
  {
    assert IsDigit(ds[0]);
  }

  /** A minus sign and a numeral parse to the negated value. */
  lemma ParseNegative(ds: string)
    requires ds != [] && AllDigitChars(ds)
    ensures ParseSigned("-" + ds) == Some(-(DigitsValue(ds) as int))
  {
    assert ("-" + ds)[1..] == ds;
  }

  /** Parsing the decimal rendering of any integer gives the integer back. */
  lemma ParsePrintedPoints(n: int)
    ensures ParsePoints(IntToString(n)) == Some(n)
  {
    var s := IntToString(n);
    if n < 0 {
      var ds := NatToString(-n);
      assert IsDigit(ds[|ds| - 1]);
      assert s == "-" + ds;
      StripUnpadded(s);
      NatToStringValue(-n);
      ParseNegative(ds);
    } else {
      assert IsDigit(s[0]) && IsDigit(s[|s| - 1]);
      StripUnpadded(s);
      NatToStringValue(n);
      ParseUnsigned(s);
    }
  }

  // ---------------------------------------------------------------------------
  // The step function
  // ---------------------------------------------------------------------------

  /** Inclusive lower thresholds 30, 20, 10 and 1; the score always belongs to the label. */
  function SeverityOf(p: int): (r: Sev)
    ensures r.score == Score(r.level)
    ensures r.level == Critical <==> p >= 30
    ensures r.level == High <==> 20 <= p < 30
    ensures r.level == Medium <==> 10 <= p < 20
    ensures r.level == Low <==> 1 <= p < 10
    ensures r.level == Informational <==> p < 1
  {
    if p >= 30 then Sev(Critical, 90)
    else if p >= 20 then Sev(High, 70)
    else if p >= 10 then Sev(Medium, 40)
    else if p >= 1 then Sev(Low, 20)
    else Sev(Informational, 0)
  }

  /** Points text to severity; anything `int()` rejects counts as 0 points. */
  function PointsToSeverity(points: string): (r: Sev)
    ensures r.score == Score(r.level)
    ensures ParsePoints(points).None? ==> r == Sev(Informational, 0)
    ensures ParsePoints(points).Some? ==> r == SeverityOf(ParsePoints(points).value)
  {
    SeverityOf(ParsePoints(points).GetOr(0))
  }

  /** More points never give a lower score. */
  lemma SeverityMonotonic(p: int, q: int)
    requires p <= q
    ensures SeverityOf(p).score <= SeverityOf(q).score
  {
  }

  /** Boundary: 0 points is informational. */
  lemma ZeroPointsInformational()
    ensures PointsToSeverity("0") == Sev(Informational, 0)
  {
    ParsePrintedPoints(0);
    assert IntToString(0) == "0";
  }

  /**
   * Boundary: a value that does not start with whitespace, a sign or a digit
   * (such as "abc") is not a number and counts as 0 points.
   */
  lemma NonNumericPointsInformational(points: string)
    requires points != [] && !IsSpace(points[0]) && points[0] != '+' && points[0] != '-' && !IsDigit(points[0])
    ensures PointsToSeverity(points) == Sev(Informational, 0)
  {
    assert LStrip(points) == points;
    var t := Strip(points);
    assert t != [] ==> t[0] == points[0];
    assert ParseSigned(t) == None;
  }

  /** Boundary: 30 points is the lowest critical value. */
  lemma ThirtyPointsCritical()
    ensures PointsToSeverity("30") == Sev(Critical, 90)
  {
    TwoDigitPoints(3, 0);
    assert [DigitChar(3), DigitChar(0)] == "30";
  }

  /** Boundary: 29 points is still high. */
  lemma TwentyNinePointsHigh()
    ensures PointsToSeverity("29") == Sev(High, 70)
  {
    TwoDigitPoints(2, 9);
    assert [DigitChar(2), DigitChar(9)] == "29";
  }

  function DigitChar(d: nat): char
    requires d < 10
  {
    ('0' as int + d) as char
  }

  /** The two-digit numeral of `10 * a + b` gives the severity of that many points. */
  lemma TwoDigitPoints(a: nat, b: nat)
    requires 1 <= a < 10 && b < 10
    ensures PointsToSeverity([DigitChar(a), DigitChar(b)]) == SeverityOf(10 * a + b)
  {
    var n := 10 * a + b;
    assert n / 10 == a && n % 10 == b;
    assert NatToString(a) == [DigitChar(a)];
    assert NatToString(n) == [DigitChar(a), DigitChar(b)];
    ParsePrintedPoints(n);
  }
}
