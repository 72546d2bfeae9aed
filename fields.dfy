/**
 * Small field normalizers of the report path: `normalize_domain`,
 * `get_account_region_from_context`, and the fractional-second rewrite inside
 * `parse_iso_to_utc_iso` (the datetime library calls around it are a parameter).
 */
module Fields {
  import opened Wrappers
  import opened Text

  // ---------------------------------------------------------------------------
  // normalize_domain
  // ---------------------------------------------------------------------------

  /** Python's `domain or "unknown"`. */
  function DomainOrUnknown(domain: Option<string>): string {
    if domain == None || domain == Some("") then "unknown" else domain.value
  }

  /**
   * `(domain or "unknown").lower().rstrip(".")`: the lower-cased input with
   * every trailing dot removed; a missing or empty input becomes "unknown".
   */
  function NormalizeDomain(domain: Option<string>): (r: string)
    ensures domain == None || domain == Some("") ==> r == "unknown"
    ensures forall k :: 0 <= k < |r| ==> !IsUpperAscii(r[k])
    ensures r == "" || r[|r| - 1] != '.'
    ensures var lowered := ToLower(DomainOrUnknown(domain));
      && |r| <= |lowered|
      && r == lowered[..|r|]
      && forall k :: |r| <= k < |lowered| ==> lowered[k] == '.'
  {
    var d := DomainOrUnknown(domain);
    ToLowerHasNoUpper(d);
    RStripChar(ToLower(d), '.')
  }

  lemma LowerContosoWord()
    ensures ToLower("Contoso") == "contoso"
  {
    var r := ToLower("Contoso");
    assert r[0] == 'c' && r[1] == 'o' && r[2] == 'n' && r[3] == 't';
    assert r[4] == 'o' && r[5] == 's' && r[6] == 'o';
  }

  lemma LowerLocalSuffix()
    ensures ToLower(".LOCAL.") == ".local."
  {
    var s, r := ".LOCAL.", ToLower(".LOCAL.");
    assert LowerChar('L') == 'l' && LowerChar('O') == 'o' && LowerChar('C') == 'c' && LowerChar('A') == 'a';
    assert LowerChar('.') == '.';
    assert r == [LowerChar(s[0]), LowerChar(s[1]), LowerChar(s[2]), LowerChar(s[3]), LowerChar(s[4]), LowerChar(s[5]), LowerChar(s[6])];
  }

  /** One trailing `c` removed from a string that does not otherwise end in `c`. */
  lemma RStripOneChar(x: string, c: char)
    requires x == [] || x[|x| - 1] != c
    ensures RStripChar(x + [c], c) == x
  {
    assert (x + [c])[..|x|] == x;
  }

  lemma NormalizeNonEmpty(x: string)
    requires x != ""
    ensures NormalizeDomain(Some(x)) == RStripChar(ToLower(x), '.')
  {
  }

  /** The scenario domain `Contoso.LOCAL.` normalizes to `contoso.local`. */
  lemma NormalizeContoso()
    ensures NormalizeDomain(Some("Contoso.LOCAL.")) == "contoso.local"
  {
    NormalizeNonEmpty("Contoso.LOCAL.");
    LowerContosoDomain();
    ContosoPieces();
    RStripOneChar("contoso.local", '.');
  }

  lemma LowerContosoDomain()
    ensures ToLower("Contoso.LOCAL.") == "contoso.local."
  {
    LowerContosoWord();
    LowerLocalSuffix();
    ContosoPieces();
    ToLowerAppend("Contoso", ".LOCAL.");
  }

  lemma ContosoPieces()
    ensures "Contoso.LOCAL." == "Contoso" + ".LOCAL."
    ensures "contoso.local." == "contoso" + ".local."
    ensures "contoso.local." == "contoso.local" + "."
  {
  }

  /** All dots are stripped, not one: `...` becomes empty, and empty then becomes "unknown". */
  lemma NormalizeAllDots()
    ensures NormalizeDomain(Some("...")) == ""
    ensures NormalizeDomain(Some(NormalizeDomain(Some("...")))) == "unknown"
  {
    assert ToLower("...") == "...";
  }

  /** Normalizing is idempotent whenever the first result is not empty. */
  lemma NormalizeIdempotent(domain: Option<string>)
    requires NormalizeDomain(domain) != ""
    ensures NormalizeDomain(Some(NormalizeDomain(domain))) == NormalizeDomain(domain)
  {
    var r := NormalizeDomain(domain);
    assert forall k :: 0 <= k < |r| ==> LowerChar(r[k]) == r[k];
    assert ToLower(r) == r;
  }

  // ---------------------------------------------------------------------------
  // get_account_region_from_context
  // ---------------------------------------------------------------------------

  datatype AccountRegion = AccountRegion(account: string, region: string)

  const DefaultRegion := "ca-central-1"
  const DefaultAccount := "000000000000"

  /**
   * Fields 3 and 4 of the `:`-separated invoked-function ARN (a missing ARN is
   * empty); a missing region falls back to the environment's region, then to
   * `ca-central-1`, a missing account to twelve zeros.
   */
  function AccountRegionOf(arn: Option<string>, envRegion: Option<string>): (r: AccountRegion)
    ensures Count(arn.GetOr(""), ':') < 3 ==>
      r.region == (if envRegion == None || envRegion == Some("") then DefaultRegion else envRegion.value)
    ensures Count(arn.GetOr(""), ':') < 4 ==> r.account == DefaultAccount
    ensures |Split(arn.GetOr(""), ':')| > 3 ==> r.region == Split(arn.GetOr(""), ':')[3]
    ensures |Split(arn.GetOr(""), ':')| > 4 ==> r.account == Split(arn.GetOr(""), ':')[4]
    ensures ':' !in r.account
  {
    var parts := Split(arn.GetOr(""), ':');
    var region := if |parts| > 3 then parts[3]
      else if envRegion == None || envRegion == Some("") then DefaultRegion else envRegion.value;
    var account := if |parts| > 4 then parts[4] else DefaultAccount;
    AccountRegion(account, region)
  }

  /** Splitting a joined list of separator-free parts gives the parts back. */
  lemma {:induction false} SplitJoin(parts: seq<string>, sep: char)
    requires |parts| >= 1
    requires forall i :: 0 <= i < |parts| ==> sep !in parts[i]
    ensures Split(Join(parts, sep), sep) == parts
  {
    var s := Join(parts, sep);
    if |parts| > 1 {
      var p0 := parts[0];
      assert s == p0 + [sep] + Join(parts[1..], sep);
      assert s[|p0|] == sep;
      assert s[..|p0|] == p0;
      assert IndexOf(s, sep) == |p0|;
      assert s[|p0| + 1..] == Join(parts[1..], sep);
      SplitJoin(parts[1..], sep);
    }
  }

  /** A full ARN `arn:partition:service:region:account:...` yields its region and account fields. */
  lemma ArnFields(parts: seq<string>, envRegion: Option<string>)
    requires |parts| >= 5
    requires forall i :: 0 <= i < |parts| ==> ':' !in parts[i]
    ensures AccountRegionOf(Some(Join(parts, ':')), envRegion) == AccountRegion(parts[4], parts[3])
  {
    SplitJoin(parts, ':');
  }

  // ---------------------------------------------------------------------------
  // The fractional-second rewrite of parse_iso_to_utc_iso
  // ---------------------------------------------------------------------------

  /** `(frac + "000000")[:6]`: exactly six characters, truncated or zero-padded. */
  function SixDigits(frac: string): (r: string)
    ensures |r| == 6
    ensures |frac| >= 6 ==> r == frac[..6]
    ensures |frac| < 6 ==> r == frac + seq(6 - |frac|, _ => '0')
    ensures (forall k :: 0 <= k < |frac| ==> IsDigit(frac[k])) ==> forall k :: 0 <= k < 6 ==> IsDigit(r[k])
  {
    var padded := frac + "000000";
    assert |frac| < 6 ==> padded[..6] == frac + seq(6 - |frac|, _ => '0');
    padded[..6]
  }

  /**
   * The rewrite as written at lines 134-139: the fraction is every digit of the
   * text after the first `.`, and the kept suffix starts that many characters
   * into that text. The result is the head, a `.`, six digits and that suffix.
   */
  function RewriteFractionAsWritten(m: string): string
  {
    if '.' in m then
      var i := IndexOf(m, '.');
      var head, tail := m[..i], m[i + 1..];
      var frac := AllDigits(tail);
      var tz := tail[|frac|..];
      head + "." + SixDigits(frac) + tz
    else m
  }

  /**
   * A text with no `.` is kept; otherwise the text up to and including the
   * first `.` is kept, six fraction digits follow and then the kept suffix.
   */
  lemma RewriteFractionAsWrittenShape(m: string)
    ensures '.' !in m ==> RewriteFractionAsWritten(m) == m
    ensures '.' in m ==>
      var r, i := RewriteFractionAsWritten(m), IndexOf(m, '.');
      var tail := m[i + 1..];
      && |r| == i + 7 + |tail| - |AllDigits(tail)|
      && r[..i + 1] == m[..i + 1]
      && r[i + 1..i + 7] == SixDigits(AllDigits(tail))
      && r[i + 7..] == tail[|AllDigits(tail)|..]
  {
    if '.' in m {
      var i := IndexOf(m, '.');
      var tail := m[i + 1..];
      var frac := AllDigits(tail);
      assert |frac| <= |tail|;
      Pieces(m, i, SixDigits(frac), |frac|, RewriteFractionAsWritten(m));
    }
  }

  /**
   * The rewrite as intended by its comment ("keep timezone offset"): the
   * fraction is the run of digits right after the first `.`, and the rest of
   * the text, the offset, is kept.
   */
  function RewriteFraction(m: string): string
  {
    if '.' in m then
      var i := IndexOf(m, '.');
      var head, tail := m[..i], m[i + 1..];
      var frac := LeadingDigits(tail);
      var tz := tail[|frac|..];
      head + "." + SixDigits(frac) + tz
    else m
  }

  /**
   * A text with no `.` is kept; otherwise the text up to and including the
   * first `.` is kept, six fraction digits follow and then the kept suffix.
   */
  lemma RewriteFractionShape(m: string)
    ensures '.' !in m ==> RewriteFraction(m) == m
    ensures '.' in m ==>
      var r, i := RewriteFraction(m), IndexOf(m, '.');
      var tail := m[i + 1..];
      && |r| == i + 7 + |tail| - |LeadingDigits(tail)|
      && r[..i + 1] == m[..i + 1]
      && r[i + 1..i + 7] == SixDigits(LeadingDigits(tail))
      && r[i + 7..] == tail[|LeadingDigits(tail)|..]
  {
    if '.' in m {
      var i := IndexOf(m, '.');
      var tail := m[i + 1..];
      var frac := LeadingDigits(tail);
      assert |frac| <= |tail|;
      Pieces(m, i, SixDigits(frac), |frac|, RewriteFraction(m));
    }
  }

  /**
   * The pieces of `r`, the text `m` up to its `.` at `i`, then `mid` in
   * place of `n` characters after the `.`, then the rest.
   */
  lemma Pieces(m: string, i: nat, mid: string, n: nat, r: string)
    requires i < |m| && m[i] == '.' && n <= |m| - i - 1 && |mid| == 6
    requires r == m[..i] + "." + mid + m[i + 1..][n..]
    ensures |r| == i + 7 + |m[i + 1..]| - n
    ensures r[..i + 1] == m[..i + 1]
    ensures r[i + 1..i + 7] == mid
    ensures r[i + 7..] == m[i + 1..][n..]
  {
    assert m[..i + 1] == m[..i] + ".";
  }

  lemma {:induction false} AllDigitsFindsDigit(s: string, k: nat)
    requires k < |s| && IsDigit(s[k])
    ensures |AllDigits(s)| >= 1
  {
    if k > 0 && !IsDigit(s[0]) {
      AllDigitsFindsDigit(s[1..], k - 1);
    }
  }

  /** In `head.rest` with no `.` in `head`, the first `.` is the one after `head`. */
  lemma FirstDotAfter(head: string, rest: string)
    requires '.' !in head
    ensures var m := head + "." + rest;
      '.' in m && IndexOf(m, '.') == |head| && m[..|head|] == head && m[|head| + 1..] == rest
  {
    var m := head + "." + rest;
    assert m[|head|] == '.' && m[..|head|] == head;
    assert m[|head| + 1..] == rest;
  }

  /** The as-written rewrite of `head.rest`. */
  lemma AsWrittenAt(head: string, rest: string)
    requires '.' !in head
    ensures RewriteFractionAsWritten(head + "." + rest)
      == head + "." + SixDigits(AllDigits(rest)) + rest[|AllDigits(rest)|..]
  {
    FirstDotAfter(head, rest);
  }

  /** The corrected rewrite of `head.rest`. */
  lemma CorrectedAt(head: string, rest: string)
    requires '.' !in head
    ensures RewriteFraction(head + "." + rest)
      == head + "." + SixDigits(LeadingDigits(rest)) + rest[|LeadingDigits(rest)|..]
  {
    FirstDotAfter(head, rest);
  }

  /**
   * For a time `head.ds tz` whose offset `tz` has a digit, the corrected
   * rewrite keeps `tz` while the as-written one keeps less than `tz`: the
   * offset digits are counted into the fraction and the offset is cut short.
   */
  lemma OffsetKeptOnlyByCorrected(head: string, ds: string, tz: string)
    requires '.' !in head
    requires forall k :: 0 <= k < |ds| ==> IsDigit(ds[k])
    requires tz != [] && !IsDigit(tz[0])
    requires exists k :: 0 <= k < |tz| && IsDigit(tz[k])
    ensures RewriteFraction(head + "." + ds + tz) == head + "." + SixDigits(ds) + tz
    ensures |RewriteFractionAsWritten(head + "." + ds + tz)| < |head| + 7 + |tz|
  {
    assert head + "." + ds + tz == head + "." + (ds + tz);
    AsWrittenAt(head, ds + tz);
    CorrectedAt(head, ds + tz);
    LeadingDigitsOfRun(ds, tz);
    assert (ds + tz)[|ds|..] == tz;
    AllDigitsAppend(ds, tz);
    AllDigitsOfDigits(ds);
    var k :| 0 <= k < |tz| && IsDigit(tz[k]);
    AllDigitsFindsDigit(tz, k);
  }

  lemma {:induction false} LeadingDigitsOfRun(ds: string, rest: string)
    requires forall k :: 0 <= k < |ds| ==> IsDigit(ds[k])
    requires rest == [] || !IsDigit(rest[0])
    ensures LeadingDigits(ds + rest) == ds
  {
    if ds != [] {
      assert (ds + rest)[1..] == ds[1..] + rest;
      LeadingDigitsOfRun(ds[1..], rest);
    } else {
      assert ds + rest == rest;
    }
  }

  /** Where the text after the fraction has no digit (`Z`, or nothing), both rewrites agree. */
  lemma RewritesAgreeWithoutOffsetDigits(head: string, rest: string)
    requires '.' !in head
    requires forall k :: |LeadingDigits(rest)| <= k < |rest| ==> !IsDigit(rest[k])
    ensures RewriteFractionAsWritten(head + "." + rest) == RewriteFraction(head + "." + rest)
  {
    AsWrittenAt(head, rest);
    CorrectedAt(head, rest);
    OnlyLeadingDigits(rest);
  }

  /** With no digit after the leading run, collecting every digit collects just that run. */
  lemma OnlyLeadingDigits(rest: string)
    requires forall k :: |LeadingDigits(rest)| <= k < |rest| ==> !IsDigit(rest[k])
    ensures AllDigits(rest) == LeadingDigits(rest)
  {
    var ds := LeadingDigits(rest);
    var tz := rest[|ds|..];
    assert rest == ds + tz;
    forall k | 0 <= k < |tz|
      ensures !IsDigit(tz[k])
    {
      assert tz[k] == rest[|ds| + k];
    }
    AllDigitsAppend(ds, tz);
    AllDigitsOfDigits(ds);
    NoDigitsGivesEmpty(tz);
    assert AllDigits(ds) + AllDigits(tz) == ds;
  }

  lemma {:induction false} NoDigitsGivesEmpty(s: string)
    requires forall k :: 0 <= k < |s| ==> !IsDigit(s[k])
    ensures AllDigits(s) == ""
  {
    if s != [] {
      NoDigitsGivesEmpty(s[1..]);
    }
  }

  /**
   * The source's own example time, `2025-12-18T14:32:25.6874739-05:00`: as
   * written the rewrite yields `2025-12-18T14:32:25.68747300`, which has lost
   * the `-05:00` offset.
   */
  lemma ExampleOffsetSwallowed()
    ensures RewriteFractionAsWritten("2025-12-18T14:32:25.6874739-05:00") == "2025-12-18T14:32:25.68747300"
  {
    var head, ds, tz := "2025-12-18T14:32:25", "6874739", "-05:00";
    ExamplePieces();
    ExampleHeadHasNoDot();
    AsWrittenAt(head, ds + tz);
    ExampleDigits();
  }

  /** The corrected rewrite of the same time keeps the offset: `2025-12-18T14:32:25.687473-05:00`. */
  lemma ExampleOffsetKept()
    ensures RewriteFraction("2025-12-18T14:32:25.6874739-05:00") == "2025-12-18T14:32:25.687473-05:00"
  {
    var head, ds, tz := "2025-12-18T14:32:25", "6874739", "-05:00";
    ExamplePieces();
    ExampleHeadHasNoDot();
    CorrectedAt(head, ds + tz);
    ExampleDigits();
    LeadingDigitsOfRun(ds, tz);
  }

  lemma ExamplePieces()
    ensures "2025-12-18T14:32:25.6874739-05:00" == "2025-12-18T14:32:25" + "." + ("6874739" + "-05:00")
    ensures "2025-12-18T14:32:25.68747300" == "2025-12-18T14:32:25" + "." + "687473" + "00"
    ensures "2025-12-18T14:32:25.687473-05:00" == "2025-12-18T14:32:25" + "." + "687473" + "-05:00"
  {
  }

  lemma ExampleHeadHasNoDot()
    ensures '.' !in "2025-12-18T14:32:25"
  {
    var h := "2025-12-18T14:32:25";
    assert forall k :: 0 <= k < |h| ==> h[k] != '.';
  }

  /** The digits of the example's text after the dot: the fraction's seven and the offset's four. */
  lemma ExampleDigits()
    ensures AllDigits("6874739" + "-05:00") == "68747390500"
    ensures ("6874739" + "-05:00")[|"68747390500"|..] == "00"
    ensures SixDigits("68747390500") == "687473"
    ensures SixDigits("6874739") == "687473"
    ensures ("6874739" + "-05:00")[|"6874739"|..] == "-05:00"
  {
    OffsetDigits();
    AllDigitsOfDigits("6874739");
    AllDigitsAppend("6874739", "-05:00");
    ExampleDigitPieces();
  }

  lemma ExampleDigitPieces()
    ensures "6874739" + "0500" == "68747390500"
    ensures ("6874739" + "-05:00")[|"68747390500"|..] == "00"
    ensures SixDigits("68747390500") == "687473"
    ensures SixDigits("6874739") == "687473"
    ensures ("6874739" + "-05:00")[|"6874739"|..] == "-05:00"
  {
  }

  lemma OffsetDigits()
    ensures AllDigits("-05:00") == "0500"
  {
    AllDigitsOfDigits("05");
    AllDigitsOfDigits("00");
    assert AllDigits("-") == "" && AllDigits(":") == "";
    OffsetPieces();
    AllDigitsAppend(":", "00");
    AllDigitsAppend("05", ":00");
    AllDigitsAppend("-", "05:00");
  }

  lemma OffsetPieces()
    ensures "-05:00" == "-" + "05:00"
    ensures "05:00" == "05" + ":00"
    ensures ":00" == ":" + "00"
    ensures "0500" == "05" + "00"
  {
  }

  /**
   * `parse_iso_to_utc_iso`: an empty input, or one the ISO parser (`toUtc`,
   * standing for `fromisoformat` plus conversion to UTC) rejects after the
   * rewrite as written, gives the current time `now`; otherwise the parser's
   * UTC rendering of the rewritten text.
   */
  function ParseIsoToUtc(dt: string, toUtc: string -> Option<string>, now: string): (r: string)
    ensures dt == "" ==> r == now
    ensures dt != "" && toUtc(RewriteFractionAsWritten(dt)).None? ==> r == now
    ensures dt != "" && toUtc(RewriteFractionAsWritten(dt)).Some? ==> r == toUtc(RewriteFractionAsWritten(dt)).value
  {
    if dt == "" then now
    else
      match toUtc(RewriteFractionAsWritten(dt))
      case None => now
      case Some(u) => u
  }
}
