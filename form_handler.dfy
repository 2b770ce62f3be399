/**
 * The logic of form-handler.js: the per-field normalisation of
 * `collectFormData`, the ordered guard chain of `validateSatelliteData`, and
 * the pattern half of `isValidDate`. Finding the inputs in the page and all
 * user feedback are left to the host.
 */
module FormHandler {
  import opened Wrappers
  import opened Text
  import opened SatelliteApi

  // ---------------------------------------------------------------------
  // Collecting the form
  // ---------------------------------------------------------------------

  /**
   * The raw values of the form's eight inputs: `None` when the input was not
   * found in the form or has no value.
   */
  datatype FormInputs = FormInputs(
    title: Option<string>, noradId: Option<string>, cosparId: Option<string>,
    missionType: Option<string>, status: Option<string>, orbitType: Option<string>,
    launchDate: Option<string>, sensorNames: Option<string>)

  /** `input?.value?.trim() || fallback` */
  function Normalize(value: Option<string>, fallback: string): (r: string)
    ensures value.None? ==> r == fallback
    ensures value.Some? && AllWhitespace(value.value) ==> r == fallback
    ensures value.Some? && !AllWhitespace(value.value) ==> r == Trim(value.value) && r != ""
    ensures IsTrimmed(fallback) ==> IsTrimmed(r)
  {
    match value
    case None => fallback
    case Some(v) =>
      TrimEmptyIff(v);
      if Trim(v) != "" then Trim(v) else fallback
  }

  /** The record `collectFormData` builds from the inputs it found. */
  function CollectFormData(f: FormInputs): (d: SatelliteData)
    ensures d == SatelliteData(
      Normalize(f.title, ""), Normalize(f.noradId, ""), Normalize(f.cosparId, ""),
      Normalize(f.missionType, ""), Normalize(f.status, "Operational"),
      Normalize(f.orbitType, ""), Normalize(f.launchDate, ""), Normalize(f.sensorNames, ""))
    ensures d.status != ""
    ensures IsTrimmed(d.title) && IsTrimmed(d.noradId) && IsTrimmed(d.cosparId)
    ensures IsTrimmed(d.missionType) && IsTrimmed(d.orbitType) && IsTrimmed(d.launchDate)
    ensures IsTrimmed(d.sensorNames) && IsTrimmed(d.status)
  {
    assert IsTrimmed("Operational");
    SatelliteData(
      Normalize(f.title, ""), Normalize(f.noradId, ""), Normalize(f.cosparId, ""),
      Normalize(f.missionType, ""), Normalize(f.status, "Operational"),
      Normalize(f.orbitType, ""), Normalize(f.launchDate, ""), Normalize(f.sensorNames, ""))
  }

  /** The inputs of a form filled in with the values of `d`. */
  function Refill(d: SatelliteData): FormInputs
  {
    FormInputs(Some(d.title), Some(d.noradId), Some(d.cosparId), Some(d.missionType),
               Some(d.status), Some(d.orbitType), Some(d.launchDate), Some(d.sensorNames))
  }

  /** A value that normalisation produced normalises to itself. */
  lemma NormalizeStable(value: Option<string>, fallback: string)
    requires fallback == "" || (IsTrimmed(fallback) && !AllWhitespace(fallback))
    ensures Normalize(Some(Normalize(value, fallback)), fallback) == Normalize(value, fallback)
  {
  }

  /** Collecting a form filled with collected values gives those values back. */
  lemma CollectIdempotent(f: FormInputs)
    ensures CollectFormData(Refill(CollectFormData(f))) == CollectFormData(f)
  {
    NormalizeStable(f.title, "");
    NormalizeStable(f.noradId, "");
    NormalizeStable(f.cosparId, "");
    NormalizeStable(f.missionType, "");
    assert !IsJsWhitespace("Operational"[0]);
    NormalizeStable(f.status, "Operational");
    NormalizeStable(f.orbitType, "");
    NormalizeStable(f.launchDate, "");
    NormalizeStable(f.sensorNames, "");
  }

  // ---------------------------------------------------------------------
  // Patterns
  // ---------------------------------------------------------------------

  /** `/^\d{4}-\d{2}-\d{2}$/`: ten characters, dashes at indices 4 and 7, digits elsewhere. */
  predicate MatchesDatePattern(s: string)
    ensures MatchesDatePattern(s) <==>
      |s| == 10 && forall i :: 0 <= i < |s| ==> if i == 4 || i == 7 then s[i] == '-' else IsDigit(s[i])
  {
    && |s| == 10 && AllDigits(s[..4]) && s[4] == '-'
    && AllDigits(s[5..7]) && s[7] == '-' && AllDigits(s[8..])
  }

  /**
   * `isValidDate`: the pattern, then the host's date parser, which is the
   * parameter `parsesAsDate`.
   */
  function IsValidDate(s: string, parsesAsDate: string -> bool): (r: bool)
    ensures r ==> MatchesDatePattern(s)
    ensures MatchesDatePattern(s) ==> (r <==> parsesAsDate(s))
  {
    MatchesDatePattern(s) && parsesAsDate(s)
  }

  /** One alternative of the COSPAR pattern: four digits, `-`, `n` digits, `k` capitals. */
  predicate CosparAlternative(s: string, n: nat, k: nat)
  {
    && |s| == 5 + n + k && AllDigits(s[..4]) && s[4] == '-'
    && AllDigits(s[5..5 + n]) && (forall i :: 5 + n <= i < |s| ==> IsUpperAscii(s[i]))
  }

  /** `/^\d{4}-\d{3,4}[A-Z]?$/`, one disjunct per way the pattern can match. */
  predicate MatchesCosparPattern(s: string)
    ensures MatchesCosparPattern(s) ==>
      8 <= |s| <= 10 && AllDigits(s[..4]) && s[4] == '-' && IsDigit(s[5]) && IsDigit(s[6]) && IsDigit(s[7])
  {
    CosparAlternative(s, 3, 0) || CosparAlternative(s, 3, 1)
    || CosparAlternative(s, 4, 0) || CosparAlternative(s, 4, 1)
  }

  /**
   * The COSPAR pattern read position by position: 8 to 10 characters, the
   * year digits, a dash, three digits, then a digit or capital at index 8
   * and a capital at index 9 (after a digit at index 8).
   */
  lemma CosparPatternByPosition(s: string)
    ensures MatchesCosparPattern(s) <==>
      && 8 <= |s| <= 10 && AllDigits(s[..4]) && s[4] == '-' && AllDigits(s[5..8])
      && (|s| >= 9 ==> IsDigit(s[8]) || IsUpperAscii(s[8]))
      && (|s| == 10 ==> IsDigit(s[8]) && IsUpperAscii(s[9]))
  {
    if 8 <= |s| {
      if |s| == 9 && IsDigit(s[8]) {
        assert s[5..9] == s[5..8] + [s[8]];
      }
      if |s| == 10 && IsDigit(s[8]) {
        assert s[5..9] == s[5..8] + [s[8]];
      }
      if CosparAlternative(s, 4, 0) || CosparAlternative(s, 4, 1) {
        assert s[5..8] == s[5..9][..3];
        assert s[8] == s[5..9][3];
      }
    }
  }

  lemma PatternExamples()
    ensures MatchesCosparPattern("1998-067A")
    ensures MatchesCosparPattern("2021-130A") && MatchesCosparPattern("1990-037B")
    ensures !MatchesCosparPattern("98-067A")
    ensures !MatchesCosparPattern("1998-06")
    ensures !IsNumeric("25A44") && IsNumeric("25544")
    ensures MatchesDatePattern("1998-11-20") && !MatchesDatePattern("1998-1-20")
  {
    CosparPatternByPosition("1998-067A");
    CosparPatternByPosition("2021-130A");
    CosparPatternByPosition("1990-037B");
    assert "25A44"[2] == 'A';
    assert "1998-1-20"[6] == '-';
  }

  // ---------------------------------------------------------------------
  // validateSatelliteData
  // ---------------------------------------------------------------------

  datatype Validation = Passed | Failed(message: string)

  const TitleRequired: string := "Satellite Name is required"
  const NoradRequired: string := "NORAD ID is required"
  const CosparRequired: string := "COSPAR ID is required"
  const NoradNotNumeric: string := "NORAD ID must be numeric"
  const CosparMalformed: string := "COSPAR ID format should be YYYY-XXX (e.g., 1998-067A)"
  const LaunchDateMalformed: string := "Launch Date must be in YYYY-MM-DD format"

  /** `validateSatelliteData`: the message of the first guard that throws. */
  function ValidateSatelliteData(d: SatelliteData, parsesAsDate: string -> bool): (v: Validation)
    ensures v == Passed <==>
      && d.title != "" && d.noradId != "" && d.cosparId != ""
      && IsNumeric(d.noradId) && MatchesCosparPattern(d.cosparId)
      && (d.launchDate == "" || IsValidDate(d.launchDate, parsesAsDate))
    ensures d.title == "" ==> v == Failed(TitleRequired)
  {
    if d.title == "" then Failed(TitleRequired)
    else if d.noradId == "" then Failed(NoradRequired)
    else if d.cosparId == "" then Failed(CosparRequired)
    else if !IsNumeric(d.noradId) then Failed(NoradNotNumeric)
    else if !MatchesCosparPattern(d.cosparId) then Failed(CosparMalformed)
    else if d.launchDate != "" && !IsValidDate(d.launchDate, parsesAsDate) then Failed(LaunchDateMalformed)
    else Passed
  }

  // The rules as an ordered table, the reference the guard chain is checked against.

  datatype Rule = TitlePresent | NoradPresent | CosparPresent | NoradNumeric | CosparFormat | LaunchDateFormat

  const RuleOrder: seq<Rule> :=
    [TitlePresent, NoradPresent, CosparPresent, NoradNumeric, CosparFormat, LaunchDateFormat]

  predicate Holds(r: Rule, d: SatelliteData, parsesAsDate: string -> bool)
  {
    match r
    case TitlePresent => d.title != ""
    case NoradPresent => d.noradId != ""
    case CosparPresent => d.cosparId != ""
    case NoradNumeric => IsNumeric(d.noradId)
    case CosparFormat => MatchesCosparPattern(d.cosparId)
    case LaunchDateFormat => d.launchDate == "" || IsValidDate(d.launchDate, parsesAsDate)
  }

  function RuleMessage(r: Rule): string
  {
    match r
    case TitlePresent => TitleRequired
    case NoradPresent => NoradRequired
    case CosparPresent => CosparRequired
    case NoradNumeric => NoradNotNumeric
    case CosparFormat => CosparMalformed
    case LaunchDateFormat => LaunchDateMalformed
  }

  /** The message of the first rule of `rules` that `d` violates. */
  function FirstViolation(rules: seq<Rule>, d: SatelliteData, parsesAsDate: string -> bool): Validation
  {
    if rules == [] then Passed
    else if !Holds(rules[0], d, parsesAsDate) then Failed(RuleMessage(rules[0]))
    else FirstViolation(rules[1..], d, parsesAsDate)
  }

  /** The guard chain reports the first violated rule of the table. */
  lemma ValidateIsFirstViolation(d: SatelliteData, parsesAsDate: string -> bool)
    ensures ValidateSatelliteData(d, parsesAsDate) == FirstViolation(RuleOrder, d, parsesAsDate)
  {
    var p := parsesAsDate;
    var r5 := [LaunchDateFormat];
    var r4 := [CosparFormat] + r5;
    var r3 := [NoradNumeric] + r4;
    var r2 := [CosparPresent] + r3;
    var r1 := [NoradPresent] + r2;
    assert RuleOrder == [TitlePresent] + r1;
    assert r5[1..] == [] && r4[1..] == r5 && r3[1..] == r4 && r2[1..] == r3 && r1[1..] == r2;
    assert FirstViolation(r5, d, p) == if Holds(LaunchDateFormat, d, p) then Passed else Failed(LaunchDateMalformed);
    assert FirstViolation(r4, d, p) == if Holds(CosparFormat, d, p) then FirstViolation(r5, d, p) else Failed(CosparMalformed);
    assert FirstViolation(r3, d, p) == if Holds(NoradNumeric, d, p) then FirstViolation(r4, d, p) else Failed(NoradNotNumeric);
    assert FirstViolation(r2, d, p) == if Holds(CosparPresent, d, p) then FirstViolation(r3, d, p) else Failed(CosparRequired);
    assert FirstViolation(r1, d, p) == if Holds(NoradPresent, d, p) then FirstViolation(r2, d, p) else Failed(NoradRequired);
  }

  lemma {:induction false} FirstViolationAt(rules: seq<Rule>, d: SatelliteData, parsesAsDate: string -> bool, k: nat)
    requires k < |rules|
    requires forall i, j :: 0 <= i < j < |rules| ==> RuleMessage(rules[i]) != RuleMessage(rules[j])
    ensures FirstViolation(rules, d, parsesAsDate) == Failed(RuleMessage(rules[k])) <==>
      !Holds(rules[k], d, parsesAsDate) && forall j :: 0 <= j < k ==> Holds(rules[j], d, parsesAsDate)
  {
    var r := FirstViolation(rules, d, parsesAsDate);
    if k == 0 {
      if Holds(rules[0], d, parsesAsDate) {
        FirstViolationMessage(rules[1..], d, parsesAsDate);
        if r.Failed? {
          var i :| 0 <= i < |rules[1..]| && r.message == RuleMessage(rules[1..][i]);
          assert rules[1..][i] == rules[i + 1];
        }
      }
    } else {
      FirstViolationAt(rules[1..], d, parsesAsDate, k - 1);
      assert rules[1..][k - 1] == rules[k];
      assert forall j :: 0 <= j < k - 1 ==> rules[1..][j] == rules[j + 1];
      if !Holds(rules[0], d, parsesAsDate) {
        assert RuleMessage(rules[0]) != RuleMessage(rules[k]);
      }
    }
  }

  lemma {:induction false} FirstViolationMessage(rules: seq<Rule>, d: SatelliteData, parsesAsDate: string -> bool)
    ensures FirstViolation(rules, d, parsesAsDate).Failed? ==>
      exists i :: 0 <= i < |rules| && FirstViolation(rules, d, parsesAsDate).message == RuleMessage(rules[i])
  {
    if rules != [] && Holds(rules[0], d, parsesAsDate) {
      FirstViolationMessage(rules[1..], d, parsesAsDate);
      if FirstViolation(rules[1..], d, parsesAsDate).Failed? {
        var i :| 0 <= i < |rules[1..]| && FirstViolation(rules[1..], d, parsesAsDate).message == RuleMessage(rules[1..][i]);
        assert rules[1..][i] == rules[i + 1];
      }
    }
  }

  /**
   * Validation fails with the message of rule `k` (title, NORAD presence,
   * COSPAR presence, NORAD format, COSPAR format, launch date, in this
   * order) exactly when rule `k` is violated and every earlier rule holds.
   */
  lemma ValidationReportsFirstFailure(d: SatelliteData, parsesAsDate: string -> bool, k: nat)
    requires k < |RuleOrder|
    ensures ValidateSatelliteData(d, parsesAsDate) == Failed(RuleMessage(RuleOrder[k])) <==>
      !Holds(RuleOrder[k], d, parsesAsDate) && forall j :: 0 <= j < k ==> Holds(RuleOrder[j], d, parsesAsDate)
  {
    ValidateIsFirstViolation(d, parsesAsDate);
    FirstViolationAt(RuleOrder, d, parsesAsDate, k);
  }

  /** A present NORAD id with a non-digit fails the format rule, once the three presence rules hold. */
  lemma NonNumericNoradRejected(d: SatelliteData, parsesAsDate: string -> bool)
    requires d.title != "" && d.cosparId != "" && d.noradId != ""
    requires exists i :: 0 <= i < |d.noradId| && !IsDigit(d.noradId[i])
    ensures ValidateSatelliteData(d, parsesAsDate) == Failed("NORAD ID must be numeric")
  {
  }

  /** A launch date that is left empty is never checked. */
  lemma EmptyLaunchDateSkipsDateCheck(d: SatelliteData, p: string -> bool, q: string -> bool)
    requires d.launchDate == ""
    ensures ValidateSatelliteData(d, p) == ValidateSatelliteData(d, q)
  {
  }

  /** A present launch date that does not have the `dddd-dd-dd` shape is rejected, whatever the date parser says. */
  lemma MalformedLaunchDateRejected(d: SatelliteData, parsesAsDate: string -> bool)
    requires d.launchDate != "" && !MatchesDatePattern(d.launchDate)
    ensures ValidateSatelliteData(d, parsesAsDate) != Passed
  {
  }

  /** Data the form accepts always passes the client's own pre-flight check, so a request is sent when a token exists. */
  lemma ValidatedDataReachesServer<R>(d: SatelliteData, parsesAsDate: string -> bool, m: SatelliteManager,
                                      token: string, resp: Response<R>)
    requires ValidateSatelliteData(d, parsesAsDate) == Passed
    ensures HasRequiredFields(d)
    ensures AddSatellite(m, d, Some(token), resp).request.Some?
  {
  }

  /** The first sample record of examples.js passes the form's validation. */
  lemma SampleRecordValidates(parsesAsDate: string -> bool)
    requires parsesAsDate("1998-11-20")
    ensures ValidateSatelliteData(
      SatelliteData("ISS (ZARYA)", "25544", "1998-067A", "Space Station", "Operational",
                    "Low Earth Orbit", "1998-11-20", "Cupola, Destiny Module, Columbus Module"),
      parsesAsDate) == Passed
  {
  }
}
