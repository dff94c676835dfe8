/**
 * The rows that threshold statistics are computed from, and their checks
 * (apps/api/src/analytics/risk-threshold-validation.ts). A JavaScript number is a real, or none.
 */
module ValidationRows {
  import opened Wrappers
  import opened Text
  import opened IsoDates

  datatype Outcome = FollowUp | NoFollowUp | Uncertain

  datatype Indicator =
    | AttendanceRate | AttendanceDelta | TardinessRate | TardinessDelta
    | AlfaRate | AlfaDelta | AcademicAverage | AcademicParticipation

  const INDICATORS := [AttendanceRate, AttendanceDelta, TardinessRate, TardinessDelta,
                       AlfaRate, AlfaDelta, AcademicAverage, AcademicParticipation]

  /** A number that may be infinite, not a number, or absent. */
  datatype Amount = Finite(value: real) | NonFinite

  /** Student-days, or result slots: how many were expected, and how many of them are recorded. */
  datatype Coverage = Coverage(expected: Amount, recorded: Amount)

  /** A row; an outcome that is none of the three is None, and so is an indicator that is null. */
  datatype ValidationRow = ValidationRow(caseId: string, reviewDate: string, outcome: Option<Outcome>,
    attendance: Option<(Coverage, Coverage)>, academic: Coverage, indicators: Indicator -> Option<Amount>)

  // ---------- rows ----------

  predicate IsCaseId(id: string) {
    "CASE-" <= id && |id| >= 8 && AllDigits(id[5..])
  }

  predicate IsCount(a: Amount) {
    a.Finite? && a.value >= 0.0 && a.value == a.value.Floor as real
  }

  predicate Sound(c: Coverage) {
    IsCount(c.expected) && IsCount(c.recorded) && c.recorded.value <= c.expected.value
  }

  /** Attendance, where there is any, and academic results. */
  predicate Covered(row: ValidationRow) {
    (row.attendance.Some? ==> Sound(row.attendance.value.0) && Sound(row.attendance.value.1)) && Sound(row.academic)
  }

  /** CASE- and at least three digits. */
  ghost predicate NamesCase(id: string) {
    exists digits :: AllDigits(digits) && |digits| >= 3 && id == "CASE-" + digits
  }

  lemma CaseIdIff(id: string)
    ensures IsCaseId(id) <==> NamesCase(id)
  {
    if IsCaseId(id) { assert id == "CASE-" + id[5..]; }
    forall digits | AllDigits(digits) && |digits| >= 3 && id == "CASE-" + digits ensures id[5..] == digits && "CASE-" <= id {}
  }

  /** Some natural numbers were expected, and as many or fewer recorded. */
  ghost predicate Counts(c: Coverage) {
    exists recorded: nat, expected: nat ::
      recorded <= expected && IsNumber(c.recorded, recorded) && IsNumber(c.expected, expected)
  }

  ghost predicate IsNumber(a: Amount, n: nat) {
    a == Finite(n as real)
  }

  lemma SoundIff(c: Coverage)
    ensures Sound(c) <==> Counts(c)
  {
    if Sound(c) {
      var recorded, expected := c.recorded.value.Floor, c.expected.value.Floor;
      assert IsNumber(c.recorded, recorded) && IsNumber(c.expected, expected);
    }
    forall recorded: nat, expected: nat |
        recorded <= expected && IsNumber(c.recorded, recorded) && IsNumber(c.expected, expected)
      ensures Sound(c)
    {
      assert (recorded as real).Floor == recorded && (expected as real).Floor == expected;
    }
  }

  /** What a row must be on its own. */
  ghost predicate Valid(row: ValidationRow) {
    && NamesCase(row.caseId) && IsDate(row.reviewDate) && row.outcome.Some?
    && (row.attendance.Some? ==> Counts(row.attendance.value.0) && Counts(row.attendance.value.1)) && Counts(row.academic)
    && forall k :: row.indicators(k).Some? ==> row.indicators(k).value.Finite?
  }

  lemma CoveredIff(row: ValidationRow)
    ensures Covered(row) <==>
      (row.attendance.Some? ==> Counts(row.attendance.value.0) && Counts(row.attendance.value.1)) && Counts(row.academic)
  {
    if row.attendance.Some? {
      SoundIff(row.attendance.value.0);
      SoundIff(row.attendance.value.1);
    }
    SoundIff(row.academic);
  }

  /** A repeated case identifier is not noticed. */
  ghost predicate AllValid(rows: seq<ValidationRow>) {
    forall i :: 0 <= i < |rows| ==> Valid(rows[i])
  }

  /** The checks on one row, in order. */
  method CheckRow(row: ValidationRow) returns (ok: bool)
    ensures ok <==> Valid(row)
  {
    CaseIdIff(row.caseId);
    CoveredIff(row);
    if !IsCaseId(row.caseId) { return false; }
    ok := CheckDate(row.reviewDate);
    if !ok || row.outcome.None? { return false; }
    ok := CheckCoverage(row);
    if !ok { return; }
    ok := CheckIndicators(row.indicators);
  }

  method CheckDate(date: string) returns (ok: bool)
    ensures ok <==> IsDate(date)
  {
    IsoDateAcceptedIff(date);
    return IsIsoDate(date);
  }

  method CheckCoverage(row: ValidationRow) returns (ok: bool)
    ensures ok <==> Covered(row)
  {
    if row.attendance.Some? {
      var (current, previous) := row.attendance.value;
      var counts := [current.expected, current.recorded, previous.expected, previous.recorded];
      ok := CheckCounts(counts);
      assert counts[0] == current.expected && counts[1] == current.recorded;
      assert counts[2] == previous.expected && counts[3] == previous.recorded;
      if !ok { return; }
      if current.recorded.value > current.expected.value || previous.recorded.value > previous.expected.value { return false; }
    }
    var counts := [row.academic.recorded, row.academic.expected];
    ok := CheckCounts(counts);
    assert counts[0] == row.academic.recorded && counts[1] == row.academic.expected;
    return ok && row.academic.recorded.value <= row.academic.expected.value;
  }

  method CheckCounts(counts: seq<Amount>) returns (ok: bool)
    ensures ok <==> forall i :: 0 <= i < |counts| ==> IsCount(counts[i])
  {
    for i := 0 to |counts|
      invariant forall k :: 0 <= k < i ==> IsCount(counts[k])
    {
      if !IsCount(counts[i]) { return false; }
    }
    return true;
  }

  method CheckIndicators(indicators: Indicator -> Option<Amount>) returns (ok: bool)
    ensures ok <==> forall k :: indicators(k).Some? ==> indicators(k).value.Finite?
  {
    for i := 0 to |INDICATORS|
      invariant forall j :: 0 <= j < i && indicators(INDICATORS[j]).Some? ==> indicators(INDICATORS[j]).value.Finite?
    {
      var value := indicators(INDICATORS[i]);
      if value.Some? && value.value.NonFinite? { return false; }
    }
    forall k | indicators(k).Some? ensures indicators(k).value.Finite? { EveryIndicatorIsListed(k); }
    return true;
  }

  lemma EveryIndicatorIsListed(k: Indicator)
    ensures exists i :: 0 <= i < |INDICATORS| && INDICATORS[i] == k
  {
    assert INDICATORS[0].AttendanceRate? && INDICATORS[1].AttendanceDelta? && INDICATORS[2].TardinessRate?;
    assert INDICATORS[3].TardinessDelta? && INDICATORS[4].AlfaRate? && INDICATORS[5].AlfaDelta?;
    assert INDICATORS[6].AcademicAverage? && INDICATORS[7].AcademicParticipation?;
  }

  ghost predicate ValidTo(rows: seq<ValidationRow>, i: nat) {
    i <= |rows| && forall j :: 0 <= j < i ==> Valid(rows[j])
  }

  lemma ValidStep(rows: seq<ValidationRow>, i: nat)
    requires i < |rows| && ValidTo(rows, i)
    ensures ValidTo(rows, i + 1) <==> Valid(rows[i])
    ensures !Valid(rows[i]) ==> !AllValid(rows)
  {
  }

  lemma ValidEnds(rows: seq<ValidationRow>)
    ensures ValidTo(rows, 0) && (ValidTo(rows, |rows|) <==> AllValid(rows))
  {
  }

  /** validateValidationRows: Set.add gives the set back, so its negation never reports a duplicate. */
  method ValidateRows(rows: seq<ValidationRow>) returns (ok: bool)
    ensures ok <==> AllValid(rows)
  {
    var seen: set<string> := {};
    ValidEnds(rows);
    for i := 0 to |rows|
      invariant ValidTo(rows, i)
    {
      seen := seen + {rows[i].caseId};
      ValidStep(rows, i);
      ok := CheckRow(rows[i]);
      if !ok { return; }
    }
    return true;
  }
}
