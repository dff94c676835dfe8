/**
 * Normalising a machine attendance sheet (packages/excel/src/machine-attendance.ts): rows are
 * merged one at a time into a map by identifier and date, then sorted. Warnings are kept as a
 * set; their order in the source's list is not modelled.
 */
module Attendance {
  import opened Wrappers
  import opened Text
  import opened Sorting
  import opened Lists

  // ---------- rows ----------

  datatype Field<+T> = Valid(value: T) | Blank | Invalid

  datatype Evidence = Evidence(
    sourceRow: nat, name: Option<string>, scanIn: Field<string>, scanOut: Field<string>,
    sourceLate: Field<nat>, absent: Field<bool>, overtime: Field<nat>, exception: Field<string>)

  datatype MachineEvidence = ScanPresent | NoScan | MultipleScans | InvalidScanValue

  datatype Row = Row(
    sourceRows: seq<nat>, evidence: seq<Evidence>, identifier: Option<string>, name: Option<string>, conflict: bool,
    date: Option<string>, checkIn: Option<string>, checkOut: Option<string>, lateMinutes: Option<nat>,
    scanTimes: seq<string>, warnings: set<string>, machineEvidence: MachineEvidence, invalidReason: Option<string>)

  datatype IdCell = IdBlank | IdText(text: string) | IdNumber(number: int) | IdOther

  datatype SheetRow =
    | BlankRow
    | DataRow(id: IdCell, date: Option<string>, fields: Evidence)

  const MAX_SAFE := 0x1F_FFFF_FFFF_FFFF

  /** normalizeMachineIdentifier */
  function NormalizeIdentifier(c: IdCell): (r: Option<string>)
    ensures r.Some? ==> r.value != "" && AllDigits(r.value)
  {
    match c
    case IdText(t) => if Trim(t) != "" && AllDigits(Trim(t)) then Some(Trim(t)) else None
    case IdNumber(n) => if 0 <= n <= MAX_SAFE then Some(Numeral(n)) else None
    case _ => None
  }

  function ValidTime(f: Field<string>): Option<string> {
    if f.Valid? then Some(f.value) else None
  }

  function Names(evidence: seq<Evidence>): seq<string> {
    Collect(evidence, (e: Evidence) => e.name)
  }

  function Arrivals(evidence: seq<Evidence>): seq<string> {
    Collect(evidence, (e: Evidence) => ValidTime(e.scanIn))
  }

  function Departures(evidence: seq<Evidence>): seq<string> {
    Collect(evidence, (e: Evidence) => ValidTime(e.scanOut))
  }

  function Lates(evidence: seq<Evidence>): seq<nat> {
    Collect(evidence, (e: Evidence) => if e.sourceLate.Valid? then Some(e.sourceLate.value) else None)
  }

  function First<T>(xs: seq<T>): Option<T> {
    if xs == [] then None else Some(xs[0])
  }

  function Last<T>(xs: seq<T>): Option<T> {
    if xs == [] then None else Some(xs[|xs| - 1])
  }

  /** new Set over a list, in order of first occurrence */
  function Distinct(xs: seq<string>): seq<string> {
    if xs == [] then []
    else
      var front := Distinct(xs[..|xs| - 1]);
      if xs[|xs| - 1] in front then front else front + [xs[|xs| - 1]]
  }

  function NameSet(evidence: seq<Evidence>): set<string> {
    set n | n in Names(evidence)
  }

  predicate Any(evidence: seq<Evidence>, f: Evidence -> bool) {
    exists e :: e in evidence && f(e)
  }

  predicate AnyInvalidScanIn(evidence: seq<Evidence>) {
    Any(evidence, (e: Evidence) => e.scanIn.Invalid?)
  }

  function When(condition: bool, warning: string): set<string> {
    if condition then {warning} else {}
  }

  /** The warnings mergeRows derives from all evidence so far. */
  function Derived(evidence: seq<Evidence>): set<string> {
    When(|evidence| > 1, "DUPLICATE_SOURCE_ROWS_MERGED")
    + When(|NameSet(evidence)| > 1, "SOURCE_IDENTITY_CONFLICT")
    + When(AnyInvalidScanIn(evidence), "INVALID_SCAN_IN")
    + When(Any(evidence, (e: Evidence) => e.scanOut.Invalid?), "INVALID_SCAN_OUT")
    + When(Any(evidence, (e: Evidence) => e.sourceLate.Invalid?), "INVALID_SOURCE_LATENESS")
    + When(Any(evidence, (e: Evidence) => e.absent.Invalid?), "INVALID_ABSENT_FIELD")
    + When(Any(evidence, (e: Evidence) => e.overtime.Invalid?), "INVALID_OVERTIME")
  }

  function Present(o: Option<string>): bool {
    o.Some? && o.value != ""
  }

  function Reason(identifier: Option<string>, date: Option<string>): Option<string> {
    if !Present(identifier) then Some("The machine identifier is missing or invalid.")
    else if !Present(date) then Some("The attendance date is missing or invalid.")
    else None
  }

  function SourceRows(evidence: seq<Evidence>): (r: seq<nat>)
    ensures |r| == |evidence|
  {
    seq(|evidence|, i requires 0 <= i < |evidence| => evidence[i].sourceRow)
  }

  /** The row for a list of evidence, given the warnings it arrives with. */
  function Summarize(evidence: seq<Evidence>, warnings: set<string>, identifier: Option<string>, date: Option<string>): Row {
    var names := Names(evidence);
    var arrivals, departures := Sort(Arrivals(evidence), LexLe), Sort(Departures(evidence), LexLe);
    var late := First(Lates(evidence));
    var checkIn := First(arrivals);
    Row(SourceRows(evidence), evidence, identifier, First(names), |NameSet(evidence)| > 1, date, checkIn, Last(departures),
        if late.Some? then Some(late.value / 60) else None,
        Sort(Distinct(arrivals + departures), LexLe), warnings + Derived(evidence),
        if |evidence| > 1 && arrivals != [] then MultipleScans else if Present(checkIn) then ScanPresent
        else if AnyInvalidScanIn(evidence) then InvalidScanValue else NoScan,
        Reason(identifier, date))
  }

  /** mergeRows */
  function MergeRows(current: Option<Row>, next: Row): Row {
    match current
    case None => Summarize(next.evidence, next.warnings, next.identifier, next.date)
    case Some(c) => Summarize(c.evidence + next.evidence, c.warnings + next.warnings, next.identifier, next.date)
  }

  /** The warnings of a row by itself, named after its invalid fields. */
  function OwnWarnings(e: Evidence): set<string> {
    When(e.scanIn.Invalid?, "INVALID_SCAN_IN") + When(e.scanOut.Invalid?, "INVALID_SCAN_OUT")
    + When(e.sourceLate.Invalid?, "INVALID_SOURCE_LATE") + When(e.absent.Invalid?, "INVALID_ABSENT")
    + When(e.overtime.Invalid?, "INVALID_OVERTIME") + When(e.exception.Invalid?, "INVALID_EXCEPTION")
  }

  /** The row built for one sheet row before any merging. */
  function BaseRow(number: nat, r: SheetRow): Row
    requires r.DataRow?
  {
    var e := r.fields.(sourceRow := number);
    var id := NormalizeIdentifier(r.id);
    var checkIn, checkOut := ValidTime(e.scanIn), ValidTime(e.scanOut);
    var times := (if checkIn.Some? then [checkIn.value] else []) + (if checkOut.Some? then [checkOut.value] else []);
    Row([number], [e], id, e.name, false, r.date, checkIn, checkOut,
        if e.sourceLate.Valid? then Some(e.sourceLate.value / 60) else None, Sort(times, LexLe),
        OwnWarnings(e),
        if e.scanIn.Valid? then ScanPresent else if e.scanIn.Invalid? then InvalidScanValue else NoScan,
        Reason(id, r.date))
  }

  // ---------- one merge instead of many ----------

  function AllEvidence(rows: seq<Row>): seq<Evidence> {
    if rows == [] then [] else AllEvidence(rows[..|rows| - 1]) + rows[|rows| - 1].evidence
  }

  function AllWarnings(rows: seq<Row>): set<string> {
    if rows == [] then {} else AllWarnings(rows[..|rows| - 1]) + rows[|rows| - 1].warnings
  }

  /** A single merge over all rows of a key. */
  function MergeAll(rows: seq<Row>): Row
    requires rows != []
  {
    var last := rows[|rows| - 1];
    Summarize(AllEvidence(rows), AllWarnings(rows), last.identifier, last.date)
  }

  /** The rows of a key merged one at a time. */
  function Folded(rows: seq<Row>): Option<Row> {
    if rows == [] then None else Some(MergeRows(Folded(rows[..|rows| - 1]), rows[|rows| - 1]))
  }

  lemma SubsetSize<T>(a: set<T>, b: set<T>)
    requires a <= b
    ensures |a| <= |b|
  {
    assert b == a + (b - a);
  }

  lemma AnyGrows(a: seq<Evidence>, b: seq<Evidence>, f: Evidence -> bool)
    ensures Any(a, f) ==> Any(a + b, f)
  {
    if Any(a, f) {
      var e :| e in a && f(e);
      assert e in a + b;
    }
  }

  /** More evidence never withdraws a warning. */
  lemma DerivedGrows(a: seq<Evidence>, b: seq<Evidence>)
    ensures Derived(a) <= Derived(a + b)
  {
    CollectConcat(a, b, (e: Evidence) => e.name);
    SubsetSize(NameSet(a), NameSet(a + b));
    AnyGrows(a, b, (e: Evidence) => e.scanIn.Invalid?);
    AnyGrows(a, b, (e: Evidence) => e.scanOut.Invalid?);
    AnyGrows(a, b, (e: Evidence) => e.sourceLate.Invalid?);
    AnyGrows(a, b, (e: Evidence) => e.absent.Invalid?);
    AnyGrows(a, b, (e: Evidence) => e.overtime.Invalid?);
  }

  /** Merging one more row into a summary is summarizing with its evidence and warnings added. */
  lemma SummarizeAgain(evidence: seq<Evidence>, warnings: set<string>, identifier: Option<string>,
      date: Option<string>, next: Row)
    ensures MergeRows(Some(Summarize(evidence, warnings, identifier, date)), next) ==
            Summarize(evidence + next.evidence, warnings + next.warnings, next.identifier, next.date)
  {
    var all := evidence + next.evidence;
    DerivedGrows(evidence, next.evidence);
    Absorbed(warnings, Derived(evidence), next.warnings, Derived(all));
    SameSummary(all, warnings + Derived(evidence) + next.warnings, warnings + next.warnings, next.identifier, next.date);
  }

  lemma Absorbed(a: set<string>, b: set<string>, c: set<string>, d: set<string>)
    requires b <= d
    ensures a + b + c + d == a + c + d
  {
  }

  lemma SameSummary(evidence: seq<Evidence>, a: set<string>, b: set<string>, identifier: Option<string>, date: Option<string>)
    requires a + Derived(evidence) == b + Derived(evidence)
    ensures Summarize(evidence, a, identifier, date) == Summarize(evidence, b, identifier, date)
  {
  }

  /** Merging row by row and merging once give the same row, warnings included. */
  lemma {:induction false} IncrementalIsBatch(rows: seq<Row>)
    requires rows != []
    ensures Folded(rows) == Some(MergeAll(rows))
  {
    var front, last := rows[..|rows| - 1], rows[|rows| - 1];
    if front == [] {
      assert AllEvidence(rows) == [] + last.evidence == last.evidence;
      assert AllWarnings(rows) == {} + last.warnings == last.warnings;
    } else {
      IncrementalIsBatch(front);
      var before := front[|front| - 1];
      SummarizeAgain(AllEvidence(front), AllWarnings(front), before.identifier, before.date, last);
    }
  }

  // ---------- row order ----------

  lemma AnyOfPermutation(a: seq<Evidence>, b: seq<Evidence>, f: Evidence -> bool)
    requires multiset(a) == multiset(b)
    ensures Any(a, f) == Any(b, f)
  {
    SameElements(a, b);
  }

  lemma NamesOfPermutation(a: seq<Evidence>, b: seq<Evidence>)
    requires multiset(a) == multiset(b)
    ensures NameSet(a) == NameSet(b)
  {
    CollectOfPermutation(a, b, (e: Evidence) => e.name);
    SameElements(Names(a), Names(b));
  }

  lemma DerivedOfPermutation(a: seq<Evidence>, b: seq<Evidence>)
    requires multiset(a) == multiset(b)
    ensures Derived(a) == Derived(b) && NameSet(a) == NameSet(b) && AnyInvalidScanIn(a) == AnyInvalidScanIn(b)
  {
    assert |multiset(a)| == |a| && |multiset(b)| == |b|;
    NamesOfPermutation(a, b);
    AnyOfPermutation(a, b, (e: Evidence) => e.scanIn.Invalid?);
    AnyOfPermutation(a, b, (e: Evidence) => e.scanOut.Invalid?);
    AnyOfPermutation(a, b, (e: Evidence) => e.sourceLate.Invalid?);
    AnyOfPermutation(a, b, (e: Evidence) => e.absent.Invalid?);
    AnyOfPermutation(a, b, (e: Evidence) => e.overtime.Invalid?);
  }

  /** What a row says of the scans, apart from which key it is of. */
  predicate SameScans(r: Row, s: Row) {
    r.checkIn == s.checkIn && r.checkOut == s.checkOut && r.conflict == s.conflict &&
    r.machineEvidence == s.machineEvidence && r.scanTimes == s.scanTimes && r.warnings == s.warnings
  }

  /** What the scans of evidence give, once sorted. */
  lemma ScansOf(evidence: seq<Evidence>, warnings: set<string>, id: Option<string>, date: Option<string>,
      arrivals: seq<string>, departures: seq<string>)
    requires arrivals == Sort(Arrivals(evidence), LexLe) && departures == Sort(Departures(evidence), LexLe)
    ensures var r := Summarize(evidence, warnings, id, date);
      && r.checkIn == First(arrivals) && r.checkOut == Last(departures) && r.conflict == (|NameSet(evidence)| > 1)
      && r.scanTimes == Sort(Distinct(arrivals + departures), LexLe) && r.warnings == warnings + Derived(evidence)
      && r.machineEvidence == (if |evidence| > 1 && arrivals != [] then MultipleScans
        else if Present(First(arrivals)) then ScanPresent
                               else if AnyInvalidScanIn(evidence) then InvalidScanValue else NoScan)
  {
  }

  lemma SameDerivation(a: seq<Evidence>, b: seq<Evidence>, warnings: set<string>,
                       id: Option<string>, date: Option<string>, id': Option<string>, date': Option<string>)
    requires |a| == |b| && Derived(a) == Derived(b) && NameSet(a) == NameSet(b) && AnyInvalidScanIn(a) == AnyInvalidScanIn(b)
    requires Sort(Arrivals(a), LexLe) == Sort(Arrivals(b), LexLe) && Sort(Departures(a), LexLe) == Sort(Departures(b), LexLe)
    ensures SameScans(Summarize(a, warnings, id, date), Summarize(b, warnings, id', date'))
  {
    ScansOf(a, warnings, id, date, Sort(Arrivals(a), LexLe), Sort(Departures(a), LexLe));
    ScansOf(b, warnings, id', date', Sort(Arrivals(b), LexLe), Sort(Departures(b), LexLe));
  }

  lemma EvidenceOrderIsIrrelevant(a: seq<Evidence>, b: seq<Evidence>, warnings: set<string>,
                                  id: Option<string>, date: Option<string>, id': Option<string>, date': Option<string>)
    requires multiset(a) == multiset(b)
    ensures SameScans(Summarize(a, warnings, id, date), Summarize(b, warnings, id', date'))
  {
    assert |multiset(a)| == |a| && |multiset(b)| == |b|;
    SortedTimesOfPermutation(a, b);
    DerivedOfPermutation(a, b);
    SameDerivation(a, b, warnings, id, date, id', date');
  }

  lemma {:induction false} AllEvidenceConcat(a: seq<Row>, b: seq<Row>)
    ensures AllEvidence(a + b) == AllEvidence(a) + AllEvidence(b)
  {
    if b == [] {
      assert a + b == a;
    } else {
      assert (a + b)[..|a + b| - 1] == a + b[..|b| - 1];
      AllEvidenceConcat(a, b[..|b| - 1]);
    }
  }

  lemma AllEvidenceOne(row: Row)
    ensures AllEvidence([row]) == row.evidence
  {
    assert [row][..0] == [] && [] + row.evidence == row.evidence;
  }

  lemma AllEvidenceAround(before: seq<Row>, row: Row, after: seq<Row>)
    ensures multiset(AllEvidence(before + [row] + after)) == multiset(AllEvidence(before + after)) + multiset(row.evidence)
  {
    AllEvidenceConcat(before + [row], after);
    AllEvidenceConcat(before, [row]);
    AllEvidenceConcat(before, after);
    AllEvidenceOne(row);
  }

  lemma AllEvidenceAt(rows: seq<Row>, i: nat)
    requires i < |rows|
    ensures multiset(AllEvidence(rows)) == multiset(AllEvidence(rows[..i] + rows[i + 1..])) + multiset(rows[i].evidence)
  {
    var before, one, after, rest := SplitAt(rows, i);
    AllEvidenceAround(before, rows[i], after);
  }

  lemma {:induction false} AllEvidenceOfPermutation(a: seq<Row>, b: seq<Row>)
    requires multiset(a) == multiset(b)
    ensures multiset(AllEvidence(a)) == multiset(AllEvidence(b))
  {
    SameElements(a, b);
    if a != [] {
      assert a[0] in b;
      var i :| 0 <= i < |b| && b[i] == a[0];
      var front, back := a[1..], b[..i] + b[i + 1..];
      SameWithoutOne(a, b, i);
      AllEvidenceOfPermutation(front, back);
      AllEvidenceAt(b, i);
      AllEvidenceAt(a, 0);
      assert a[..0] + a[1..] == front;
    }
  }

  lemma {:induction false} AllWarningsHas(rows: seq<Row>, w: string)
    ensures w in AllWarnings(rows) <==> exists r :: r in rows && w in r.warnings
  {
    if rows != [] {
      AllWarningsHas(rows[..|rows| - 1], w);
      assert rows == rows[..|rows| - 1] + [rows[|rows| - 1]];
    }
  }

  lemma AllWarningsOfPermutation(a: seq<Row>, b: seq<Row>)
    requires multiset(a) == multiset(b)
    ensures AllWarnings(a) == AllWarnings(b)
  {
    SameElements(a, b);
    forall w ensures w in AllWarnings(a) <==> w in AllWarnings(b) {
      AllWarningsHas(a, w);
      AllWarningsHas(b, w);
    }
  }

  /**
   * Arrival, departure, scan times, conflict flag, evidence state and warnings depend on which
   * rows of a key were merged, not on their order.
   */
  lemma RowOrderIsIrrelevant(a: seq<Row>, b: seq<Row>)
    requires multiset(a) == multiset(b) && a != [] && b != []
    ensures SameScans(MergeAll(a), MergeAll(b))
  {
    AllEvidenceOfPermutation(a, b);
    AllWarningsOfPermutation(a, b);
    var x, y := a[|a| - 1], b[|b| - 1];
    EvidenceOrderIsIrrelevant(AllEvidence(a), AllEvidence(b), AllWarnings(a), x.identifier, x.date, y.identifier, y.date);
  }

  lemma SortedTimesOfPermutation(a: seq<Evidence>, b: seq<Evidence>)
    requires multiset(a) == multiset(b)
    ensures Sort(Arrivals(a), LexLe) == Sort(Arrivals(b), LexLe) && Sort(Departures(a), LexLe) == Sort(Departures(b), LexLe)
  {
    LexIsTotalOrder();
    CollectOfPermutation(a, b, (e: Evidence) => ValidTime(e.scanIn));
    CollectOfPermutation(a, b, (e: Evidence) => ValidTime(e.scanOut));
    SortOfPermutation(Arrivals(a), Arrivals(b), LexLe);
    SortOfPermutation(Departures(a), Departures(b), LexLe);
  }

  predicate IsLeast(t: string, xs: seq<string>) {
    t in xs && forall x :: x in xs ==> LexLe(t, x)
  }

  predicate IsGreatest(t: string, xs: seq<string>) {
    t in xs && forall x :: x in xs ==> LexLe(x, t)
  }

  /** The arrival is the least valid scan-in time, the departure the greatest valid scan-out time. */
  lemma ArrivalIsEarliest(evidence: seq<Evidence>, warnings: set<string>, identifier: Option<string>, date: Option<string>)
    ensures var r := Summarize(evidence, warnings, identifier, date);
            && (if Arrivals(evidence) == [] then r.checkIn.None?
               else r.checkIn.Some? && IsLeast(r.checkIn.value, Arrivals(evidence)))
            && (if Departures(evidence) == [] then r.checkOut.None?
               else r.checkOut.Some? && IsGreatest(r.checkOut.value, Departures(evidence)))
  {
    EndsOfSorted(Arrivals(evidence));
    EndsOfSorted(Departures(evidence));
  }

  lemma EndsOfSorted(xs: seq<string>)
    ensures var s := Sort(xs, LexLe);
            if xs == [] then s == [] else s != [] && IsLeast(s[0], xs) && IsGreatest(s[|s| - 1], xs)
  {
    var s := Sort(xs, LexLe);
    SameElements(s, xs);
    LexIsTotalOrder();
    SortIsSorted(xs, LexLe);
    if s != [] { EndsBound(s, xs); }
  }

  lemma EndsBound(s: seq<string>, xs: seq<string>)
    requires s != [] && Sorted(s, LexLe) && (forall x :: x in s <==> x in xs)
    ensures IsLeast(s[0], xs) && IsGreatest(s[|s| - 1], xs)
  {
    forall x | x in xs ensures LexLe(s[0], x) && LexLe(x, s[|s| - 1]) {
      var k :| 0 <= k < |s| && s[k] == x;
      LexTotal(x, x);
      if 0 < k { assert LexLe(s[0], s[k]); }
      if k < |s| - 1 { assert LexLe(s[k], s[|s| - 1]); }
    }
  }
}
