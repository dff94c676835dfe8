/**
 * What each row of an attendance preview says of the sheet: which sheet rows it stands for, whose
 * they are, and what their scans amount to (packages/excel/src/machine-attendance.ts).
 */
module AttendanceRows {
  import opened Wrappers
  import opened Text
  import opened Sorting
  import opened Lists
  import opened IsoDates
  import Dates
  import opened Attendance
  import opened AttendanceSheet

  // ---------- identifiers ----------

  /** A numeral without leading zeros. */
  ghost predicate Canonical(s: string) {
    s != "" && AllDigits(s) && (|s| > 1 ==> s[0] != '0')
  }

  /** The identifier that a cell denotes: its digits, or its safe integer in decimal. */
  ghost predicate Denotes(c: IdCell, id: string) {
    match c
    case IdText(t) => id != "" && AllDigits(id) && exists a, b :: AllSpaces(a) && AllSpaces(b) && t == a + id + b
    case IdNumber(n) => 0 <= n <= 9_007_199_254_740_991 && Canonical(id) && Number(id) == n
    case _ => false
  }

  /** A cell is accepted exactly for the identifier it denotes. */
  lemma IdentifierIff(c: IdCell, id: string)
    ensures NormalizeIdentifier(c) == Some(id) <==> Denotes(c, id)
  {
    match c
    case IdText(t) =>
      if id != "" && AllDigits(id) {
        assert IsDigit(id[0]) && IsDigit(id[|id| - 1]);
        TrimIff(t, id);
      }
      TrimIsBare(t);
    case IdNumber(n) =>
      if n >= 0 {
        NumberOfNumeral(n);
        NumeralHasNoZero(n);
        if Canonical(id) { NumeralIsCanonical(id); }
      }
    case _ =>
  }

  lemma {:induction false} NumeralHasNoZero(n: nat)
    ensures Canonical(Numeral(n)) && (n > 0 ==> Numeral(n)[0] != '0')
  {
    if n >= 10 { NumeralHasNoZero(n / 10); }
  }

  // ---------- which sheet rows an output row stands for ----------

  /** Two sheet rows of one person and day. */
  ghost predicate Together(a: SheetRow, b: SheetRow) {
    a.DataRow? && b.DataRow? && a.date == b.date && Present(a.date) && exists id :: Denotes(a.id, id) && Denotes(b.id, id)
  }

  ghost predicate IsData(sheet: seq<SheetRow>, n: nat) {
    2 <= n <= |sheet| + 1 && sheet[n - 2].DataRow?
  }

  /** What a row built for one sheet row takes over from it. */
  ghost predicate IsBase(sheet: seq<SheetRow>, r: Row, n: nat) {
    && IsData(sheet, n) && r.sourceRows == [n] && r.evidence == [sheet[n - 2].fields.(sourceRow := n)]
    && r.identifier == NormalizeIdentifier(sheet[n - 2].id) && r.date == sheet[n - 2].date
  }

  lemma BaseRowIsBase(sheet: seq<SheetRow>, n: nat)
    requires IsData(sheet, n)
    ensures IsBase(sheet, BaseRow(n, sheet[n - 2]), n)
  {
  }

  /** The base rows are of the data rows, in order. */
  ghost predicate AreBases(sheet: seq<SheetRow>, bases: seq<Row>) {
    |bases| == |Numbers(sheet)| && forall i :: 0 <= i < |bases| ==> IsBase(sheet, bases[i], Numbers(sheet)[i])
  }

  lemma {:induction false} BasesAreOfSheet(sheet: seq<SheetRow>)
    ensures AreBases(sheet, Bases(sheet))
  {
    if sheet != [] {
      var front, last := sheet[..|sheet| - 1], sheet[|sheet| - 1];
      BasesAreOfSheet(front);
      forall i | 0 <= i < |Bases(front)| ensures IsBase(sheet, Bases(front)[i], Numbers(front)[i]) {
        BaseOfFront(front, last, Bases(front)[i], Numbers(front)[i]);
      }
      assert sheet == front + [last];
      if last.DataRow? { BaseRowIsBase(sheet, |sheet| + 1); }
    }
  }

  lemma BaseOfFront(front: seq<SheetRow>, last: SheetRow, r: Row, n: nat)
    requires IsBase(front, r, n)
    ensures IsBase(front + [last], r, n)
  {
    assert (front + [last])[n - 2] == front[n - 2];
  }

  /** The base row of a data row. */
  lemma BaseFor(sheet: seq<SheetRow>, bases: seq<Row>, n: nat) returns (a: Row)
    requires AreBases(sheet, bases) && IsData(sheet, n)
    ensures a in bases && IsBase(sheet, a, n)
  {
    NumbersOfDataRows(sheet);
    assert n in Numbers(sheet);
    var i :| 0 <= i < |Numbers(sheet)| && Numbers(sheet)[i] == n;
    a := bases[i];
  }

  lemma {:induction false} RowsForAreOfKey(bases: seq<Row>, k: string)
    ensures forall r :: r in RowsFor(bases, k) <==> r in bases && Groupable(r) && KeyOf(r) == k
  {
    if bases != [] {
      RowsForAreOfKey(bases[..|bases| - 1], k);
      assert bases == bases[..|bases| - 1] + [bases[|bases| - 1]];
    }
  }

  lemma {:induction false} StandaloneIff(bases: seq<Row>)
    ensures forall r :: r in Standalone(bases) <==> r in bases && !Groupable(r)
  {
    if bases != [] {
      StandaloneIff(bases[..|bases| - 1]);
      assert bases == bases[..|bases| - 1] + [bases[|bases| - 1]];
    }
  }

  /** Merging rows of one piece of evidence each lines that evidence up. */
  lemma {:induction false} EvidenceLinesUp(mine: seq<Row>)
    requires forall i :: 0 <= i < |mine| ==> |mine[i].evidence| == 1
    ensures |AllEvidence(mine)| == |mine|
    ensures forall i :: 0 <= i < |mine| ==> AllEvidence(mine)[i] == mine[i].evidence[0]
  {
    if mine != [] {
      var front := mine[..|mine| - 1];
      assert forall i :: 0 <= i < |front| ==> front[i] == mine[i];
      EvidenceLinesUp(front);
    }
  }

  /** A merged row and the key of the rows it is of. */
  ghost predicate IsMerged(bases: seq<Row>, r: Row, k: string) {
    RowsFor(bases, k) != [] && r == MergeAll(RowsFor(bases, k))
  }

  lemma GroupsAreMerged(bases: seq<Row>, r: Row)
    ensures r in GroupRows(bases) <==> exists k :: IsMerged(bases, r, k)
  {
    KeysHaveRows(bases);
    var keys, groups := Keys(bases), GroupRows(bases);
    if r in groups {
      var i :| 0 <= i < |groups| && groups[i] == r;
      assert keys[i] in keys && IsMerged(bases, r, keys[i]);
    }
    forall k | IsMerged(bases, r, k) ensures r in groups {
      assert k in keys;
      var i :| 0 <= i < |keys| && keys[i] == k;
      assert groups[i] == r;
    }
  }

  /** An output row is the merge of one key's rows, or a row that has no key. */
  lemma OutputIs(bases: seq<Row>, r: Row)
    ensures r in Output(bases) <==> (exists k :: IsMerged(bases, r, k)) || (r in bases && !Groupable(r))
  {
    GroupsAreMerged(bases, r);
    StandaloneIff(bases);
    SameElements(Output(bases), GroupRows(bases) + Standalone(bases));
  }

  /** What a merged row takes over from the rows it is of. */
  ghost predicate MergedFrom(sheet: seq<SheetRow>, r: Row, mine: seq<Row>) {
    && |r.sourceRows| == |mine| == |r.evidence|
    && forall i :: 0 <= i < |mine| ==> IsBase(sheet, mine[i], r.sourceRows[i]) && r.evidence[i] == mine[i].evidence[0]
  }

  lemma MergeTakesOver(sheet: seq<SheetRow>, mine: seq<Row>)
    requires mine != [] && forall i :: 0 <= i < |mine| ==> |mine[i].sourceRows| == 1 && IsBase(sheet, mine[i], mine[i].sourceRows[0])
    ensures MergedFrom(sheet, MergeAll(mine), mine)
  {
    EvidenceLinesUp(mine);
  }

  lemma MergedSources(sheet: seq<SheetRow>, bases: seq<Row>, k: string)
    requires AreBases(sheet, bases) && RowsFor(bases, k) != []
    ensures MergedFrom(sheet, MergeAll(RowsFor(bases, k)), RowsFor(bases, k))
  {
    RowsForAreBases(sheet, bases, k);
    MergeTakesOver(sheet, RowsFor(bases, k));
  }

  lemma RowsForAreBases(sheet: seq<SheetRow>, bases: seq<Row>, k: string)
    requires AreBases(sheet, bases)
    ensures var mine := RowsFor(bases, k);
      forall i :: 0 <= i < |mine| ==> |mine[i].sourceRows| == 1 && IsBase(sheet, mine[i], mine[i].sourceRows[0])
  {
    var mine := RowsFor(bases, k);
    RowsForAreOfKey(bases, k);
    forall i | 0 <= i < |mine| ensures |mine[i].sourceRows| == 1 && IsBase(sheet, mine[i], mine[i].sourceRows[0]) {
      assert mine[i] in mine;
      BaseHasOneSource(sheet, bases, mine[i]);
    }
  }

  lemma BaseHasOneSource(sheet: seq<SheetRow>, bases: seq<Row>, r: Row)
    requires AreBases(sheet, bases) && r in bases
    ensures |r.sourceRows| == 1 && IsBase(sheet, r, r.sourceRows[0])
  {
  }

  /** Two data rows have the same key exactly when they are of one person and day. */
  lemma SameKeyIff(sheet: seq<SheetRow>, a: Row, m: nat, b: Row, n: nat)
    requires IsBase(sheet, a, m) && IsBase(sheet, b, n)
    ensures Groupable(a) && Groupable(b) && KeyOf(a) == KeyOf(b) <==> Together(sheet[m - 2], sheet[n - 2])
  {
    var c, d := sheet[m - 2].id, sheet[n - 2].id;
    forall id | Denotes(c, id) && Denotes(d, id) ensures a.identifier == b.identifier == Some(id) && id != "" {
      IdentifierIff(c, id);
      IdentifierIff(d, id);
    }
    if Groupable(a) && Groupable(b) {
      KeysDiffer(a.identifier.value, a.date.value, b.identifier.value, b.date.value);
      IdentifierIff(c, a.identifier.value);
      IdentifierIff(d, a.identifier.value);
    }
  }

  ghost predicate StandsFor(r: Row, m: nat, n: nat) {
    m in r.sourceRows && n in r.sourceRows
  }

  /** Some output row stands for both. */
  ghost predicate Share(bases: seq<Row>, m: nat, n: nat) {
    exists r :: r in Output(bases) && StandsFor(r, m, n)
  }

  lemma AloneInOutput(sheet: seq<SheetRow>, bases: seq<Row>, a: Row, m: nat)
    requires a in bases && IsBase(sheet, a, m) && !Groupable(a)
    ensures Share(bases, m, m)
  {
    OutputIs(bases, a);
    assert StandsFor(a, m, m);
  }

  lemma TogetherShare(sheet: seq<SheetRow>, bases: seq<Row>, a: Row, m: nat, b: Row, n: nat)
    requires AreBases(sheet, bases) && a in bases && IsBase(sheet, a, m) && b in bases && IsBase(sheet, b, n)
    requires Groupable(a) && Groupable(b) && KeyOf(a) == KeyOf(b)
    ensures Share(bases, m, n)
  {
    var k := KeyOf(a);
    RowsForAreOfKey(bases, k);
    var mine := RowsFor(bases, k);
    assert a in mine && b in mine;
    MergedSources(sheet, bases, k);
    var r := MergeAll(mine);
    MergedIsOutput(bases, k);
    SourceOfMerged(sheet, r, mine, a, m);
    SourceOfMerged(sheet, r, mine, b, n);
    assert StandsFor(r, m, n);
  }

  lemma MergedIsOutput(bases: seq<Row>, k: string)
    requires RowsFor(bases, k) != []
    ensures MergeAll(RowsFor(bases, k)) in Output(bases)
  {
    assert IsMerged(bases, MergeAll(RowsFor(bases, k)), k);
    OutputIs(bases, MergeAll(RowsFor(bases, k)));
  }

  lemma SourceOfMerged(sheet: seq<SheetRow>, r: Row, mine: seq<Row>, a: Row, m: nat)
    requires MergedFrom(sheet, r, mine) && a in mine && IsBase(sheet, a, m)
    ensures m in r.sourceRows
  {
    var i :| 0 <= i < |mine| && mine[i] == a;
    assert r.sourceRows[i] == m;
  }

  lemma SomeRowStandsFor(sheet: seq<SheetRow>, bases: seq<Row>, a: Row, m: nat, b: Row, n: nat)
    requires AreBases(sheet, bases) && a in bases && IsBase(sheet, a, m) && b in bases && IsBase(sheet, b, n)
    requires m == n || Together(sheet[m - 2], sheet[n - 2])
    ensures Share(bases, m, n)
  {
    SameKeyIff(sheet, a, m, b, n);
    SameKeyIff(sheet, a, m, a, m);
    if Together(sheet[m - 2], sheet[n - 2]) {
      TogetherShare(sheet, bases, a, m, b, n);
    } else if Groupable(a) {
      TogetherShare(sheet, bases, a, m, a, m);
    } else {
      AloneInOutput(sheet, bases, a, m);
    }
  }

  lemma SharersAreTogether(sheet: seq<SheetRow>, bases: seq<Row>, r: Row, m: nat, n: nat)
    requires AreBases(sheet, bases) && r in Output(bases) && StandsFor(r, m, n)
    ensures IsData(sheet, m) && IsData(sheet, n) && (m == n || Together(sheet[m - 2], sheet[n - 2]))
  {
    OutputIs(bases, r);
    if k :| IsMerged(bases, r, k) {
      MergedSources(sheet, bases, k);
      MergedAreTogether(sheet, bases, r, k, m, n);
    } else {
      BaseHasOneSource(sheet, bases, r);
    }
  }

  lemma MergedAreTogether(sheet: seq<SheetRow>, bases: seq<Row>, r: Row, k: string, m: nat, n: nat)
    requires MergedFrom(sheet, r, RowsFor(bases, k)) && StandsFor(r, m, n)
    ensures IsData(sheet, m) && IsData(sheet, n) && Together(sheet[m - 2], sheet[n - 2])
  {
    var mine := RowsFor(bases, k);
    RowsForAreOfKey(bases, k);
    var i :| 0 <= i < |r.sourceRows| && r.sourceRows[i] == m;
    var j :| 0 <= j < |r.sourceRows| && r.sourceRows[j] == n;
    assert mine[i] in mine && mine[j] in mine;
    SameKeyIff(sheet, mine[i], m, mine[j], n);
  }

  lemma SharedIff(sheet: seq<SheetRow>, bases: seq<Row>, m: nat, n: nat)
    requires AreBases(sheet, bases) && IsData(sheet, m) && IsData(sheet, n)
    ensures Share(bases, m, n) <==> m == n || Together(sheet[m - 2], sheet[n - 2])
  {
    var a := BaseFor(sheet, bases, m);
    var b := BaseFor(sheet, bases, n);
    if m == n || Together(sheet[m - 2], sheet[n - 2]) { SomeRowStandsFor(sheet, bases, a, m, b, n); }
    if r :| r in Output(bases) && StandsFor(r, m, n) { SharersAreTogether(sheet, bases, r, m, n); }
  }

  /** Two data rows share an output row exactly when they are the same row, or of one person and day. */
  lemma SharedRowIff(sheet: seq<SheetRow>, m: nat, n: nat)
    requires IsData(sheet, m) && IsData(sheet, n)
    ensures Share(Bases(sheet), m, n) <==> m == n || Together(sheet[m - 2], sheet[n - 2])
  {
    BasesAreOfSheet(sheet);
    SharedIff(sheet, Bases(sheet), m, n);
  }

  // ---------- what an output row says ----------

  /** Whose row it is: the date and the identifier that each of its sheet rows denotes. */
  ghost predicate SaysWhose(sheet: seq<SheetRow>, r: Row) {
    && r.sourceRows != [] && |r.evidence| == |r.sourceRows|
    && forall k :: 0 <= k < |r.sourceRows| ==> SaysOf(sheet, r, r.evidence[k], r.sourceRows[k])
  }

  ghost predicate SaysOf(sheet: seq<SheetRow>, r: Row, e: Evidence, n: nat) {
    && IsData(sheet, n) && e == sheet[n - 2].fields.(sourceRow := n) && r.date == sheet[n - 2].date
    && forall id {:trigger Denotes(sheet[n - 2].id, id)} :: r.identifier == Some(id) <==> Denotes(sheet[n - 2].id, id)
  }

  lemma BaseSaysWhose(sheet: seq<SheetRow>, r: Row, a: Row, n: nat)
    requires IsBase(sheet, a, n) && r.identifier == a.identifier && r.date == a.date
    ensures SaysOf(sheet, r, a.evidence[0], n)
  {
    forall id ensures r.identifier == Some(id) <==> Denotes(sheet[n - 2].id, id) { IdentifierIff(sheet[n - 2].id, id); }
  }

  /** Every output row carries its sheet rows' evidence, and is of the person and day that they all denote. */
  lemma OutputSaysWhose(sheet: seq<SheetRow>, bases: seq<Row>, r: Row)
    requires AreBases(sheet, bases) && r in Output(bases)
    ensures SaysWhose(sheet, r)
  {
    OutputIs(bases, r);
    if k :| IsMerged(bases, r, k) {
      MergedSources(sheet, bases, k);
      MergedSaysWhose(sheet, bases, r, k);
    } else {
      BaseHasOneSource(sheet, bases, r);
      BaseSaysWhose(sheet, r, r, r.sourceRows[0]);
    }
  }

  lemma MergedSaysWhose(sheet: seq<SheetRow>, bases: seq<Row>, r: Row, k: string)
    requires RowsFor(bases, k) != [] && MergedFrom(sheet, r, RowsFor(bases, k)) && r == MergeAll(RowsFor(bases, k))
    ensures SaysWhose(sheet, r)
  {
    var mine := RowsFor(bases, k);
    var last := mine[|mine| - 1];
    RowsForAreOfKey(bases, k);
    assert r.identifier == last.identifier && r.date == last.date;
    forall i | 0 <= i < |mine| ensures SaysOf(sheet, r, r.evidence[i], r.sourceRows[i]) {
      assert mine[i] in mine && last in mine;
      SameKeySame(sheet, mine[i], r.sourceRows[i], last, r.sourceRows[|mine| - 1]);
      BaseSaysWhose(sheet, r, mine[i], r.sourceRows[i]);
    }
  }

  lemma SameKeySame(sheet: seq<SheetRow>, a: Row, m: nat, b: Row, n: nat)
    requires IsBase(sheet, a, m) && IsBase(sheet, b, n) && Groupable(a) && Groupable(b) && KeyOf(a) == KeyOf(b)
    ensures a.identifier == b.identifier && a.date == b.date
  {
    KeysDiffer(a.identifier.value, a.date.value, b.identifier.value, b.date.value);
  }

  /** The first of the values that are there, if any is. */
  ghost predicate IsFirst<T(!new)>(evidence: seq<Evidence>, f: Evidence -> Option<T>, o: Option<T>) {
    match o
    case None => forall k :: 0 <= k < |evidence| ==> f(evidence[k]).None?
    case Some(v) => exists k :: 0 <= k < |evidence| && f(evidence[k]) == o && forall j :: 0 <= j < k ==> f(evidence[j]).None?
  }

  ghost predicate Has<T(!new)>(evidence: seq<Evidence>, f: Evidence -> Option<T>, v: T) {
    exists k :: 0 <= k < |evidence| && f(evidence[k]) == Some(v)
  }

  /** The least of the times that are there, if any is; or the greatest. */
  ghost predicate IsExtreme(evidence: seq<Evidence>, f: Evidence -> Option<string>, o: Option<string>, least: bool) {
    match o
    case None => forall k :: 0 <= k < |evidence| ==> f(evidence[k]).None?
    case Some(v) => Has(evidence, f, v) && forall t :: Has(evidence, f, t) ==> if least then LexLe(v, t) else LexLe(t, v)
  }

  ghost predicate Conflict(evidence: seq<Evidence>) {
    exists i, j :: 0 <= i < j < |evidence| && evidence[i].name.Some? && evidence[j].name.Some? && evidence[i].name != evidence[j].name
  }

  /** What a single row is warned of. */
  ghost predicate Warned(e: Evidence, w: string) {
    || (w == "INVALID_SCAN_IN" && e.scanIn.Invalid?) || (w == "INVALID_SCAN_OUT" && e.scanOut.Invalid?)
    || (w == "INVALID_SOURCE_LATE" && e.sourceLate.Invalid?) || (w == "INVALID_ABSENT" && e.absent.Invalid?)
    || (w == "INVALID_OVERTIME" && e.overtime.Invalid?) || (w == "INVALID_EXCEPTION" && e.exception.Invalid?)
  }

  /** What merging adds. */
  ghost predicate WarnedTogether(evidence: seq<Evidence>, w: string) {
    || (w == "DUPLICATE_SOURCE_ROWS_MERGED" && |evidence| > 1) || (w == "SOURCE_IDENTITY_CONFLICT" && Conflict(evidence))
    || exists k :: 0 <= k < |evidence| && WarnedAgain(evidence[k], w)
  }

  ghost predicate WarnedAgain(e: Evidence, w: string) {
    || (w == "INVALID_SCAN_IN" && e.scanIn.Invalid?) || (w == "INVALID_SCAN_OUT" && e.scanOut.Invalid?)
    || (w == "INVALID_SOURCE_LATENESS" && e.sourceLate.Invalid?) || (w == "INVALID_ABSENT_FIELD" && e.absent.Invalid?)
    || (w == "INVALID_OVERTIME" && e.overtime.Invalid?)
  }

  function Lateness(e: Evidence): Option<nat> {
    if e.sourceLate.Valid? then Some(e.sourceLate.value / 60) else None
  }

  /** No valid scan is an empty text. */
  ghost predicate TimesAreTexts(evidence: seq<Evidence>) {
    forall k :: 0 <= k < |evidence| ==> evidence[k].scanIn != Valid("")
  }

  /** Arrival and departure, and every scan time in order. */
  ghost predicate SaysTimes(r: Row) {
    && IsExtreme(r.evidence, (e: Evidence) => ValidTime(e.scanIn), r.checkIn, true)
    && IsExtreme(r.evidence, (e: Evidence) => ValidTime(e.scanOut), r.checkOut, false)
    && Sorted(r.scanTimes, LexLe) && (Present(r.identifier) && Present(r.date) ==> Different(r.scanTimes))
    && forall t :: t in r.scanTimes <==>
         Has(r.evidence, (e: Evidence) => ValidTime(e.scanIn), t) || Has(r.evidence, (e: Evidence) => ValidTime(e.scanOut), t)
  }

  ghost predicate Different(times: seq<string>) {
    forall i, j :: 0 <= i < j < |times| ==> times[i] != times[j]
  }

  ghost predicate SaysName(r: Row) {
    && IsFirst(r.evidence, (e: Evidence) => e.name, r.name) && (r.conflict <==> Conflict(r.evidence))
    && IsFirst(r.evidence, (e: Evidence) => Lateness(e), r.lateMinutes)
  }

  /** A row with an identifier and a date is a merged one. */
  ghost predicate SaysWarnings(r: Row) {
    forall w :: w in r.warnings <==>
      || (exists k :: 0 <= k < |r.evidence| && Warned(r.evidence[k], w))
      || (Present(r.identifier) && Present(r.date) && WarnedTogether(r.evidence, w))
  }

  ghost predicate SaysState(r: Row) {
    && (TimesAreTexts(r.evidence) ==> r.machineEvidence == StateOf(r.evidence))
    && (r.invalidReason.None? <==> Present(r.identifier) && Present(r.date))
    && (r.invalidReason == Some("The machine identifier is missing or invalid.") <==> !Present(r.identifier))
    && (r.invalidReason == Some("The attendance date is missing or invalid.") <==> Present(r.identifier) && !Present(r.date))
  }

  /** What a row says, from its evidence alone. */
  ghost predicate SaysWhat(r: Row) {
    SaysTimes(r) && SaysName(r) && SaysWarnings(r) && SaysState(r)
  }

  ghost function StateOf(evidence: seq<Evidence>): MachineEvidence {
    if exists k :: 0 <= k < |evidence| && evidence[k].scanIn.Valid? then (if |evidence| > 1 then MultipleScans else ScanPresent)
    else if exists k :: 0 <= k < |evidence| && evidence[k].scanIn.Invalid? then InvalidScanValue else NoScan
  }

  // ---------- proofs of what a row says ----------

  lemma {:induction false} CollectHas<T(!new)>(evidence: seq<Evidence>, f: Evidence -> Option<T>)
    ensures forall v :: v in Collect(evidence, f) <==> Has(evidence, f, v)
    ensures Collect(evidence, f) == [] <==> forall k :: 0 <= k < |evidence| ==> f(evidence[k]).None?
  {
    if evidence != [] {
      var rest := evidence[1..];
      CollectHas(rest, f);
      forall v ensures v in Collect(evidence, f) <==> Has(evidence, f, v) {
        assert forall k :: 0 <= k < |rest| ==> rest[k] == evidence[k + 1];
        if Has(rest, f, v) {
          var k :| 0 <= k < |rest| && f(rest[k]) == Some(v);
          assert f(evidence[k + 1]) == Some(v);
        }
        if k :| 0 <= k < |evidence| && f(evidence[k]) == Some(v) {
          if k > 0 { assert f(rest[k - 1]) == Some(v); }
        }
      }
      assert forall k :: 0 < k < |evidence| ==> evidence[k] == rest[k - 1];
    }
  }

  lemma {:induction false} CollectFirst<T(!new)>(evidence: seq<Evidence>, f: Evidence -> Option<T>)
    ensures IsFirst(evidence, f, First(Collect(evidence, f)))
  {
    if evidence != [] {
      var rest := evidence[1..];
      CollectFirst(rest, f);
      assert forall k :: 0 < k < |evidence| ==> evidence[k] == rest[k - 1];
      var o := First(Collect(evidence, f));
      if f(evidence[0]).None? && o.Some? {
        var k :| 0 <= k < |rest| && f(rest[k]) == o && forall j :: 0 <= j < k ==> f(rest[j]).None?;
        assert f(evidence[k + 1]) == o;
      }
    }
  }

  lemma TwoNamesConflict(evidence: seq<Evidence>, a: string, b: string)
    requires a != b && Has(evidence, (e: Evidence) => e.name, a) && Has(evidence, (e: Evidence) => e.name, b)
    ensures Conflict(evidence)
  {
    var i :| 0 <= i < |evidence| && evidence[i].name == Some(a);
    var j :| 0 <= j < |evidence| && evidence[j].name == Some(b);
    assert evidence[i].name != evidence[j].name;
  }

  lemma ConflictIff(evidence: seq<Evidence>)
    ensures |NameSet(evidence)| > 1 <==> Conflict(evidence)
  {
    var f := (e: Evidence) => e.name;
    CollectHas(evidence, f);
    var names := NameSet(evidence);
    forall n ensures n in names <==> Has(evidence, f, n) {}
    if |names| > 1 {
      var a :| a in names;
      var b :| b in names - {a} by { assert |names - {a}| == |names| - 1; }
      TwoNamesConflict(evidence, a, b);
    }
    if i, j :| 0 <= i < j < |evidence| && evidence[i].name.Some? && evidence[j].name.Some? && evidence[i].name != evidence[j].name {
      var a, b := evidence[i].name.value, evidence[j].name.value;
      assert Has(evidence, f, a) && Has(evidence, f, b);
      SubsetSize({a, b}, names);
    }
  }

  lemma ExtremeOfSorted(evidence: seq<Evidence>, f: Evidence -> Option<string>)
    ensures IsExtreme(evidence, f, First(Sort(Collect(evidence, f), LexLe)), true)
    ensures IsExtreme(evidence, f, Last(Sort(Collect(evidence, f), LexLe)), false)
  {
    var xs := Collect(evidence, f);
    EndsOfSorted(xs);
    ExtremeOfCollected(evidence, f, First(Sort(xs, LexLe)), true);
    ExtremeOfCollected(evidence, f, Last(Sort(xs, LexLe)), false);
  }

  lemma ExtremeOfCollected(evidence: seq<Evidence>, f: Evidence -> Option<string>, o: Option<string>, least: bool)
    requires var xs := Collect(evidence, f);
      if xs == [] then o.None?
      else o.Some? && o.value in xs && forall x :: x in xs ==> if least then LexLe(o.value, x) else LexLe(x, o.value)
    ensures IsExtreme(evidence, f, o, least)
  {
    CollectHas(evidence, f);
  }

  lemma {:induction false} DistinctDiffer(xs: seq<string>)
    ensures Different(Distinct(xs))
  {
    if xs != [] { DistinctDiffer(xs[..|xs| - 1]); }
  }

  /** Sorting keeps the elements different. */
  lemma DifferentSorted(xs: seq<string>)
    requires Different(xs)
    ensures Different(Sort(xs, LexLe))
  {
    var s := Sort(xs, LexLe);
    if i, j :| 0 <= i < j < |s| && s[i] == s[j] {
      OnceEach(xs, s[i]);
      TwiceThere(s, i, j);
    }
  }

  lemma {:induction false} OnceEach(xs: seq<string>, x: string)
    requires Different(xs)
    ensures multiset(xs)[x] <= 1
  {
    if xs != [] {
      var front := xs[..|xs| - 1];
      OnceEach(front, x);
      assert xs == front + [xs[|xs| - 1]];
      assert multiset(front)[x] > 0 ==> x in front;
    }
  }

  lemma TwiceThere(s: seq<string>, i: nat, j: nat)
    requires i < j < |s| && s[i] == s[j]
    ensures multiset(s)[s[i]] >= 2
  {
    assert s == s[..j] + [s[j]] + s[j + 1..];
    assert s[i] in s[..j] by { assert s[..j][i] == s[i]; }
  }

  lemma {:induction false} DistinctHas(xs: seq<string>)
    ensures forall x :: x in Distinct(xs) <==> x in xs
  {
    if xs != [] {
      DistinctHas(xs[..|xs| - 1]);
      assert xs == xs[..|xs| - 1] + [xs[|xs| - 1]];
    }
  }

  lemma SummaryTimes(evidence: seq<Evidence>, warnings: set<string>, id: Option<string>, date: Option<string>)
    ensures SaysTimes(Summarize(evidence, warnings, id, date))
  {
    var f, g := (e: Evidence) => ValidTime(e.scanIn), (e: Evidence) => ValidTime(e.scanOut);
    var arrivals, departures := Sort(Arrivals(evidence), LexLe), Sort(Departures(evidence), LexLe);
    ScansOf(evidence, warnings, id, date, arrivals, departures);
    ExtremeOfSorted(evidence, f);
    ExtremeOfSorted(evidence, g);
    CollectHas(evidence, f);
    CollectHas(evidence, g);
    TimesSorted(Arrivals(evidence), Departures(evidence));
  }

  /** The sorted and distinct times of two lists. */
  lemma TimesSorted(a: seq<string>, b: seq<string>)
    ensures var s := Sort(Distinct(Sort(a, LexLe) + Sort(b, LexLe)), LexLe);
      Sorted(s, LexLe) && Different(s) && forall t :: t in s <==> t in a || t in b
  {
    var both := Sort(a, LexLe) + Sort(b, LexLe);
    DistinctDiffer(both);
    DifferentSorted(Distinct(both));
    LexIsTotalOrder();
    SameElements(Sort(a, LexLe), a);
    SameElements(Sort(b, LexLe), b);
    DistinctHas(both);
    SortIsSorted(Distinct(both), LexLe);
    SameElements(Sort(Distinct(both), LexLe), Distinct(both));
  }

  lemma SummaryName(evidence: seq<Evidence>, warnings: set<string>, id: Option<string>, date: Option<string>)
    ensures SaysName(Summarize(evidence, warnings, id, date))
  {
    CollectFirst(evidence, (e: Evidence) => e.name);
    ConflictIff(evidence);
    CollectFirst(evidence, (e: Evidence) => if e.sourceLate.Valid? then Some(e.sourceLate.value) else None);
    LatenessOfFirst(evidence, First(Lates(evidence)));
  }

  lemma LatenessOfFirst(evidence: seq<Evidence>, late: Option<nat>)
    requires IsFirst(evidence, (e: Evidence) => if e.sourceLate.Valid? then Some(e.sourceLate.value) else None, late)
    ensures IsFirst(evidence, (e: Evidence) => Lateness(e), if late.Some? then Some(late.value / 60) else None)
  {
    if late.Some? {
      var f := (e: Evidence) => if e.sourceLate.Valid? then Some(e.sourceLate.value) else None;
      var k :| 0 <= k < |evidence| && f(evidence[k]) == late && forall j :: 0 <= j < k ==> f(evidence[j]).None?;
      assert Lateness(evidence[k]) == Some(late.value / 60);
      assert forall j :: 0 <= j < k ==> f(evidence[j]).None? && Lateness(evidence[j]).None?;
    } else {
      assert forall k :: 0 <= k < |evidence| ==> !evidence[k].sourceLate.Valid?;
    }
  }

  lemma DerivedIff(evidence: seq<Evidence>, w: string)
    ensures w in Derived(evidence) <==> WarnedTogether(evidence, w)
  {
    ConflictIff(evidence);
    InvalidIff(evidence, w);
    assert w in Derived(evidence) <==>
      || (w == "DUPLICATE_SOURCE_ROWS_MERGED" && |evidence| > 1) || (w == "SOURCE_IDENTITY_CONFLICT" && |NameSet(evidence)| > 1)
      || AnyInvalid(evidence, w);
  }

  ghost predicate AnyInvalid(evidence: seq<Evidence>, w: string) {
    || (w == "INVALID_SCAN_IN" && AnyInvalidScanIn(evidence))
    || (w == "INVALID_SCAN_OUT" && Any(evidence, (e: Evidence) => e.scanOut.Invalid?))
    || (w == "INVALID_SOURCE_LATENESS" && Any(evidence, (e: Evidence) => e.sourceLate.Invalid?))
    || (w == "INVALID_ABSENT_FIELD" && Any(evidence, (e: Evidence) => e.absent.Invalid?))
    || (w == "INVALID_OVERTIME" && Any(evidence, (e: Evidence) => e.overtime.Invalid?))
  }

  lemma InvalidIff(evidence: seq<Evidence>, w: string)
    ensures AnyInvalid(evidence, w) <==> exists k :: 0 <= k < |evidence| && WarnedAgain(evidence[k], w)
  {
    AnyIff(evidence, (e: Evidence) => e.scanIn.Invalid?);
    AnyIff(evidence, (e: Evidence) => e.scanOut.Invalid?);
    AnyIff(evidence, (e: Evidence) => e.sourceLate.Invalid?);
    AnyIff(evidence, (e: Evidence) => e.absent.Invalid?);
    AnyIff(evidence, (e: Evidence) => e.overtime.Invalid?);
  }

  lemma AnyIff(evidence: seq<Evidence>, f: Evidence -> bool)
    ensures Any(evidence, f) <==> exists k :: 0 <= k < |evidence| && f(evidence[k])
  {
    if k :| 0 <= k < |evidence| && f(evidence[k]) { assert evidence[k] in evidence; }
  }

  lemma ArrivalsIff(evidence: seq<Evidence>)
    ensures Arrivals(evidence) != [] <==> exists k :: 0 <= k < |evidence| && evidence[k].scanIn.Valid?
    ensures TimesAreTexts(evidence) ==> "" !in Arrivals(evidence)
  {
    var f := (e: Evidence) => ValidTime(e.scanIn);
    CollectHas(evidence, f);
    if k :| 0 <= k < |evidence| && evidence[k].scanIn.Valid? { assert f(evidence[k]).Some?; }
    if "" in Arrivals(evidence) {
      var k :| 0 <= k < |evidence| && f(evidence[k]) == Some("");
      assert evidence[k].scanIn == Valid("");
    }
  }

  lemma FirstArrival(evidence: seq<Evidence>)
    ensures var o := First(Sort(Arrivals(evidence), LexLe));
      if Arrivals(evidence) == [] then o.None? else o.Some? && o.value in Arrivals(evidence)
  {
    EndsOfSorted(Arrivals(evidence));
  }

  lemma StateFollows(r: Row, first: Option<string>)
    requires r.machineEvidence == (if |r.evidence| > 1 && Arrivals(r.evidence) != [] then MultipleScans
      else if Present(first) then ScanPresent else if AnyInvalidScanIn(r.evidence) then InvalidScanValue else NoScan)
    requires if Arrivals(r.evidence) == [] then first.None? else first.Some? && first.value in Arrivals(r.evidence)
    requires r.invalidReason == Reason(r.identifier, r.date)
    ensures SaysState(r)
  {
    ArrivalsIff(r.evidence);
    AnyIff(r.evidence, (e: Evidence) => e.scanIn.Invalid?);
  }

  lemma SummaryState(evidence: seq<Evidence>, warnings: set<string>, id: Option<string>, date: Option<string>)
    ensures SaysState(Summarize(evidence, warnings, id, date))
  {
    FirstArrival(evidence);
    var arrivals := Sort(Arrivals(evidence), LexLe);
    ScansOf(evidence, warnings, id, date, arrivals, Sort(Departures(evidence), LexLe));
    StateFollows(Summarize(evidence, warnings, id, date), First(arrivals));
  }

  /** A merge says what its evidence amounts to. */
  lemma SummarySays(evidence: seq<Evidence>, warnings: set<string>, id: Option<string>, date: Option<string>)
    requires Present(id) && Present(date)
    requires forall w :: w in warnings <==> exists k :: 0 <= k < |evidence| && Warned(evidence[k], w)
    ensures SaysWhat(Summarize(evidence, warnings, id, date))
  {
    SummaryTimes(evidence, warnings, id, date);
    SummaryName(evidence, warnings, id, date);
    SummaryState(evidence, warnings, id, date);
    var r := Summarize(evidence, warnings, id, date);
    forall w ensures w in Derived(evidence) <==> WarnedTogether(evidence, w) { DerivedIff(evidence, w); }
    assert r.warnings == warnings + Derived(evidence);
  }

  lemma BaseTimes(r: Row, e: Evidence)
    requires r.evidence == [e] && r.checkIn == ValidTime(e.scanIn) && r.checkOut == ValidTime(e.scanOut)
    requires r.scanTimes == Sort(Listed(r.checkIn) + Listed(r.checkOut), LexLe) && !Groupable(r)
    ensures SaysTimes(r)
  {
    OneExtreme([e], (e: Evidence) => ValidTime(e.scanIn));
    OneExtreme([e], (e: Evidence) => ValidTime(e.scanOut));
    var a, b := Listed(r.checkIn), Listed(r.checkOut);
    BothSorted(a, b);
    assert forall t :: t in r.scanTimes <==> r.checkIn == Some(t) || r.checkOut == Some(t);
  }

  lemma BothSorted(a: seq<string>, b: seq<string>)
    ensures var s := Sort(a + b, LexLe); Sorted(s, LexLe) && forall t :: t in s <==> t in a || t in b
  {
    LexIsTotalOrder();
    SortIsSorted(a + b, LexLe);
    SameElements(Sort(a + b, LexLe), a + b);
  }

  lemma OneExtreme(one: seq<Evidence>, f: Evidence -> Option<string>)
    requires |one| == 1
    ensures IsExtreme(one, f, f(one[0]), true) && IsExtreme(one, f, f(one[0]), false)
    ensures forall t :: Has(one, f, t) <==> f(one[0]) == Some(t)
  {
    forall t | f(one[0]) == Some(t) ensures Has(one, f, t) {}
    if f(one[0]).Some? { LexTotal(f(one[0]).value, f(one[0]).value); }
  }

  lemma BaseName(r: Row, e: Evidence)
    requires r.evidence == [e] && r.name == e.name && !r.conflict && r.lateMinutes == Lateness(e)
    ensures SaysName(r)
  {
    OneFirst(r.evidence, (e: Evidence) => e.name);
    OneFirst(r.evidence, (e: Evidence) => Lateness(e));
  }

  lemma OneFirst<T(!new)>(one: seq<Evidence>, f: Evidence -> Option<T>)
    requires |one| == 1
    ensures IsFirst(one, f, f(one[0]))
  {
    var k := 0;
    if f(one[k]).Some? { assert f(one[k]) == f(one[0]); }
  }

  lemma BaseState(r: Row, e: Evidence)
    requires r.evidence == [e] && r.invalidReason == Reason(r.identifier, r.date)
    requires r.machineEvidence == if e.scanIn.Valid? then ScanPresent else if e.scanIn.Invalid? then InvalidScanValue else NoScan
    ensures SaysState(r)
  {
    assert r.evidence[0] == e;
  }

  lemma OwnWarningsIff(e: Evidence, w: string)
    ensures w in OwnWarnings(e) <==> Warned(e, w)
  {
  }

  lemma BaseWarnings(r: Row, e: Evidence)
    requires r.evidence == [e] && r.warnings == OwnWarnings(e) && !Groupable(r)
    ensures SaysWarnings(r)
  {
    forall w ensures w in r.warnings <==> exists k :: 0 <= k < |r.evidence| && Warned(r.evidence[k], w) {
      OwnWarningsIff(e, w);
      if Warned(e, w) { assert Warned(r.evidence[0], w); }
    }
  }

  lemma BaseFields(n: nat, row: SheetRow)
    requires row.DataRow?
    ensures var r, e := BaseRow(n, row), row.fields.(sourceRow := n);
      && r.evidence == [e] && r.checkIn == ValidTime(e.scanIn) && r.checkOut == ValidTime(e.scanOut)
      && r.scanTimes == Sort(Listed(r.checkIn) + Listed(r.checkOut), LexLe) && r.warnings == OwnWarnings(e)
      && r.name == e.name && !r.conflict && r.lateMinutes == Lateness(e) && r.invalidReason == Reason(r.identifier, r.date)
      && r.machineEvidence == if e.scanIn.Valid? then ScanPresent else if e.scanIn.Invalid? then InvalidScanValue else NoScan
  {
  }

  /** A row that stands alone says what its one piece of evidence does. */
  lemma BaseSays(n: nat, row: SheetRow)
    requires row.DataRow? && !Groupable(BaseRow(n, row))
    ensures SaysWhat(BaseRow(n, row))
  {
    var r, e := BaseRow(n, row), row.fields.(sourceRow := n);
    BaseFields(n, row);
    BaseTimes(r, e);
    BaseName(r, e);
    BaseWarnings(r, e);
    BaseState(r, e);
  }

  // ---------- every output row ----------

  ghost predicate WarnsItself(r: Row) {
    |r.evidence| == 1 && forall w :: w in r.warnings <==> Warned(r.evidence[0], w)
  }

  /** A row as built for its sheet row: it warns of itself and, if it has no key, says what its evidence does. */
  ghost predicate SaysOwn(r: Row) {
    WarnsItself(r) && (!Groupable(r) ==> SaysWhat(r))
  }

  lemma BaseSaysOwn(n: nat, row: SheetRow)
    requires row.DataRow?
    ensures SaysOwn(BaseRow(n, row))
  {
    var r := BaseRow(n, row);
    BaseFields(n, row);
    forall w ensures w in r.warnings <==> Warned(r.evidence[0], w) { OwnWarningsIff(r.evidence[0], w); }
    if !Groupable(r) { BaseSays(n, row); }
  }

  ghost predicate AllSayOwn(bases: seq<Row>) {
    forall r :: r in bases ==> SaysOwn(r)
  }

  lemma OneMoreSaysOwn(bases: seq<Row>, r: Row)
    requires AllSayOwn(bases) && SaysOwn(r)
    ensures AllSayOwn(bases + [r])
  {
  }

  lemma {:induction false} BasesSayOwn(sheet: seq<SheetRow>)
    ensures AllSayOwn(Bases(sheet))
  {
    if sheet != [] {
      var front, last := Bases(sheet[..|sheet| - 1]), sheet[|sheet| - 1];
      BasesSayOwn(sheet[..|sheet| - 1]);
      if last.DataRow? {
        BaseSaysOwn(|sheet| + 1, last);
        OneMoreSaysOwn(front, BaseRow(|sheet| + 1, last));
      }
    }
  }

  /** The warnings of rows that each warn of themselves. */
  lemma WarningsTogether(mine: seq<Row>, evidence: seq<Evidence>, w: string)
    requires forall i :: 0 <= i < |mine| ==> WarnsItself(mine[i])
    requires |evidence| == |mine| && forall i :: 0 <= i < |mine| ==> mine[i].evidence == [evidence[i]]
    ensures w in AllWarnings(mine) <==> exists k :: 0 <= k < |evidence| && Warned(evidence[k], w)
  {
    AllWarningsHas(mine, w);
    if r :| r in mine && w in r.warnings {
      var i :| 0 <= i < |mine| && mine[i] == r;
      assert Warned(evidence[i], w);
    }
    if k :| 0 <= k < |evidence| && Warned(evidence[k], w) { assert mine[k] in mine && w in mine[k].warnings; }
  }

  lemma MergedSays(bases: seq<Row>, k: string)
    requires AllSayOwn(bases) && RowsFor(bases, k) != []
    ensures SaysWhat(MergeAll(RowsFor(bases, k)))
  {
    var mine := RowsFor(bases, k);
    RowsForAreOfKey(bases, k);
    forall i | 0 <= i < |mine| ensures WarnsItself(mine[i]) && Groupable(mine[i]) {
      assert mine[i] in mine && SaysOwn(mine[i]);
    }
    MergeSays(mine);
  }

  lemma MergeSays(mine: seq<Row>)
    requires mine != [] && forall i :: 0 <= i < |mine| ==> WarnsItself(mine[i]) && Groupable(mine[i])
    ensures SaysWhat(MergeAll(mine))
  {
    var last := mine[|mine| - 1];
    var evidence := AllEvidence(mine);
    EvidenceLinesUp(mine);
    assert forall i :: 0 <= i < |mine| ==> mine[i].evidence == [evidence[i]];
    forall w ensures w in AllWarnings(mine) <==> exists k :: 0 <= k < |evidence| && Warned(evidence[k], w) {
      WarningsTogether(mine, evidence, w);
    }
    SummarySays(evidence, AllWarnings(mine), last.identifier, last.date);
  }

  /**
   * Every output row is of the person and day that each of its sheet rows denotes, carries their
   * evidence, and says what that evidence amounts to.
   */
  lemma OutputSays(sheet: seq<SheetRow>, r: Row)
    requires r in Output(Bases(sheet))
    ensures SaysWhose(sheet, r) && SaysWhat(r)
  {
    var bases := Bases(sheet);
    BasesAreOfSheet(sheet);
    BasesSayOwn(sheet);
    OutputSaysWhose(sheet, bases, r);
    OutputSaysWhat(bases, r);
  }

  lemma OutputSaysWhat(bases: seq<Row>, r: Row)
    requires AllSayOwn(bases) && r in Output(bases)
    ensures SaysWhat(r)
  {
    OutputIs(bases, r);
    if k :| IsMerged(bases, r, k) {
      MergedSays(bases, k);
    } else {
      assert SaysOwn(r);
    }
  }

  // ---------- the order of the rows ----------

  /** By day, undated rows last; then by identifier, missing ones first; then by the first sheet row. */
  ghost predicate Ordered(a: Row, b: Row) {
    && (a.date.Some? && b.date.Some? && IsDate(a.date.value) && IsDate(b.date.value) ==> DayOf(a.date.value) <= DayOf(b.date.value))
    && !(a.date.None? && b.date.Some? && IsDate(b.date.value))
    && (a.date == b.date ==>
          a.identifier.None? || (b.identifier.Some? && LexLe(a.identifier.value, b.identifier.value)) || b.identifier == a.identifier)
    && (a.date == b.date && a.identifier == b.identifier && a.sourceRows != [] && b.sourceRows != [] ==>
          a.sourceRows[0] <= b.sourceRows[0])
  }

  lemma NoDateIsLast(d: string)
    requires IsDate(d)
    ensures !LexLe("9999-99-99", d) && d != "9999-99-99"
  {
    var last := "9999-99-99";
    LastIsShaped();
    LexOfDates(last, d);
    FourDigits(d[..4]);
  }

  lemma LastIsShaped()
    ensures IsoShape("9999-99-99") && CivilOf("9999-99-99") == Dates.Civil(9999, 99, 99)
  {
    var last := "9999-99-99";
    assert last[..4] == "9999" && last[5..7] == "99" && last[8..] == "99";
    assert "9999"[..3] == "999" && "999"[..2] == "99" && "99"[..1] == "9" && "9"[..0] == "";
    assert Number("9") == 9;
    assert Number("99") == 99;
    assert Number("999") == 999;
  }

  lemma OrderedRows(a: Row, b: Row)
    requires RowLe(a, b) && (a.identifier.Some? ==> a.identifier.value != "") && (b.identifier.Some? ==> b.identifier.value != "")
    ensures Ordered(a, b)
  {
    if a.date.Some? && b.date.Some? && IsDate(a.date.value) && IsDate(b.date.value) {
      DatesAreOrdered(a.date.value, b.date.value);
    }
    if b.date.Some? && IsDate(b.date.value) { NoDateIsLast(b.date.value); }
  }

  lemma OutputIdentifiers(sheet: seq<SheetRow>, r: Row)
    requires r in Output(Bases(sheet)) && r.identifier.Some?
    ensures r.identifier.value != ""
  {
    OutputSays(sheet, r);
    assert SaysOf(sheet, r, r.evidence[0], r.sourceRows[0]);
    assert Denotes(sheet[r.sourceRows[0] - 2].id, r.identifier.value);
  }

  lemma OutputIsOrdered(sheet: seq<SheetRow>, i: nat, j: nat)
    requires i < j < |Output(Bases(sheet))|
    ensures Ordered(Output(Bases(sheet))[i], Output(Bases(sheet))[j])
  {
    var o := Output(Bases(sheet));
    OutputIsSorted(Bases(sheet));
    assert RowLe(o[i], o[j]);
    if o[i].identifier.Some? { OutputIdentifiers(sheet, o[i]); }
    if o[j].identifier.Some? { OutputIdentifiers(sheet, o[j]); }
    OrderedRows(o[i], o[j]);
  }

  // ---------- the preview ----------

  datatype Preview = Preview(sourceRows: nat, duplicateRows: nat, rows: seq<Row>)

  function InOrder(keys: seq<string>, groups: map<string, Row>): (r: seq<Row>)
    requires forall i :: 0 <= i < |keys| ==> keys[i] in groups
    ensures |r| == |keys| && forall i :: 0 <= i < |r| ==> r[i] == groups[keys[i]]
  {
    seq(|keys|, i requires 0 <= i < |keys| => groups[keys[i]])
  }

  /**
   * The rows of the preview: each says whose it is and what its evidence amounts to, every data row
   * is in exactly one of them, two data rows share one exactly when they are of one person and day,
   * and they are in order.
   */
  method ParseRows(sheet: seq<SheetRow>) returns (preview: Preview)
    ensures forall r :: r in preview.rows ==> SaysWhose(sheet, r) && SaysWhat(r)
    ensures multiset(Flatten(preview.rows)) == multiset(Numbers(sheet))
    ensures forall m: nat, n: nat :: IsData(sheet, m) && IsData(sheet, n) ==>
      ((exists r :: r in preview.rows && StandsFor(r, m, n)) <==> m == n || Together(sheet[m - 2], sheet[n - 2]))
    ensures forall i, j :: 0 <= i < j < |preview.rows| ==> Ordered(preview.rows[i], preview.rows[j])
    ensures preview.sourceRows == |Numbers(sheet)|
    ensures preview.duplicateRows == preview.sourceRows - |preview.rows|
  {
    var sourceRows, keys, groups, standalone := GroupSheet(sheet);
    ghost var bases := Bases(sheet);
    GroupedFinish(bases, keys, groups);
    var merged := InOrder(keys, groups);
    assert merged == GroupRows(bases);
    var rows := Sort(merged + standalone, RowLe);
    assert rows == Output(bases);
    DuplicateCount(sheet);
    BasesAreSingle(sheet);
    EverySheetRowOnce(sheet);
    PreviewIsRight(sheet);
    return Preview(sourceRows, DuplicateRows(rows), rows);
  }

  lemma PreviewIsRight(sheet: seq<SheetRow>)
    ensures var rows := Output(Bases(sheet));
      && (forall r :: r in rows ==> SaysWhose(sheet, r) && SaysWhat(r))
      && (forall m: nat, n: nat :: IsData(sheet, m) && IsData(sheet, n) ==>
            ((exists r :: r in rows && StandsFor(r, m, n)) <==> m == n || Together(sheet[m - 2], sheet[n - 2])))
      && forall i, j :: 0 <= i < j < |rows| ==> Ordered(rows[i], rows[j])
  {
    var rows := Output(Bases(sheet));
    forall r | r in rows ensures SaysWhose(sheet, r) && SaysWhat(r) { OutputSays(sheet, r); }
    forall m: nat, n: nat | IsData(sheet, m) && IsData(sheet, n)
      ensures (exists r :: r in rows && StandsFor(r, m, n)) <==> m == n || Together(sheet[m - 2], sheet[n - 2])
    {
      SharedRowIff(sheet, m, n);
    }
    forall i, j | 0 <= i < j < |rows| ensures Ordered(rows[i], rows[j]) { OutputIsOrdered(sheet, i, j); }
  }
}
