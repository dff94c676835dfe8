/**
 * The backfill of packages/db/src/migrate-existing.ts: lateness policies from attendance, and
 * numbered revisions from legacy class-month totals. Query results are its inputs.
 */
module Backfill {
  import opened Wrappers
  import opened Text
  import opened Sorting
  import opened Lists
  import opened IsoDates
  import Dates

  // ---------- lateness policies ----------

  /** One attendance row: the trimmed jenjang of its student, if any, and its date. */
  datatype AttendanceRow = AttendanceRow(name: Option<string>, date: string)

  datatype Jenjang = Jenjang(id: int, name: string)
  datatype Config = Config(jenjang: string, cutoff: string)
  datatype Policy = Policy(jenjangId: int, effectiveFrom: string, cutoff: string)

  predicate ValidCutoff(c: string) {
    |c| == 5 && c[2] == ':' && AllDigits(c[..2]) && AllDigits(c[3..]) && Number(c[..2]) < 24 && c[3] <= '5'
  }

  /** A time of day in minutes. */
  ghost predicate IsClock(c: string) {
    exists h: nat, m: nat :: h < 24 && m < 60 && c == PadStart(Numeral(h), 2) + ":" + PadStart(Numeral(m), 2)
  }

  /** The regular expression accepts exactly the times of day. */
  lemma CutoffIff(c: string)
    ensures ValidCutoff(c) <==> IsClock(c)
  {
    if ValidCutoff(c) {
      TwoDigits(c[..2]);
      TwoDigits(c[3..]);
      assert c == c[..2] + ":" + c[3..];
      assert Number(c[3..]) < 60;
    }
    forall h: nat, m: nat | h < 24 && m < 60 && c == PadStart(Numeral(h), 2) + ":" + PadStart(Numeral(m), 2)
      ensures ValidCutoff(c)
    {
      ClockIsValid(h, m, c);
    }
  }

  lemma ClockIsValid(h: nat, m: nat, c: string)
    requires h < 24 && m < 60 && c == PadStart(Numeral(h), 2) + ":" + PadStart(Numeral(m), 2)
    ensures ValidCutoff(c)
  {
    NumeralBelow100(h);
    NumeralBelow100(m);
    NumberPrinted(h, 2);
    NumberPrinted(m, 2);
    assert c[..2] == PadStart(Numeral(h), 2) && c[3..] == PadStart(Numeral(m), 2);
    TwoDigits(c[3..]);
    assert c[3] == c[3..][0];
  }

  ghost predicate ValidAttendance(a: AttendanceRow) {
    a.name.Some? && a.name.value != "" && IsDate(a.date)
  }

  ghost predicate HasRow(rows: seq<AttendanceRow>, name: string, day: string) {
    exists a :: a in rows && a.name == Some(name) && a.date == day
  }

  ghost predicate IsEarliest(rows: seq<AttendanceRow>, name: string, day: string) {
    HasRow(rows, name, day) && forall a :: a in rows && a.name == Some(name) ==> LexLe(day, a.date)
  }

  ghost predicate Distinct<T>(xs: seq<T>) {
    forall i, j :: 0 <= i < j < |xs| ==> xs[i] != xs[j]
  }

  function Named(jenjangs: seq<Jenjang>, name: string): seq<Jenjang> {
    Filter(jenjangs, (j: Jenjang) => j.name == name)
  }

  function Cutoffs(configs: seq<Config>, name: string): seq<Config> {
    Filter(configs, (c: Config) => c.jenjang == name)
  }

  /** A label that names one jenjang with one well-formed cutoff. */
  predicate Configured(jenjangs: seq<Jenjang>, configs: seq<Config>, name: string) {
    |Named(jenjangs, name)| == 1 && |Cutoffs(configs, name)| == 1 && ValidCutoff(Cutoffs(configs, name)[0].cutoff)
  }

  /** The one jenjang of that name. */
  ghost predicate IsJenjang(jenjangs: seq<Jenjang>, name: string, i: int) {
    0 <= i < |jenjangs| && jenjangs[i].name == name && forall j :: 0 <= j < |jenjangs| && j != i ==> jenjangs[j].name != name
  }

  /** The one configuration of that jenjang. */
  ghost predicate IsConfig(configs: seq<Config>, name: string, i: int) {
    0 <= i < |configs| && configs[i].jenjang == name && forall j :: 0 <= j < |configs| && j != i ==> configs[j].jenjang != name
  }

  /** A label is configured exactly when it names one jenjang and has one configuration, with a time of day. */
  lemma ConfiguredIff(jenjangs: seq<Jenjang>, configs: seq<Config>, name: string)
    ensures Configured(jenjangs, configs, name) <==>
      (exists i :: IsJenjang(jenjangs, name, i)) && exists k :: IsConfig(configs, name, k) && IsClock(configs[k].cutoff)
    ensures forall i :: IsJenjang(jenjangs, name, i) ==> Named(jenjangs, name) == [jenjangs[i]]
    ensures forall k :: IsConfig(configs, name, k) ==> Cutoffs(configs, name) == [configs[k]]
  {
    var f, g := (j: Jenjang) => j.name == name, (c: Config) => c.jenjang == name;
    forall i | IsJenjang(jenjangs, name, i) ensures Named(jenjangs, name) == [jenjangs[i]] {
      assert OnlyAt(jenjangs, f, i);
      FilterOfOne(jenjangs, f, i);
    }
    forall k | IsConfig(configs, name, k)
      ensures Cutoffs(configs, name) == [configs[k]] && (ValidCutoff(configs[k].cutoff) <==> IsClock(configs[k].cutoff))
    {
      assert OnlyAt(configs, g, k);
      FilterOfOne(configs, g, k);
      CutoffIff(configs[k].cutoff);
    }
    if Configured(jenjangs, configs, name) {
      var i := OneInFilter(jenjangs, f);
      var k := OneInFilter(configs, g);
      CutoffIff(configs[k].cutoff);
      assert IsJenjang(jenjangs, name, i) && IsConfig(configs, name, k);
    }
  }

  ghost predicate PreflightPasses(rows: seq<AttendanceRow>, jenjangs: seq<Jenjang>, configs: seq<Config>) {
    forall a :: a in rows ==>
      && ValidAttendance(a) && (exists i :: IsJenjang(jenjangs, a.name.value, i))
      && exists k :: IsConfig(configs, a.name.value, k) && IsClock(configs[k].cutoff)
  }

  /** The map of the first loop after the given rows, with its keys in insertion order. */
  ghost predicate EarliestOf(rows: seq<AttendanceRow>, names: seq<string>, earliest: map<string, string>) {
    Distinct(names) && (forall l :: l in earliest <==> l in names) &&
    (forall a :: a in rows ==> a.name.Some? && a.name.value in names) &&
    forall l :: l in earliest ==> IsEarliest(rows, l, earliest[l])
  }

  lemma OtherNamesKept(rows: seq<AttendanceRow>, row: AttendanceRow, name: string, day: string)
    requires IsEarliest(rows, name, day) && row.name != Some(name)
    ensures IsEarliest(rows + [row], name, day)
  {
    var a :| a in rows && a.name == Some(name) && a.date == day;
    assert a in rows + [row];
  }

  lemma NameUpdated(rows: seq<AttendanceRow>, row: AttendanceRow, day: string)
    requires row.name.Some?
    requires (day == row.date && forall a :: a in rows && a.name == row.name ==> LexLe(day, a.date))
          || (IsEarliest(rows, row.name.value, day) && LexLe(day, row.date))
    ensures IsEarliest(rows + [row], row.name.value, day)
  {
    LexTotal(row.date, row.date);
    assert row in rows + [row];
    if day != row.date || !(forall a :: a in rows && a.name == row.name ==> LexLe(day, a.date)) {
      var a :| a in rows && a.name == row.name && a.date == day;
      assert a in rows + [row];
    }
  }

  /** One row of attendance: a new label, an earlier date, or nothing new. */
  lemma EarliestStep(rows: seq<AttendanceRow>, row: AttendanceRow, names: seq<string>, earliest: map<string, string>)
    requires EarliestOf(rows, names, earliest) && row.name.Some?
    ensures var n, d := row.name.value, row.date;
      && (n !in earliest ==> EarliestOf(rows + [row], names + [n], earliest[n := d]))
      && (n in earliest && d != earliest[n] && LexLe(d, earliest[n]) ==> EarliestOf(rows + [row], names, earliest[n := d]))
      && (n in earliest && (d == earliest[n] || !LexLe(d, earliest[n])) ==> EarliestOf(rows + [row], names, earliest))
  {
    var n, d := row.name.value, row.date;
    forall l | l in earliest && l != n ensures IsEarliest(rows + [row], l, earliest[l]) {
      OtherNamesKept(rows, row, l, earliest[l]);
    }
    if n in earliest {
      LexTotal(d, earliest[n]);
      forall a | a in rows && a.name == row.name && LexLe(d, earliest[n]) ensures LexLe(d, a.date) {
        LexTransitive(d, earliest[n], a.date);
      }
      NameUpdated(rows, row, if LexLe(d, earliest[n]) then d else earliest[n]);
    } else {
      NameUpdated(rows, row, d);
    }
  }

  ghost predicate AllValid(rows: seq<AttendanceRow>) {
    forall a :: a in rows ==> ValidAttendance(a)
  }

  lemma ValidUpTo(rows: seq<AttendanceRow>, i: nat)
    requires i < |rows|
    ensures AllValid(rows[..i]) && ValidAttendance(rows[i]) ==> AllValid(rows[..i + 1])
    ensures AllValid(rows) ==> ValidAttendance(rows[i])
    ensures rows[..i + 1] == rows[..i] + [rows[i]]
  {
    assert rows[i] in rows;
  }

  ghost predicate SeenSoFar(rows: seq<AttendanceRow>, i: nat, names: seq<string>, earliest: map<string, string>) {
    i <= |rows| && AllValid(rows[..i]) && EarliestOf(rows[..i], names, earliest)
  }

  lemma NothingSeen(rows: seq<AttendanceRow>)
    ensures SeenSoFar(rows, 0, [], map[])
  {
  }

  lemma AllSeen(rows: seq<AttendanceRow>, names: seq<string>, earliest: map<string, string>)
    requires SeenSoFar(rows, |rows|, names, earliest)
    ensures AllValid(rows) && EarliestOf(rows, names, earliest)
  {
    assert rows[..|rows|] == rows;
  }

  /** The earliest date as text is the earliest day. */
  lemma EarliestIsEarliestDay(rows: seq<AttendanceRow>, name: string, day: string)
    requires AllValid(rows) && IsDate(day)
    ensures IsEarliest(rows, name, day) <==>
      HasRow(rows, name, day) && forall a :: a in rows && a.name == Some(name) ==> IsDate(a.date) && DayOf(day) <= DayOf(a.date)
  {
    forall a | a in rows && a.name == Some(name) ensures IsDate(a.date) && (LexLe(day, a.date) <==> DayOf(day) <= DayOf(a.date)) {
      DatesAreOrdered(day, a.date);
    }
  }

  /** The first loop: the earliest date of every label, in order of first appearance. */
  method EarliestDates(rows: seq<AttendanceRow>) returns (ok: bool, names: seq<string>, earliest: map<string, string>)
    ensures ok <==> AllValid(rows)
    ensures ok ==> EarliestOf(rows, names, earliest)
  {
    names, earliest := [], map[];
    NothingSeen(rows);
    for i := 0 to |rows|
      invariant SeenSoFar(rows, i, names, earliest)
    {
      ValidUpTo(rows, i);
      IsoDateAcceptedIff(rows[i].date);
      if rows[i].name.None? || rows[i].name.value == "" || !IsIsoDate(rows[i].date) { return false, names, earliest; }
      names, earliest := AddDate(rows[i], names, earliest, rows[..i]);
    }
    AllSeen(rows, names, earliest);
    ok := true;
  }

  method AddDate(row: AttendanceRow, names: seq<string>, earliest: map<string, string>, ghost rows: seq<AttendanceRow>)
    returns (names': seq<string>, earliest': map<string, string>)
    requires EarliestOf(rows, names, earliest) && row.name.Some?
    ensures EarliestOf(rows + [row], names', earliest')
  {
    EarliestStep(rows, row, names, earliest);
    var name := row.name.value;
    names', earliest' := names, earliest;
    if name !in earliest {
      names', earliest' := names + [name], earliest[name := row.date];
    } else if row.date != earliest[name] && LexLe(row.date, earliest[name]) {
      earliest' := earliest[name := row.date];
    }
  }

  /** The labels that occur, each once. */
  ghost predicate LabelsOf(rows: seq<AttendanceRow>, names: seq<string>) {
    Distinct(names) && forall l :: l in names <==> exists a :: a in rows && a.name == Some(l)
  }

  lemma EarliestNamesAreLabels(rows: seq<AttendanceRow>, names: seq<string>, earliest: map<string, string>)
    requires EarliestOf(rows, names, earliest)
    ensures LabelsOf(rows, Sort(names, LexLe))
  {
    SortedLabels(names);
    forall l | l in names ensures exists a :: a in rows && a.name == Some(l) {
      assert IsEarliest(rows, l, earliest[l]);
    }
  }

  /** The second loop: one policy for each label, until a label is not configured. */
  method InsertPolicies(rows: seq<AttendanceRow>, order: seq<string>, earliest: map<string, string>,
      jenjangs: seq<Jenjang>, configs: seq<Config>)
    returns (policies: Option<seq<Policy>>)
    requires forall l :: l in order ==> l in earliest && IsEarliest(rows, l, earliest[l])
    ensures policies.Some? <==> forall i :: 0 <= i < |order| ==> Configured(jenjangs, configs, order[i])
    ensures policies.Some? ==> |policies.value| == |order|
    ensures policies.Some? ==> forall i :: 0 <= i < |order| ==> PolicyFor(rows, jenjangs, configs, order[i], policies.value[i])
  {
    var result: seq<Policy> := [];
    for i := 0 to |order|
      invariant |result| == i
      invariant forall k :: 0 <= k < i ==> Configured(jenjangs, configs, order[k])
      invariant forall k :: 0 <= k < i ==> PolicyFor(rows, jenjangs, configs, order[k], result[k])
    {
      var name := order[i];
      if !Configured(jenjangs, configs, name) { return None; }
      var policy := Policy(Named(jenjangs, name)[0].id, earliest[name], Cutoffs(configs, name)[0].cutoff);
      assert name in order;
      ConfiguredIff(jenjangs, configs, name);
      assert PolicyFor(rows, jenjangs, configs, name, policy);
      result := result + [policy];
    }
    return Some(result);
  }

  /**
   * Every label of the attendance rows gets exactly one policy, dated at its earliest attendance
   * and for a jenjang that no other label has; or nothing is inserted and the migration fails.
   */
  method BackfillPolicies(rows: seq<AttendanceRow>, jenjangs: seq<Jenjang>, configs: seq<Config>)
    returns (policies: Option<seq<Policy>>, ghost names: seq<string>)
    requires forall i, j :: 0 <= i < j < |jenjangs| ==> jenjangs[i].id != jenjangs[j].id
    ensures policies.Some? <==> PreflightPasses(rows, jenjangs, configs)
    ensures policies.Some? ==>
      && |policies.value| == |names| && LabelsOf(rows, names)
      && (forall i :: 0 <= i < |names| ==> PolicyFor(rows, jenjangs, configs, names[i], policies.value[i]))
      && (forall i, j :: 0 <= i < j < |names| ==> policies.value[i].jenjangId != policies.value[j].jenjangId)
  {
    var ok, found, earliest := EarliestDates(rows);
    names := [];
    if !ok { return None, []; }
    EarliestNamesAreLabels(rows, found, earliest);
    var order := Sort(found, LexLe);
    SameElements(order, found);
    names := order;
    policies := InsertPolicies(rows, order, earliest, jenjangs, configs);
    LabelsConfigured(rows, order, jenjangs, configs);
    if policies.Some? { PoliciesDiffer(rows, order, jenjangs, configs, policies.value); }
  }

  lemma PoliciesDiffer(rows: seq<AttendanceRow>, names: seq<string>, jenjangs: seq<Jenjang>, configs: seq<Config>,
      policies: seq<Policy>)
    requires forall i, j :: 0 <= i < j < |jenjangs| ==> jenjangs[i].id != jenjangs[j].id
    requires Distinct(names) && |policies| == |names|
    requires forall i :: 0 <= i < |names| ==> PolicyFor(rows, jenjangs, configs, names[i], policies[i])
    ensures forall i, j :: 0 <= i < j < |names| ==> policies[i].jenjangId != policies[j].jenjangId
  {
    forall i, j | 0 <= i < j < |names| ensures policies[i].jenjangId != policies[j].jenjangId {
      assert PolicyFor(rows, jenjangs, configs, names[i], policies[i]);
      assert PolicyFor(rows, jenjangs, configs, names[j], policies[j]);
      DifferentJenjangs(jenjangs, names[i], names[j]);
    }
  }

  lemma LabelsConfigured(rows: seq<AttendanceRow>, names: seq<string>, jenjangs: seq<Jenjang>, configs: seq<Config>)
    requires LabelsOf(rows, names) && AllValid(rows)
    ensures PreflightPasses(rows, jenjangs, configs) <==> forall i :: 0 <= i < |names| ==> Configured(jenjangs, configs, names[i])
  {
    forall name ensures Configured(jenjangs, configs, name) <==>
      (exists i :: IsJenjang(jenjangs, name, i)) && exists k :: IsConfig(configs, name, k) && IsClock(configs[k].cutoff)
    {
      ConfiguredIff(jenjangs, configs, name);
    }
    if forall i :: 0 <= i < |names| ==> Configured(jenjangs, configs, names[i]) {
      forall a | a in rows ensures Configured(jenjangs, configs, a.name.value) {
        assert a.name == Some(a.name.value);
        assert a.name.value in names;
      }
    }
    forall i | 0 <= i < |names| && PreflightPasses(rows, jenjangs, configs) ensures Configured(jenjangs, configs, names[i]) {
      assert names[i] in names;
      var a :| a in rows && a.name == Some(names[i]);
    }
  }

  ghost predicate PolicyFor(rows: seq<AttendanceRow>, jenjangs: seq<Jenjang>, configs: seq<Config>, name: string, p: Policy) {
    && (exists i :: IsJenjang(jenjangs, name, i) && p.jenjangId == jenjangs[i].id)
    && (exists k :: IsConfig(configs, name, k) && p.cutoff == configs[k].cutoff)
    && IsClock(p.cutoff) && IsEarliest(rows, name, p.effectiveFrom)
  }

  lemma DifferentJenjangs(jenjangs: seq<Jenjang>, a: string, b: string)
    requires forall i, j :: 0 <= i < j < |jenjangs| ==> jenjangs[i].id != jenjangs[j].id
    requires a != b
    ensures forall i, j :: IsJenjang(jenjangs, a, i) && IsJenjang(jenjangs, b, j) ==> jenjangs[i].id != jenjangs[j].id
  {
    forall i, j | IsJenjang(jenjangs, a, i) && IsJenjang(jenjangs, b, j) ensures jenjangs[i].id != jenjangs[j].id {
      assert i != j;
      if i < j { assert jenjangs[i].id != jenjangs[j].id; } else { assert jenjangs[j].id != jenjangs[i].id; }
    }
  }

  lemma SortedLabels(names: seq<string>)
    requires Distinct(names)
    ensures var s := Sort(names, LexLe); Distinct(s) && forall l :: l in s <==> l in names
  {
    var s := Sort(names, LexLe);
    SameElements(s, names);
    OneEachIffDistinct(names);
    OneEachIffDistinct(s);
  }

  lemma {:induction false} OneEachIffDistinct(xs: seq<string>)
    ensures Distinct(xs) <==> forall x :: multiset(xs)[x] <= 1
  {
    if xs != [] {
      var rest := xs[1..];
      OneEachIffDistinct(rest);
      assert xs == [xs[0]] + rest;
      assert multiset(xs) == multiset{xs[0]} + multiset(rest);
      DistinctHead(xs);
      if forall x :: multiset(xs)[x] <= 1 {
        forall x ensures multiset(rest)[x] <= 1 { assert multiset(xs)[x] <= 1; }
        assert multiset(xs)[xs[0]] == 1 + multiset(rest)[xs[0]];
      }
      if Distinct(xs) {
        assert multiset(rest)[xs[0]] == 0;
      }
    }
  }

  lemma DistinctHead(xs: seq<string>)
    requires xs != []
    ensures Distinct(xs) <==> Distinct(xs[1..]) && xs[0] !in xs[1..]
  {
    var rest := xs[1..];
    if Distinct(rest) && xs[0] !in rest {
      forall i, j | 0 <= i < j < |xs| ensures xs[i] != xs[j] {
        assert xs[j] == rest[j - 1];
        if i > 0 { assert xs[i] == rest[i - 1]; }
      }
    }
    if Distinct(xs) {
      forall i, j | 0 <= i < j < |rest| ensures rest[i] != rest[j] { assert xs[i + 1] != xs[j + 1]; }
      forall j | 0 <= j < |rest| ensures rest[j] != xs[0] { assert xs[0] != xs[j + 1]; }
    }
  }

  // ---------- revisions ----------

  datatype LegacyTotal = LegacyTotal(
    id: int, className: string, month: int, year: int, sakit: int, izin: int, alfa: int,
    note: Option<string>, enteredAt: Option<string>, updatedAt: Option<string>)

  /** A class joined with its academic year. */
  datatype Class = Class(id: int, yearId: int, name: string, startDate: string, endDate: string)

  datatype Scope = Scope(yearId: int, classId: int, month: string)

  /** A row of attendance_ledger_class_months; its id is its position. */
  datatype ClassMonth = ClassMonth(id: nat, scope: Scope)

  datatype Revision = Revision(
    classMonthId: nat, revisionNo: nat, sakit: int, izin: int, alfa: int, createdAt: string, legacyId: int, note: Option<string>)

  predicate ValidTotal(t: LegacyTotal) {
    t.className != "" && 1000 <= t.year <= 9999 && 1 <= t.month <= 12 && t.sakit >= 0 && t.izin >= 0 && t.alfa >= 0
  }

  function MonthText(t: LegacyTotal): string
    requires ValidTotal(t)
  {
    Numeral(t.year) + "-" + PadStart(Numeral(t.month), 2)
  }

  /** The last day of the month, as day zero of the next one. */
  function LastDay(t: LegacyTotal): int
    requires ValidTotal(t)
  {
    Dates.DateOf(Dates.MakeDay(t.year, t.month, 0))
  }

  lemma LastDayIsMonthLength(t: LegacyTotal)
    requires ValidTotal(t)
    ensures LastDay(t) == Dates.DaysIn(t.year, t.month - 1)
  {
    DayZero(t.year, t.month);
    Dates.FieldsOfDay(Dates.Civil(t.year, t.month, Dates.DaysIn(t.year, t.month - 1)));
  }

  /** Day zero of the next month is the last day of this one. */
  lemma DayZero(year: int, month: int)
    requires 1 <= month <= 12
    ensures Dates.MakeDay(year, month, 0) == Dates.DayNumber(Dates.Civil(year, month, Dates.DaysIn(year, month - 1)))
  {
    if month == 12 {
      Dates.YearLength(year);
      Dates.MakeDayWithoutCarry(year + 1, 0, 0);
      assert Dates.MakeDay(year, 12, 0) == Dates.MakeDay(year + 1, 0, 0);
    } else {
      Dates.MakeDayWithoutCarry(year, month, 0);
    }
  }

  function Matches(classes: seq<Class>, t: LegacyTotal): seq<Class>
    requires ValidTotal(t)
  {
    Filter(classes, (c: Class) => InQuery(c, t))
  }

  /** The condition of the query for the classes of a legacy row. */
  predicate InQuery(c: Class, t: LegacyTotal) {
    ValidTotal(t) &&
    var month, day := MonthText(t), LastDay(t);
    c.name == t.className && day >= 0 && LexLe(c.startDate, month + "-" + Numeral(day)) && LexLe(month + "-01", c.endDate)
  }

  /** The one class-month a legacy row belongs to. */
  function ScopeOf(classes: seq<Class>, t: LegacyTotal): Option<Scope> {
    if !ValidTotal(t) || |Matches(classes, t)| != 1 then None
    else Some(Scope(Matches(classes, t)[0].yearId, Matches(classes, t)[0].id, MonthText(t)))
  }

  // ---------- which class a legacy row belongs to ----------

  /** The month as text is its year and its number. */
  ghost predicate IsMonth(s: string, year: int, month: int) {
    |s| == 7 && s[4] == '-' && AllDigits(s[..4]) && AllDigits(s[5..]) && Number(s[..4]) == year && Number(s[5..]) == month
  }

  lemma {:induction false} NumeralLength(n: nat, width: nat)
    requires width > 0 && (width == 1 ==> n < 10) && (width > 1 ==> n / 10 > 0)
    requires width > 1 ==> |Numeral(n / 10)| == width - 1
    ensures |Numeral(n)| == width
  {
  }

  lemma YearHasFourDigits(y: int)
    requires 1000 <= y <= 9999
    ensures |Numeral(y)| == 4
  {
    assert y / 10 / 10 / 10 < 10 && y / 10 / 10 / 10 > 0;
    NumeralLength(y / 10 / 10 / 10, 1);
    NumeralLength(y / 10 / 10, 2);
    NumeralLength(y / 10, 3);
    NumeralLength(y, 4);
  }

  lemma MonthTextIsMonth(t: LegacyTotal)
    requires ValidTotal(t)
    ensures IsMonth(MonthText(t), t.year, t.month)
  {
    var y, m := Numeral(t.year), PadStart(Numeral(t.month), 2);
    YearHasFourDigits(t.year);
    NumeralBelow100(t.month);
    NumberPrinted(t.month, 2);
    NumberOfNumeral(t.year);
    assert MonthText(t)[..4] == y && MonthText(t)[5..] == m;
  }

  /** Two texts of one month are the same text. */
  lemma MonthIsUnique(a: string, b: string, year: int, month: int)
    requires IsMonth(a, year, month) && IsMonth(b, year, month)
    ensures a == b
  {
    LexOfDigits(a[..4], b[..4]);
    LexOfDigits(a[5..], b[5..]);
    assert a == a[..4] + "-" + a[5..] && b == b[..4] + "-" + b[5..];
  }

  /** A month and a day of two digits make a date. */
  lemma DateInMonth(s: string, day: string, year: int, month: int)
    requires IsMonth(s, year, month) && |day| == 2 && AllDigits(day)
    ensures IsoShape(s + "-" + day) && CivilOf(s + "-" + day) == Dates.Civil(year, month, Number(day))
  {
    var d := s + "-" + day;
    assert d[..4] == s[..4] && d[5..7] == s[5..] && d[8..] == day && d[4] == s[4] && d[7] == '-';
  }

  /** The texts that the query compares with are the first and the last day of the month. */
  lemma FirstAndLast(t: LegacyTotal)
    requires ValidTotal(t)
    ensures var first, last := MonthText(t) + "-01", MonthText(t) + "-" + Numeral(LastDay(t));
      && LastDay(t) >= 0 && IsDate(first) && CivilOf(first) == Dates.Civil(t.year, t.month, 1)
      && IsDate(last) && CivilOf(last) == Dates.Civil(t.year, t.month, Dates.DaysIn(t.year, t.month - 1))
  {
    var n := Dates.DaysIn(t.year, t.month - 1);
    MonthTextIsMonth(t);
    LastDayIsMonthLength(t);
    MonthHasTwoDigitLength(t.year, t.month);
    NumberOfNumeral(n);
    DateInMonth(MonthText(t), Numeral(n), t.year, t.month);
    FirstDay();
    DateInMonth(MonthText(t), "01", t.year, t.month);
    assert MonthText(t) + "-01" == MonthText(t) + "-" + "01";
  }

  lemma FirstDay()
    ensures Number("01") == 1
  {
    assert "01"[..1] == "0" && "0"[..0] == "" && Number("0") == 0;
  }

  lemma MonthHasTwoDigitLength(year: int, month: int)
    requires 1 <= month <= 12
    ensures Dates.DaysIn(year, month - 1) > 0 && |Numeral(Dates.DaysIn(year, month - 1))| == 2
  {
    var n := Dates.DaysIn(year, month - 1);
    MonthsAreShort(year, month);
    assert 28 <= n;
    NumeralLength(n / 10, 1);
    NumeralLength(n, 2);
  }

  /** Every class's academic year is given by two real days. */
  ghost predicate YearsAreDates(classes: seq<Class>) {
    forall i :: 0 <= i < |classes| ==> IsDate(classes[i].startDate) && IsDate(classes[i].endDate)
  }

  ghost predicate IsDayOf(n: int, year: int, month: int) {
    exists day :: Dates.RealDay(Dates.Civil(year, month, day)) && n == Dates.DayNumber(Dates.Civil(year, month, day))
  }

  /** The academic year begins no later than some day of the month, and ends no earlier than some day of it. */
  ghost predicate Overlaps(c: Class, year: int, month: int)
    requires IsDate(c.startDate) && IsDate(c.endDate)
  {
    (exists n :: IsDayOf(n, year, month) && DayOf(c.startDate) <= n) && exists n :: IsDayOf(n, year, month) && n <= DayOf(c.endDate)
  }

  /** In an academic year that does not end before it begins, that is to have a day in the month. */
  lemma OverlapIsSharedDay(c: Class, year: int, month: int)
    requires 1 <= month <= 12 && IsDate(c.startDate) && IsDate(c.endDate) && DayOf(c.startDate) <= DayOf(c.endDate)
    ensures Overlaps(c, year, month) <==> exists n :: IsDayOf(n, year, month) && DayOf(c.startDate) <= n <= DayOf(c.endDate)
  {
    if Overlaps(c, year, month) {
      var a :| IsDayOf(a, year, month) && DayOf(c.startDate) <= a;
      var b :| IsDayOf(b, year, month) && b <= DayOf(c.endDate);
      var n := if a <= DayOf(c.endDate) then a else if DayOf(c.startDate) <= b then b else DayOf(c.startDate);
      DaysOfMonth(year, month, a);
      DaysOfMonth(year, month, b);
      DaysOfMonth(year, month, n);
    }
  }

  /** The days of a month are those from its first to its last. */
  lemma DaysOfMonth(year: int, month: int, n: int)
    requires 1 <= month <= 12
    ensures var first := Dates.Civil(year, month, 1); var last := Dates.Civil(year, month, Dates.DaysIn(year, month - 1));
      && Dates.RealDay(first) && Dates.RealDay(last)
      && (IsDayOf(n, year, month) <==> Dates.DayNumber(first) <= n <= Dates.DayNumber(last))
  {
    var day := n - Dates.DayNumber(Dates.Civil(year, month, 1)) + 1;
    if 1 <= day <= Dates.DaysIn(year, month - 1) {
      assert n == Dates.DayNumber(Dates.Civil(year, month, day));
    }
  }

  /** The class bears the row's name, and its academic year has days in the row's month. */
  ghost predicate Belongs(c: Class, t: LegacyTotal)
    requires IsDate(c.startDate) && IsDate(c.endDate)
  {
    c.name == t.className && Overlaps(c, t.year, t.month)
  }

  lemma QueryIsOverlap(c: Class, t: LegacyTotal)
    requires ValidTotal(t) && IsDate(c.startDate) && IsDate(c.endDate)
    ensures InQuery(c, t) <==> Belongs(c, t)
  {
    var first, last := MonthText(t) + "-01", MonthText(t) + "-" + Numeral(LastDay(t));
    FirstAndLast(t);
    DatesAreOrdered(c.startDate, last);
    DatesAreOrdered(first, c.endDate);
    DaysOfMonth(t.year, t.month, DayOf(first));
    DaysOfMonth(t.year, t.month, DayOf(last));
    forall n | IsDayOf(n, t.year, t.month) ensures DayOf(first) <= n <= DayOf(last) { DaysOfMonth(t.year, t.month, n); }
  }

  /**
   * A legacy row has a class-month exactly when it passes the preflight and belongs to exactly one
   * class; then that is the class's id, the id of its academic year, and the row's year and month.
   */
  lemma ScopeIff(classes: seq<Class>, t: LegacyTotal, s: Scope)
    requires YearsAreDates(classes)
    ensures ScopeOf(classes, t) == Some(s) <==>
      && t.className != "" && 1000 <= t.year <= 9999 && 1 <= t.month <= 12 && t.sakit >= 0 && t.izin >= 0 && t.alfa >= 0
      && exists i :: 0 <= i < |classes| && Belongs(classes[i], t)
                     && (forall j :: 0 <= j < |classes| && j != i ==> !Belongs(classes[j], t))
                     && s.classId == classes[i].id && s.yearId == classes[i].yearId && IsMonth(s.month, t.year, t.month)
  {
    if ValidTotal(t) {
      var f := (c: Class) => InQuery(c, t);
      forall i | 0 <= i < |classes| ensures f(classes[i]) <==> Belongs(classes[i], t) { QueryIsOverlap(classes[i], t); }
      MonthTextIsMonth(t);
      if IsMonth(s.month, t.year, t.month) { MonthIsUnique(s.month, MonthText(t), t.year, t.month); }
      if |Matches(classes, t)| == 1 { var i := OneInFilter(classes, f); }
      forall i | OnlyAt(classes, f, i) ensures Matches(classes, t) == [classes[i]] { FilterOfOne(classes, f, i); }
    }
  }

  function Filled(o: Option<string>): bool {
    o.Some? && o.value != ""
  }

  function Timestamp(t: LegacyTotal, now: string): string {
    if Filled(t.updatedAt) then t.updatedAt.value else if Filled(t.enteredAt) then t.enteredAt.value else now
  }

  ghost function Count<T>(xs: seq<T>, x: T): nat {
    if xs == [] then 0 else Count(xs[..|xs| - 1], x) + if xs[|xs| - 1] == x then 1 else 0
  }

  ghost predicate AllScoped(classes: seq<Class>, totals: seq<LegacyTotal>) {
    forall i :: 0 <= i < |totals| ==> ScopeOf(classes, totals[i]).Some?
  }

  /** scopes[i] is the class-month of totals[i]. */
  ghost predicate AreScopes(classes: seq<Class>, totals: seq<LegacyTotal>, scopes: seq<Scope>) {
    |scopes| == |totals| && forall i :: 0 <= i < |totals| ==> ScopeOf(classes, totals[i]) == Some(scopes[i])
  }

  /** Month rows with their positions as ids and pairwise different scopes. */
  ghost predicate MonthsWellFormed(months: seq<ClassMonth>) {
    (forall i :: 0 <= i < |months| ==> months[i].id == i + 1) &&
    forall i, j :: 0 <= i < j < |months| ==> months[i].scope != months[j].scope
  }

  /** Revision i is total i, in its scope, numbered after the earlier totals of that scope. */
  ghost predicate RevisionFor(months: seq<ClassMonth>, scopes: seq<Scope>, i: nat, t: LegacyTotal, r: Revision, now: string)
    requires i < |scopes|
  {
    && 1 <= r.classMonthId <= |months| && months[r.classMonthId - 1].scope == scopes[i]
    && r.revisionNo == Count(scopes[..i], scopes[i]) + 1
    && r.sakit == t.sakit && r.izin == t.izin && r.alfa == t.alfa && r.legacyId == t.id && r.note == t.note
    && r.createdAt == (if t.updatedAt.Some? && t.updatedAt.value != "" then t.updatedAt.value
                       else if t.enteredAt.Some? && t.enteredAt.value != "" then t.enteredAt.value else now)
  }

  datatype Ledger = Ledger(months: seq<ClassMonth>, revisions: seq<Revision>)

  ghost predicate LedgerOf(scopes: seq<Scope>, totals: seq<LegacyTotal>, now: string, l: Ledger)
    requires |scopes| == |totals|
  {
    && MonthsWellFormed(l.months) && |l.revisions| == |totals|
    && (forall i :: 0 <= i < |l.months| ==> l.months[i].scope in scopes)
    && (forall i :: 0 <= i < |totals| ==> RevisionFor(l.months, scopes, i, totals[i], l.revisions[i], now))
  }

  lemma RevisionKept(months: seq<ClassMonth>, more: seq<ClassMonth>, scopes: seq<Scope>, s: Scope, i: nat,
      t: LegacyTotal, r: Revision, now: string)
    requires months <= more && i < |scopes| && RevisionFor(months, scopes, i, t, r, now)
    ensures RevisionFor(more, scopes + [s], i, t, r, now)
  {
    assert (scopes + [s])[..i] == scopes[..i];
  }

  lemma LedgerExtends(scopes: seq<Scope>, totals: seq<LegacyTotal>, s: Scope, t: LegacyTotal, now: string, l: Ledger,
      months: seq<ClassMonth>, r: Revision)
    requires |scopes| == |totals| && LedgerOf(scopes, totals, now, l)
    requires months == l.months || (months == l.months + [ClassMonth(|l.months| + 1, s)] && s !in scopes)
    requires RevisionFor(months, scopes + [s], |totals|, t, r, now)
    ensures LedgerOf(scopes + [s], totals + [t], now, Ledger(months, l.revisions + [r]))
  {
    forall i | 0 <= i < |totals| ensures RevisionFor(months, scopes + [s], i, (totals + [t])[i], (l.revisions + [r])[i], now) {
      RevisionKept(l.months, months, scopes, s, i, totals[i], l.revisions[i], now);
    }
    assert forall i :: 0 <= i < |l.months| ==> l.months[i].scope in scopes;
    assert s in scopes + [s];
  }

  lemma {:induction false} CountIsZeroIff<T>(xs: seq<T>, x: T)
    ensures Count(xs, x) == 0 <==> x !in xs
  {
    if xs != [] {
      CountIsZeroIff(xs[..|xs| - 1], x);
      assert xs == xs[..|xs| - 1] + [xs[|xs| - 1]];
    }
  }

  /** The map of the second loop: each scope's row and its last revision number. */
  ghost predicate Tracks(counters: map<Scope, (nat, nat)>, months: seq<ClassMonth>, scopes: seq<Scope>) {
    (forall s :: s in counters <==> s in scopes) &&
    forall s :: s in counters ==>
      1 <= counters[s].0 <= |months| && months[counters[s].0 - 1].scope == s && counters[s].1 == Count(scopes, s)
  }

  /**
   * The loop over legacy totals: every row becomes exactly one revision with the same counts, and
   * within a class-month the revisions are numbered in the order the query returned them.
   */
  method BackfillRevisions(classes: seq<Class>, totals: seq<LegacyTotal>, now: string)
    returns (ledger: Option<Ledger>, ghost scopes: seq<Scope>)
    ensures ledger.Some? <==> AllScoped(classes, totals)
    ensures ledger.Some? ==> AreScopes(classes, totals, scopes) && LedgerOf(scopes, totals, now, ledger.value)
  {
    var months: seq<ClassMonth>, revisions: seq<Revision> := [], [];
    var counters: map<Scope, (nat, nat)> := map[];
    scopes := [];
    for i := 0 to |totals|
      invariant AreScopes(classes, totals[..i], scopes)
      invariant LedgerOf(scopes, totals[..i], now, Ledger(months, revisions))
      invariant Tracks(counters, months, scopes)
    {
      var total := totals[i];
      var found := ScopeOf(classes, total);
      if found.None? { return None, scopes; }
      ghost var before := Ledger(months, revisions);
      months, revisions, counters := AddRevision(found.value, total, now, months, revisions, counters, scopes, totals[..i]);
      assert totals[..i + 1] == totals[..i] + [total];
      scopes := scopes + [found.value];
    }
    assert totals[..|totals|] == totals;
    return Some(Ledger(months, revisions)), scopes;
  }

  /** The row of a scope and its last revision number, or a new row. */
  method FindScope(scope: Scope, months: seq<ClassMonth>, counters: map<Scope, (nat, nat)>, ghost scopes: seq<Scope>)
    returns (months': seq<ClassMonth>, entry: (nat, nat))
    requires Tracks(counters, months, scopes)
    ensures IsEntry(scope, months, months', entry, scopes)
  {
    CountIsZeroIff(scopes, scope);
    if scope in counters { return months, counters[scope]; }
    return months + [ClassMonth(|months| + 1, scope)], (|months| + 1, 0);
  }

  function RevisionOf(entry: (nat, nat), t: LegacyTotal, now: string): Revision {
    Revision(entry.0, entry.1 + 1, t.sakit, t.izin, t.alfa, Timestamp(t, now), t.id, t.note)
  }

  /** What FindScope gives for a scope. */
  ghost predicate IsEntry(scope: Scope, months: seq<ClassMonth>, more: seq<ClassMonth>, entry: (nat, nat), scopes: seq<Scope>) {
    (more == months || (more == months + [ClassMonth(|months| + 1, scope)] && scope !in scopes))
    && 1 <= entry.0 <= |more| && more[entry.0 - 1].scope == scope && entry.1 == Count(scopes, scope)
  }

  lemma TimestampIs(t: LegacyTotal, now: string)
    ensures Timestamp(t, now) == if t.updatedAt.Some? && t.updatedAt.value != "" then t.updatedAt.value
                                 else if t.enteredAt.Some? && t.enteredAt.value != "" then t.enteredAt.value else now
  {
  }

  lemma LedgerAdded(scopes: seq<Scope>, totals: seq<LegacyTotal>, scope: Scope, total: LegacyTotal, now: string,
      l: Ledger, more: seq<ClassMonth>, entry: (nat, nat))
    requires |scopes| == |totals| && LedgerOf(scopes, totals, now, l) && IsEntry(scope, l.months, more, entry, scopes)
    ensures LedgerOf(scopes + [scope], totals + [total], now, Ledger(more, l.revisions + [RevisionOf(entry, total, now)]))
  {
    assert (scopes + [scope])[..|scopes|] == scopes;
    TimestampIs(total, now);
    assert RevisionFor(more, scopes + [scope], |totals|, total, RevisionOf(entry, total, now), now);
    LedgerExtends(scopes, totals, scope, total, now, l, more, RevisionOf(entry, total, now));
  }

  lemma CountOfMore(scopes: seq<Scope>, scope: Scope)
    ensures forall s :: Count(scopes + [scope], s) == Count(scopes, s) + if s == scope then 1 else 0
  {
    assert (scopes + [scope])[..|scopes|] == scopes;
  }

  lemma TracksAdded(counters: map<Scope, (nat, nat)>, months: seq<ClassMonth>, more: seq<ClassMonth>,
      scopes: seq<Scope>, scope: Scope, entry: (nat, nat))
    requires Tracks(counters, months, scopes) && IsEntry(scope, months, more, entry, scopes)
    ensures Tracks(counters[scope := (entry.0, entry.1 + 1)], more, scopes + [scope])
  {
    CountOfMore(scopes, scope);
    var after := counters[scope := (entry.0, entry.1 + 1)];
    assert forall s :: s in scopes + [scope] <==> s in scopes || s == scope;
    forall s | s in after
      ensures 1 <= after[s].0 <= |more| && more[after[s].0 - 1].scope == s && after[s].1 == Count(scopes + [scope], s)
    {
      if s == scope {
        assert after[s] == (entry.0, entry.1 + 1);
      } else {
        assert after[s] == counters[s] && more[after[s].0 - 1] == months[after[s].0 - 1];
      }
    }
  }

  /** One iteration of that loop. */
  method AddRevision(scope: Scope, total: LegacyTotal, now: string, months: seq<ClassMonth>, revisions: seq<Revision>,
                     counters: map<Scope, (nat, nat)>, ghost scopes: seq<Scope>, ghost totals: seq<LegacyTotal>)
    returns (months': seq<ClassMonth>, revisions': seq<Revision>, counters': map<Scope, (nat, nat)>)
    requires |scopes| == |totals| && LedgerOf(scopes, totals, now, Ledger(months, revisions)) && Tracks(counters, months, scopes)
    ensures LedgerOf(scopes + [scope], totals + [total], now, Ledger(months', revisions'))
    ensures Tracks(counters', months', scopes + [scope])
  {
    var entry;
    months', entry := FindScope(scope, months, counters, scopes);
    LedgerAdded(scopes, totals, scope, total, now, Ledger(months, revisions), months', entry);
    TracksAdded(counters, months, months', scopes, scope, entry);
    revisions' := revisions + [RevisionOf(entry, total, now)];
    counters' := counters[scope := (entry.0, entry.1 + 1)];
  }

  ghost function SumOf<T>(xs: seq<T>, f: T -> int): int {
    if xs == [] then 0 else SumOf(xs[..|xs| - 1], f) + f(xs[|xs| - 1])
  }

  lemma {:induction false} SumsAgree(totals: seq<LegacyTotal>, revisions: seq<Revision>,
      f: LegacyTotal -> int, g: Revision -> int)
    requires |totals| == |revisions| && forall i :: 0 <= i < |totals| ==> f(totals[i]) == g(revisions[i])
    ensures SumOf(totals, f) == SumOf(revisions, g)
  {
    if totals != [] { SumsAgree(totals[..|totals| - 1], revisions[..|revisions| - 1], f, g); }
  }

  lemma TotalsAreConserved(scopes: seq<Scope>, totals: seq<LegacyTotal>, now: string, l: Ledger)
    requires |scopes| == |totals| && LedgerOf(scopes, totals, now, l)
    ensures SumOf(l.revisions, (r: Revision) => r.sakit) == SumOf(totals, (t: LegacyTotal) => t.sakit)
    ensures SumOf(l.revisions, (r: Revision) => r.izin) == SumOf(totals, (t: LegacyTotal) => t.izin)
    ensures SumOf(l.revisions, (r: Revision) => r.alfa) == SumOf(totals, (t: LegacyTotal) => t.alfa)
  {
    assert forall i :: 0 <= i < |totals| ==> RevisionFor(l.months, scopes, i, totals[i], l.revisions[i], now);
    SumsAgree(totals, l.revisions, (t: LegacyTotal) => t.sakit, (r: Revision) => r.sakit);
    SumsAgree(totals, l.revisions, (t: LegacyTotal) => t.izin, (r: Revision) => r.izin);
    SumsAgree(totals, l.revisions, (t: LegacyTotal) => t.alfa, (r: Revision) => r.alfa);
  }

  lemma {:induction false} CountOfPrefix<T>(xs: seq<T>, x: T, i: nat, j: nat)
    requires i <= j <= |xs|
    ensures Count(xs[..i], x) <= Count(xs[..j], x)
    ensures i < j && xs[i] == x ==> Count(xs[..i], x) < Count(xs[..j], x)
    decreases j
  {
    if i < j {
      assert xs[..j][..j - 1] == xs[..j - 1];
      CountOfPrefix(xs, x, i, j - 1);
      if i == j - 1 { assert xs[..j][j - 1] == xs[i]; }
    }
  }

  /** Some occurrence has each rank up to the count. */
  lemma {:induction false} RankExists<T>(xs: seq<T>, x: T, n: nat) returns (i: nat)
    requires 1 <= n <= Count(xs, x)
    ensures i < |xs| && xs[i] == x && Count(xs[..i], x) + 1 == n
  {
    var last := |xs| - 1;
    if n <= Count(xs[..last], x) {
      i := RankExists(xs[..last], x, n);
      assert xs[..last][..i] == xs[..i];
    } else {
      i := last;
    }
  }

  ghost predicate IsNumbered(scopes: seq<Scope>, revisions: seq<Revision>, s: Scope, n: nat)
    requires |scopes| == |revisions|
  {
    exists i :: 0 <= i < |scopes| && scopes[i] == s && revisions[i].revisionNo == n
  }

  lemma RevisionRank(scopes: seq<Scope>, totals: seq<LegacyTotal>, now: string, l: Ledger, i: nat)
    requires |scopes| == |totals| && LedgerOf(scopes, totals, now, l) && i < |totals|
    ensures l.revisions[i].revisionNo == Count(scopes[..i], scopes[i]) + 1 <= Count(scopes, scopes[i])
  {
    assert RevisionFor(l.months, scopes, i, totals[i], l.revisions[i], now);
    CountOfPrefix(scopes, scopes[i], i, |scopes|);
    assert scopes[..|scopes|] == scopes;
  }

  /** Within a class-month with k legacy rows the revision numbers are 1..k, each exactly once and in order. */
  lemma RevisionsAreNumbered(scopes: seq<Scope>, totals: seq<LegacyTotal>, now: string, l: Ledger, s: Scope)
    requires |scopes| == |totals| && LedgerOf(scopes, totals, now, l)
    ensures forall i :: 0 <= i < |totals| && scopes[i] == s ==> 1 <= l.revisions[i].revisionNo <= Count(scopes, s)
    ensures forall i, j :: 0 <= i < j < |totals| && scopes[i] == s && scopes[j] == s ==>
      l.revisions[i].revisionNo < l.revisions[j].revisionNo
    ensures forall n {:trigger IsNumbered(scopes, l.revisions, s, n)} :: 1 <= n <= Count(scopes, s) ==>
      IsNumbered(scopes, l.revisions, s, n)
  {
    forall i | 0 <= i < |totals|
      ensures l.revisions[i].revisionNo == Count(scopes[..i], scopes[i]) + 1 <= Count(scopes, scopes[i])
    {
      RevisionRank(scopes, totals, now, l, i);
    }
    forall i, j | 0 <= i < j < |totals| && scopes[i] == s && scopes[j] == s
      ensures l.revisions[i].revisionNo < l.revisions[j].revisionNo
    {
      CountOfPrefix(scopes, s, i, j);
    }
    forall n {:trigger IsNumbered(scopes, l.revisions, s, n)} | 1 <= n <= Count(scopes, s)
      ensures IsNumbered(scopes, l.revisions, s, n)
    {
      var i := RankExists(scopes, s, n);
      assert l.revisions[i].revisionNo == n;
    }
  }

  /** The query's order: year, month, updated_at with NULL first, id. */
  ghost predicate QueryOrder(a: LegacyTotal, b: LegacyTotal) {
    if a.year != b.year then a.year < b.year
    else if a.month != b.month then a.month < b.month
    else UpdatedBefore(a, b)
  }

  ghost predicate UpdatedBefore(a: LegacyTotal, b: LegacyTotal) {
    if a.updatedAt != b.updatedAt then a.updatedAt.None? || (b.updatedAt.Some? && LexLe(a.updatedAt.value, b.updatedAt.value))
    else a.id <= b.id
  }

  lemma {:induction false} NumeralsDiffer(a: nat, b: nat)
    ensures Numeral(a) == Numeral(b) ==> a == b
  {
    NumberOfNumeral(a);
    NumberOfNumeral(b);
  }

  lemma SameMonthText(a: LegacyTotal, b: LegacyTotal)
    requires ValidTotal(a) && ValidTotal(b) && MonthText(a) == MonthText(b)
    ensures a.year == b.year && a.month == b.month
  {
    NumeralBelow100(a.month);
    NumeralBelow100(b.month);
    var x, y := MonthText(a), MonthText(b);
    assert x[..|x| - 3] == Numeral(a.year) && y[..|y| - 3] == Numeral(b.year);
    assert x[|x| - 2..] == PadStart(Numeral(a.month), 2) && y[|y| - 2..] == PadStart(Numeral(b.month), 2);
    NumeralsDiffer(a.year, b.year);
    NumberOfPadded(Numeral(a.month), 2);
    NumberOfPadded(Numeral(b.month), 2);
    NumberOfNumeral(a.month);
    NumberOfNumeral(b.month);
  }

  lemma SameScopeSameMonth(classes: seq<Class>, a: LegacyTotal, b: LegacyTotal)
    requires ScopeOf(classes, a).Some? && ScopeOf(classes, a) == ScopeOf(classes, b)
    ensures a.year == b.year && a.month == b.month
  {
    SameMonthText(a, b);
  }

  /** Within a class-month a smaller revision number means earlier in (updated_at, id) order. */
  lemma RevisionsFollowUpdates(classes: seq<Class>, scopes: seq<Scope>, totals: seq<LegacyTotal>, now: string,
      l: Ledger, i: nat, j: nat)
    requires AreScopes(classes, totals, scopes) && LedgerOf(scopes, totals, now, l)
    requires forall a, b :: 0 <= a < b < |totals| ==> QueryOrder(totals[a], totals[b])
    requires i < |totals| && j < |totals| && scopes[i] == scopes[j]
    ensures l.revisions[i].revisionNo < l.revisions[j].revisionNo <==> i < j
    ensures i < j ==> UpdatedBefore(totals[i], totals[j])
  {
    RevisionsAreNumbered(scopes, totals, now, l, scopes[i]);
    SameScopeSameMonth(classes, totals[i], totals[j]);
  }

  // ---------- the whole backfill ----------

  /** What the backfill reads. */
  datatype Input = Input(
    attendance: seq<AttendanceRow>, jenjangs: seq<Jenjang>, configs: seq<Config>, classes: seq<Class>, totals: seq<LegacyTotal>)

  /** Jenjangs come from a table whose primary key is the id. */
  type Query = i: Input | forall a, b :: 0 <= a < b < |i.jenjangs| ==> i.jenjangs[a].id != i.jenjangs[b].id
    witness Input([], [], [], [], [])

  /** What the backfill inserts. */
  datatype Written = Written(policies: seq<Policy>, ledger: Ledger)

  /** Neither half of the backfill finds anything to complain of. */
  ghost predicate Preflight(i: Input) {
    PreflightPasses(i.attendance, i.jenjangs, i.configs) && AllScoped(i.classes, i.totals)
  }

  /** One policy for each label, in the labels' order. */
  ghost predicate PoliciesOf(i: Input, names: seq<string>, policies: seq<Policy>) {
    |policies| == |names| && LabelsOf(i.attendance, names) &&
    (forall k :: 0 <= k < |names| ==> PolicyFor(i.attendance, i.jenjangs, i.configs, names[k], policies[k])) &&
    (forall k, l :: 0 <= k < l < |names| ==> policies[k].jenjangId != policies[l].jenjangId)
  }

  ghost predicate RevisionsOf(i: Input, scopes: seq<Scope>, now: string, ledger: Ledger) {
    AreScopes(i.classes, i.totals, scopes) && LedgerOf(scopes, i.totals, now, ledger)
  }

  ghost predicate IsBackfill(i: Input, now: string, w: Written) {
    (exists names :: PoliciesOf(i, names, w.policies)) && (exists scopes :: RevisionsOf(i, scopes, now, w.ledger))
  }

  /** backfill: everything is written, or the preflight fails. */
  method WriteBackfill(i: Query, now: string) returns (written: Option<Written>)
    ensures written.Some? <==> Preflight(i)
    ensures written.Some? ==> IsBackfill(i, now, written.value)
  {
    var policies, names := BackfillPolicies(i.attendance, i.jenjangs, i.configs);
    if policies.None? { return None; }
    assert PoliciesOf(i, names, policies.value);
    var ledger, scopes := BackfillRevisions(i.classes, i.totals, now);
    if ledger.None? { return None; }
    assert RevisionsOf(i, scopes, now, ledger.value);
    return Some(Written(policies.value, ledger.value));
  }
}
