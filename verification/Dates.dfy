/**
 * Dates and durations of packages/excel/src/normalization.ts. The Date constructor rolls
 * overflowing days and months over (section 21.4.1 of ECMA-262, "Time Values and Time Range");
 * the code accepts a date only when it comes back unchanged.
 */
module Dates {
  import opened Wrappers
  import opened Text

  // ---------- day numbers, section 21.4.1 of ECMA-262 ----------

  /** DayFromYear: the day number of 1 January. */
  function DayFromYear(y: int): int {
    365 * (y - 1970) + (y - 1969) / 4 - (y - 1901) / 100 + (y - 1601) / 400
  }

  predicate IsLeap(y: int) {
    y % 4 == 0 && (y % 100 != 0 || y % 400 == 0)
  }

  /** Days before month m, counted from zero; m = 12 is the length of the year. */
  function MonthStart(m: int, leap: bool): int
    requires 0 <= m <= 12
  {
    var common := [0, 31, 59, 90, 120, 151, 181, 212, 243, 273, 304, 334, 365][m];
    if leap && m >= 2 then common + 1 else common
  }

  function DaysIn(y: int, m: int): int
    requires 0 <= m < 12
  {
    MonthStart(m + 1, IsLeap(y)) - MonthStart(m, IsLeap(y))
  }

  lemma YearLength(y: int)
    ensures DayFromYear(y + 1) - DayFromYear(y) == MonthStart(12, IsLeap(y))
  {
    FourthYears(y);
    HundredthYears(y);
    FourHundredthYears(y);
    LeapYears(y);
  }

  lemma FourthYears(y: int)
    ensures (y - 1968) / 4 - (y - 1969) / 4 == if y % 4 == 0 then 1 else 0
  {
  }

  lemma HundredthYears(y: int)
    ensures (y - 1900) / 100 - (y - 1901) / 100 == if y % 100 == 0 then 1 else 0
  {
  }

  lemma FourHundredthYears(y: int)
    ensures (y - 1600) / 400 - (y - 1601) / 400 == if y % 400 == 0 then 1 else 0
  {
  }

  lemma LeapYears(y: int)
    ensures y % 100 == 0 ==> y % 4 == 0
    ensures y % 400 == 0 ==> y % 100 == 0
  {
  }

  lemma {:induction false} YearsIncrease(a: int, b: int)
    requires a < b
    ensures DayFromYear(a) < DayFromYear(b)
    decreases b - a
  {
    YearLength(b - 1);
    if a < b - 1 { YearsIncrease(a, b - 1); }
  }

  function YearSearch(n: int, y: int): (r: int)
    ensures DayFromYear(r) <= n < DayFromYear(r + 1)
    decreases n < DayFromYear(y), if n < DayFromYear(y) then DayFromYear(y) - n else n - DayFromYear(y)
  {
    YearLength(y);
    YearLength(y - 1);
    if n < DayFromYear(y) then YearSearch(n, y - 1)
    else if n >= DayFromYear(y + 1) then YearSearch(n, y + 1)
    else y
  }

  /** YearFromTime: the year whose days include n. */
  function YearOf(n: int): (y: int)
    ensures DayFromYear(y) <= n < DayFromYear(y + 1)
  {
    YearSearch(n, 1970)
  }

  function MonthSearch(day: int, leap: bool, m: nat): (r: nat)
    requires m < 12 && 0 <= day < MonthStart(m + 1, leap)
    ensures r < 12 && MonthStart(r, leap) <= day < MonthStart(r + 1, leap)
  {
    if m == 0 || MonthStart(m, leap) <= day then m else MonthSearch(day, leap, m - 1)
  }

  /** MonthFromTime, counted from zero. */
  function MonthOf(n: int): (m: nat)
    ensures m < 12 && var start := DayFromYear(YearOf(n)); var leap := IsLeap(YearOf(n));
                      start + MonthStart(m, leap) <= n < start + MonthStart(m + 1, leap)
  {
    YearLength(YearOf(n));
    MonthSearch(n - DayFromYear(YearOf(n)), IsLeap(YearOf(n)), 11)
  }

  /** DateFromTime, counted from one. */
  function DateOf(n: int): int {
    n - DayFromYear(YearOf(n)) - MonthStart(MonthOf(n), IsLeap(YearOf(n))) + 1
  }

  /** MakeDay: months out of range carry into the year, days out of range into the months. */
  function MakeDay(year: int, month: int, date: int): int {
    var ym, mn := year + month / 12, month % 12;
    DayFromYear(ym) + MonthStart(mn, IsLeap(ym)) + date - 1
  }

  const MAX_DAY := 100_000_000

  /** Date.UTC in whole days, or None where the time value would be NaN. */
  function DateUtc(year: int, month: int, date: int): Option<int> {
    var yr := if 0 <= year <= 99 then 1900 + year else year;
    var n := MakeDay(yr, month, date);
    if -MAX_DAY <= n <= MAX_DAY then Some(n) else None
  }

  // ---------- utcDate ----------

  datatype Civil = Civil(year: int, month: int, day: int)

  function UtcDate(year: int, month: int, day: int): Option<Civil> {
    match DateUtc(year, month - 1, day)
    case None => None
    case Some(n) =>
      if YearOf(n) != year || MonthOf(n) != month - 1 || DateOf(n) != day then None
      else Some(Civil(year, month, day))
  }

  ghost predicate RealDay(c: Civil) {
    1 <= c.month <= 12 && 1 <= c.day <= DaysIn(c.year, c.month - 1)
  }

  ghost function DayNumber(c: Civil): int
    requires RealDay(c)
  {
    DayFromYear(c.year) + MonthStart(c.month - 1, IsLeap(c.year)) + c.day - 1
  }

  /** The length of a month. */
  ghost function MonthDays(year: int, month: int): int {
    if month == 2 then (if year % 400 == 0 || (year % 4 == 0 && year % 100 != 0) then 29 else 28)
    else if month in {4, 6, 9, 11} then 30 else 31
  }

  /** The day after. */
  ghost function NextDay(c: Civil): Civil {
    if c.day < MonthDays(c.year, c.month) then Civil(c.year, c.month, c.day + 1)
    else if c.month < 12 then Civil(c.year, c.month + 1, 1)
    else Civil(c.year + 1, 1, 1)
  }

  lemma MonthLengths(year: int, month: int)
    requires 1 <= month <= 12
    ensures DaysIn(year, month - 1) == MonthDays(year, month)
  {
    LeapYears(year);
  }

  /** Day numbers count the days of the calendar from 1 January 1970, and the real days are those of its months. */
  lemma DayNumbersCount(c: Civil)
    ensures RealDay(c) <==> 1 <= c.month <= 12 && 1 <= c.day <= MonthDays(c.year, c.month)
    ensures RealDay(c) ==> RealDay(NextDay(c)) && DayNumber(NextDay(c)) == DayNumber(c) + 1
    ensures RealDay(Civil(1970, 1, 1)) && DayNumber(Civil(1970, 1, 1)) == 0
  {
    if 1 <= c.month <= 12 { MonthLengths(c.year, c.month); }
    if RealDay(c) {
      if c.day < MonthDays(c.year, c.month) || c.month < 12 { NextInYear(c); } else { NextYear(c); }
    }
    MonthLengths(1970, 1);
  }

  lemma NextInYear(c: Civil)
    requires RealDay(c) && (c.day < MonthDays(c.year, c.month) || c.month < 12)
    ensures RealDay(NextDay(c)) && DayNumber(NextDay(c)) == DayNumber(c) + 1
  {
    MonthLengths(c.year, c.month);
    if c.month < 12 { MonthLengths(c.year, c.month + 1); }
  }

  lemma NextYear(c: Civil)
    requires RealDay(c) && c.month == 12 && c.day == 31
    ensures RealDay(NextDay(c)) && DayNumber(NextDay(c)) == DayNumber(c) + 1
  {
    MonthLengths(c.year, 12);
    MonthLengths(c.year + 1, 1);
    YearLength(c.year);
  }

  lemma MonthsIncrease(a: int, b: int, leap: bool)
    requires 0 <= a < b <= 12
    ensures MonthStart(a, leap) < MonthStart(b, leap)
  {
  }

  lemma YearIsUnique(n: int, y: int)
    requires DayFromYear(y) <= n < DayFromYear(y + 1)
    ensures YearOf(n) == y
  {
    var r := YearOf(n);
    if r + 1 < y { YearsIncrease(r + 1, y); }
    if y + 1 < r { YearsIncrease(y + 1, r); }
  }

  lemma MonthIsUnique(day: int, leap: bool, a: nat, b: nat)
    requires a < 12 && b < 12
    requires MonthStart(a, leap) <= day < MonthStart(a + 1, leap) && MonthStart(b, leap) <= day < MonthStart(b + 1, leap)
    ensures a == b
  {
    if a + 1 < b { MonthsIncrease(a + 1, b, leap); }
    if b + 1 < a { MonthsIncrease(b + 1, a, leap); }
  }

  lemma RealDayInYear(c: Civil)
    requires RealDay(c)
    ensures var d := DayNumber(c) - DayFromYear(c.year); var leap := IsLeap(c.year);
            MonthStart(c.month - 1, leap) <= d < MonthStart(c.month, leap) && 0 <= d < MonthStart(12, leap)
  {
  }

  /** The fields of a day number are the one real day with that number. */
  lemma FieldsOfDay(c: Civil)
    requires RealDay(c)
    ensures YearOf(DayNumber(c)) == c.year && MonthOf(DayNumber(c)) == c.month - 1 && DateOf(DayNumber(c)) == c.day
  {
    var n := DayNumber(c);
    RealDayInYear(c);
    YearLength(c.year);
    YearIsUnique(n, c.year);
    MonthIsUnique(n - DayFromYear(c.year), IsLeap(c.year), MonthOf(n), c.month - 1);
  }

  lemma DayOfFields(n: int)
    ensures var c := Civil(YearOf(n), MonthOf(n) + 1, DateOf(n)); RealDay(c) && DayNumber(c) == n
  {
  }

  lemma MakeDayWithoutCarry(year: int, month: int, date: int)
    requires 0 <= month < 12
    ensures MakeDay(year, month, date) == DayFromYear(year) + MonthStart(month, IsLeap(year)) + date - 1
  {
    assert month / 12 == 0 && month % 12 == month;
  }

  lemma LostLeapDay(y: int, moved: int, month: int, day: int)
    requires 1 <= month <= 12 && 1 <= day <= DaysIn(y, month - 1) && day > DaysIn(moved, month - 1)
    ensures month == 2 && day == 29 && !IsLeap(moved)
  {
  }

  lemma OrdinaryDay(c: Civil)
    requires RealDay(c)
    ensures MakeDay(c.year, c.month - 1, c.day) == DayNumber(c)
    ensures YearOf(MakeDay(c.year, c.month - 1, c.day)) == c.year
  {
    MakeDayWithoutCarry(c.year, c.month - 1, c.day);
    FieldsOfDay(c);
  }

  /** A two-digit year comes back as a year of the twentieth century; 29 February may roll over to 1 March there. */
  lemma TwoDigitYearMoves(c: Civil)
    requires RealDay(c) && 0 <= c.year <= 99
    ensures YearOf(MakeDay(1900 + c.year, c.month - 1, c.day)) == 1900 + c.year
  {
    var y := 1900 + c.year;
    if c.day <= DaysIn(y, c.month - 1) {
      OrdinaryDay(Civil(y, c.month, c.day));
    } else {
      LostLeapDay(c.year, y, c.month, c.day);
      LeapDayBecomesMarch(y);
    }
  }

  lemma LeapDayBecomesMarch(y: int)
    requires !IsLeap(y)
    ensures YearOf(MakeDay(y, 1, 29)) == y
  {
    MakeDayWithoutCarry(y, 1, 29);
    YearLength(y);
    YearIsUnique(MakeDay(y, 1, 29), y);
  }

  /** Two-digit years are taken to be of the twentieth century. */
  lemma TwoDigitYearIs(year: int, month: int, date: int)
    requires 0 <= year <= 99
    ensures DateUtc(year, month, date) == DateUtc(1900 + year, month, date)
  {
  }

  /**
   * utcDate returns a date exactly when it is a real Gregorian day, its year is not one of the
   * two-digit years that Date.UTC moves to the twentieth century, and it is in the Date range.
   */
  lemma UtcDateAcceptsIff(year: int, month: int, day: int)
    ensures var c := Civil(year, month, day);
            UtcDate(year, month, day) ==
              if RealDay(c) && !(0 <= year <= 99) && -MAX_DAY <= DayNumber(c) <= MAX_DAY then Some(c) else None
  {
    var c := Civil(year, month, day);
    if !RealDay(c) {
      UnrealDayChanges(year, month, day);
    } else if 0 <= year <= 99 {
      ShortYearRejected(c);
    } else {
      LongYearAccepted(c);
    }
  }

  lemma ShortYearRejected(c: Civil)
    requires RealDay(c) && 0 <= c.year <= 99
    ensures UtcDate(c.year, c.month, c.day).None?
  {
    TwoDigitYearMoves(c);
  }

  lemma LongYearAccepted(c: Civil)
    requires RealDay(c) && !(0 <= c.year <= 99)
    ensures UtcDate(c.year, c.month, c.day) == if -MAX_DAY <= DayNumber(c) <= MAX_DAY then Some(c) else None
  {
    LongYearDay(c);
    FieldsOfDay(c);
  }

  lemma LongYearDay(c: Civil)
    requires RealDay(c) && !(0 <= c.year <= 99)
    ensures DateUtc(c.year, c.month - 1, c.day) == if -MAX_DAY <= DayNumber(c) <= MAX_DAY then Some(DayNumber(c)) else None
  {
    MakeDayWithoutCarry(c.year, c.month - 1, c.day);
  }

  lemma UnrealDayChanges(year: int, month: int, day: int)
    requires !RealDay(Civil(year, month, day))
    ensures UtcDate(year, month, day).None?
  {
    var n := DateUtc(year, month - 1, day);
    if n.Some? { DayOfFields(n.value); }
  }

  // ---------- text dates ----------

  predicate Digits(s: string, least: nat, most: nat) {
    least <= |s| <= most && AllDigits(s)
  }

  /** ^(\d{1,2})\/(\d{1,2})\/(\d{4})$ */
  ghost predicate DateShape(t: string, d: string, m: string, y: string) {
    && 1 <= |d| <= 2 && AllDigits(d) && 1 <= |m| <= 2 && AllDigits(m) && |y| == 4 && AllDigits(y)
    && t == d + "/" + m + "/" + y
  }

  function SplitDate(t: string): (r: Option<(string, string, string)>)
    ensures r.Some? ==> DateShape(t, r.value.0, r.value.1, r.value.2)
  {
    var i := if |t| > 1 && t[1] == '/' then 1 else 2;
    if |t| <= i || t[i] != '/' then None
    else
      var u := t[i + 1..];
      var j := if |u| > 1 && u[1] == '/' then 1 else 2;
      if |u| <= j || u[j] != '/' then None
      else
        var d, m, y := t[..i], u[..j], u[j + 1..];
        if Digits(d, 1, 2) && Digits(m, 1, 2) && Digits(y, 4, 4) then
          assert t == d + "/" + u && u == m + "/" + y;
          Some((d, m, y))
        else None
  }

  lemma SplitDateComplete(t: string, d: string, m: string, y: string)
    requires DateShape(t, d, m, y)
    ensures SplitDate(t) == Some((d, m, y))
  {
    var u := m + "/" + y;
    assert t == d + ("/" + u);
    FirstSlash(t, d, u);
    FirstSlash(u, m, y);
  }

  lemma FirstSlash(t: string, front: string, rest: string)
    requires 1 <= |front| <= 2 && AllDigits(front) && t == front + ("/" + rest)
    ensures (if |t| > 1 && t[1] == '/' then 1 else 2) == |front|
    ensures t[|front|] == '/' && t[..|front|] == front && t[|front| + 1..] == rest
  {
    if |front| == 2 { assert IsDigit(t[1]) by { assert t[1] == front[1]; } }
  }

  /** parseExcelDate on a string */
  function ParseTextDate(text: string): Option<Civil> {
    match SplitDate(Trim(text))
    case None => None
    case Some((d, m, y)) => UtcDate(Number(y), Number(m), Number(d))
  }

  lemma {:induction false} NumberBelow(s: string, bound: nat)
    requires AllDigits(s) && |s| <= 4 &&
      bound == (if |s| == 0 then 1 else if |s| == 1 then 10
                else if |s| == 2 then 100 else if |s| == 3 then 1000 else 10000)
    ensures Number(s) < bound
  {
    if s != "" { NumberBelow(s[..|s| - 1], bound / 10); }
  }

  /** A text date is accepted exactly when it is a real Gregorian day with year at least 100. */
  lemma TextDateAcceptedIff(text: string)
    ensures ParseTextDate(text).Some? <==>
      exists d, m, y :: DateShape(Trim(text), d, m, y) && Number(y) >= 100 && RealDay(Civil(Number(y), Number(m), Number(d)))
    ensures forall d, m, y :: DateShape(Trim(text), d, m, y) && ParseTextDate(text).Some? ==>
      ParseTextDate(text) == Some(Civil(Number(y), Number(m), Number(d)))
  {
    forall d, m, y | DateShape(Trim(text), d, m, y)
      ensures SplitDate(Trim(text)) == Some((d, m, y))
      ensures ParseTextDate(text) ==
        if Number(y) >= 100 && RealDay(Civil(Number(y), Number(m), Number(d)))
        then Some(Civil(Number(y), Number(m), Number(d))) else None
    {
      SplitDateComplete(Trim(text), d, m, y);
      NumberBelow(y, 10000);
      FourDigitDayInRange(Number(y), Number(m), Number(d));
      UtcDateAcceptsIff(Number(y), Number(m), Number(d));
    }
    if ParseTextDate(text).Some? {
      var p := SplitDate(Trim(text)).value;
      assert DateShape(Trim(text), p.0, p.1, p.2);
    }
  }

  lemma FourDigitDayInRange(year: int, month: int, day: int)
    requires 0 <= year <= 9999
    ensures RealDay(Civil(year, month, day)) ==> -MAX_DAY <= DayNumber(Civil(year, month, day)) <= MAX_DAY
  {
  }

  // ---------- serial dates ----------

  function EpochDay(date1904: bool): int {
    if date1904 then -24107 else -25569
  }

  /** The epochs are the day numbers of 1 January 1904 and 30 December 1899. */
  lemma EpochsAreDates()
    ensures MakeDay(1904, 0, 1) == EpochDay(true) && MakeDay(1899, 11, 30) == EpochDay(false)
  {
    MakeDayWithoutCarry(1904, 0, 1);
    MakeDayWithoutCarry(1899, 11, 30);
  }

  /** The civil fields of a time value that many days from the epoch, validated like any other date. */
  function CivilOf(n: int): Option<Civil> {
    if !(-MAX_DAY <= n <= MAX_DAY) then None else UtcDate(YearOf(n), MonthOf(n) + 1, DateOf(n))
  }

  /** excelSerialDate on a finite number */
  function SerialDate(serial: real, date1904: bool): Option<Civil> {
    if serial < 0.0 then None else CivilOf(EpochDay(date1904) + serial.Floor)
  }

  lemma YearAfterEpoch(n: int)
    requires n >= EpochDay(false)
    ensures YearOf(n) >= 1899
  {
    if YearOf(n) < 1898 { YearsIncrease(YearOf(n) + 1, 1899); }
    assert DayFromYear(1899) <= n;
  }

  lemma CivilOfDay(n: int)
    requires n >= EpochDay(false)
    ensures CivilOf(n).Some? <==> n <= MAX_DAY
    ensures CivilOf(n).Some? ==> RealDay(CivilOf(n).value) && DayNumber(CivilOf(n).value) == n
  {
    DayOfFields(n);
    YearAfterEpoch(n);
    UtcDateAcceptsIff(YearOf(n), MonthOf(n) + 1, DateOf(n));
  }

  /** A serial denotes the day that many whole days after the epoch, up to the end of the Date range. */
  lemma SerialDateIsDay(serial: real, date1904: bool)
    ensures var n := EpochDay(date1904) + serial.Floor;
            var r := SerialDate(serial, date1904);
            && (r.Some? <==> serial >= 0.0 && n <= MAX_DAY)
            && (r.Some? ==> RealDay(r.value) && DayNumber(r.value) == n)
  {
    if serial >= 0.0 { CivilOfDay(EpochDay(date1904) + serial.Floor); }
  }

  ghost predicate Before(a: Civil, b: Civil) {
    a.year < b.year || (a.year == b.year && (a.month < b.month || (a.month == b.month && a.day < b.day)))
  }

  /** Day numbers order real days as the calendar does. */
  lemma DayNumbersAreOrdered(a: Civil, b: Civil)
    requires RealDay(a) && RealDay(b)
    ensures DayNumber(a) < DayNumber(b) <==> Before(a, b)
  {
    BeforeIncreases(a, b);
    BeforeIncreases(b, a);
  }

  lemma BeforeIncreases(a: Civil, b: Civil)
    requires RealDay(a) && RealDay(b)
    ensures Before(a, b) ==> DayNumber(a) < DayNumber(b)
  {
    if a.year < b.year {
      RealDayInYear(a);
      RealDayInYear(b);
      YearLength(a.year);
      if a.year + 1 < b.year { YearsIncrease(a.year + 1, b.year); }
    } else if a.year == b.year && a.month < b.month - 1 {
      MonthsIncrease(a.month, b.month - 1, IsLeap(a.year));
    }
  }

  lemma LaterSerialIsLaterDate(a: nat, b: nat, date1904: bool)
    requires a < b && SerialDate(b as real, date1904).Some?
    ensures SerialDate(a as real, date1904).Some? &&
      Before(SerialDate(a as real, date1904).value, SerialDate(b as real, date1904).value)
  {
    SerialDateIsDay(a as real, date1904);
    SerialDateIsDay(b as real, date1904);
    DayNumbersAreOrdered(SerialDate(a as real, date1904).value, SerialDate(b as real, date1904).value);
  }

  /**
   * The two date systems are 1462 days apart: serial n of the 1904 system is serial n + 1462 of
   * the 1900 system, except where only the latter is not negative and still in range.
   */
  lemma DateSystemsDiffer(serial: real)
    ensures SerialDate(serial, true) == SerialDate(serial + 1462.0, false) <==> (serial >= 0.0 || serial + 1462.0 < 0.0)
  {
    assert (serial + 1462.0).Floor == serial.Floor + 1462;
    SerialDateIsDay(serial + 1462.0, false);
  }

  // ---------- durations ----------

  function Max(a: int, b: int): int {
    if a < b then b else a
  }

  function TwoPlaces(n: nat): string {
    PadStart(Numeral(n), 2)
  }

  /** secondsToTimeText of a number */
  function SecondsToTimeText(seconds: real): string {
    var total: nat := Max(0, seconds.Floor);
    TwoPlaces(total / 3600) + ":" + TwoPlaces(total / 60 % 60) + ":" + TwoPlaces(total % 60)
  }

  predicate Sexagesimal(s: string) {
    |s| == 2 && AllDigits(s) && s[0] <= '5'
  }

  /** parseStoredDuration: ^(\d+):([0-5]\d):([0-5]\d)$ */
  function ParseStoredDuration(t: string): Option<nat> {
    if |t| < 7 then None
    else
      var k := |t| - 6;
      var h, m, s := t[..k], t[k + 1..k + 3], t[k + 4..];
      if t[k] != ':' || t[k + 3] != ':' || !AllDigits(h) || !Sexagesimal(m) || !Sexagesimal(s) then None
      else Some(Seconds(h, m, s))
  }

  function Seconds(h: string, m: string, s: string): nat
    requires AllDigits(h) && AllDigits(m) && AllDigits(s)
  {
    Number(h) * 3600 + Number(m) * 60 + Number(s)
  }

  lemma ParseParts(h: string, m: string, s: string)
    requires h != "" && AllDigits(h) && Sexagesimal(m) && Sexagesimal(s)
    ensures ParseStoredDuration(h + ":" + m + ":" + s) == Some(Seconds(h, m, s))
  {
    ThreeParts(h, m, s);
    var t := h + ":" + m + ":" + s;
    ParseSlices(t, |h|);
  }

  lemma ParseSlices(t: string, k: nat)
    requires k >= 1 && |t| == k + 6 && t[k] == ':' && t[k + 3] == ':'
    requires AllDigits(t[..k]) && Sexagesimal(t[k + 1..k + 3]) && Sexagesimal(t[k + 4..])
    ensures ParseStoredDuration(t) == Some(Seconds(t[..k], t[k + 1..k + 3], t[k + 4..]))
  {
  }

  lemma ThreeParts(h: string, m: string, s: string)
    requires |m| == 2 && |s| == 2
    ensures var t := h + ":" + m + ":" + s; var k := |h|;
            |t| == k + 6 && t[k] == ':' && t[k + 3] == ':' && t[..k] == h && t[k + 1..k + 3] == m && t[k + 4..] == s
  {
  }

  lemma TwoPlacesBelow60(n: nat)
    requires n < 60
    ensures Sexagesimal(TwoPlaces(n)) && Number(TwoPlaces(n)) == n
  {
    NumberOfNumeral(n);
    NumberOfPadded(Numeral(n), 2);
    NumeralBelow100(n);
    TwoDigits(TwoPlaces(n));
  }

  lemma {:induction false} PadKeepsText(s: string, width: nat)
    ensures |PadStart(s, width)| >= |s|
    decreases width - |s|
  {
    if |s| < width { PadKeepsText("0" + s, width); }
  }

  lemma ClockTotal(total: nat)
    ensures total == total / 3600 * 3600 + total / 60 % 60 * 60 + total % 60
  {
  }

  /** Stored durations read back, with negative seconds stored as zero and hours of any length. */
  lemma DurationRoundTrip(seconds: real)
    ensures ParseStoredDuration(SecondsToTimeText(seconds)) == Some(Max(0, seconds.Floor))
  {
    var total: nat := Max(0, seconds.Floor);
    var h := TwoPlaces(total / 3600);
    NumberOfNumeral(total / 3600);
    NumberOfPadded(Numeral(total / 3600), 2);
    PadKeepsText(Numeral(total / 3600), 2);
    TwoPlacesBelow60(total / 60 % 60);
    TwoPlacesBelow60(total % 60);
    ParseParts(h, TwoPlaces(total / 60 % 60), TwoPlaces(total % 60));
    ClockTotal(total);
  }

  /** Hours as secondsToTimeText writes them: two digits, or more without a leading zero. */
  ghost predicate CanonicalHours(h: string) {
    |h| == 2 || (|h| > 2 && h[0] != '0')
  }

  lemma HoursPrintBack(h: string)
    requires h != "" && AllDigits(h)
    ensures TwoPlaces(Number(h)) == h <==> CanonicalHours(h)
  {
    if |h| == 2 {
      TwoDigits(h);
    } else if |h| > 2 && h[0] != '0' {
      NumeralIsCanonical(h);
    } else if |h| == 1 {
      PadReaches(Numeral(Number(h)), 2);
    } else if TwoPlaces(Number(h)) == h {
      NoLeadingZero(Number(h));
    }
  }

  lemma {:induction false} PadReaches(s: string, width: nat)
    ensures |PadStart(s, width)| >= width
    decreases width - |s|
  {
    if |s| < width { PadReaches("0" + s, width); }
  }

  lemma {:induction false} NoLeadingZero(n: nat)
    ensures |Numeral(n)| > 1 ==> Numeral(n)[0] != '0'
    ensures |TwoPlaces(n)| > 2 ==> TwoPlaces(n) == Numeral(n)
  {
    if n >= 10 { NoLeadingZero(n / 10); }
    assert PadStart(Numeral(n), 2) == if |Numeral(n)| >= 2 then Numeral(n) else "0" + Numeral(n);
  }

  lemma ClockParts(h: nat, m: nat, s: nat)
    requires m < 60 && s < 60
    ensures var total := h * 3600 + m * 60 + s; total / 3600 == h && total / 60 % 60 == m && total % 60 == s
  {
    var minutes, total := h * 60 + m, h * 3600 + m * 60 + s;
    assert total == minutes * 60 + s && total / 60 == minutes && total % 60 == s;
    assert minutes / 60 == h && minutes % 60 == m;
  }

  /** Printing the seconds of a clock text. */
  lemma PrintedSeconds(h: string, m: string, s: string)
    requires AllDigits(h) && Sexagesimal(m) && Sexagesimal(s)
    ensures SecondsToTimeText(Seconds(h, m, s) as real) == TwoPlaces(Number(h)) + ":" + m + ":" + s
  {
    TwoDigits(m);
    TwoDigits(s);
    ClockParts(Number(h), Number(m), Number(s));
    assert (Seconds(h, m, s) as real).Floor == Seconds(h, m, s);
  }

  lemma SameHours(a: string, b: string, rest: string)
    requires a + rest == b + rest
    ensures a == b
  {
    assert |a| == |b| && (a + rest)[..|a|] == a && (b + rest)[..|b|] == b;
  }

  /** A stored duration prints back unchanged exactly when its hours are canonical. */
  lemma StoredDurationPrintsBack(h: string, m: string, s: string)
    requires h != "" && AllDigits(h) && Sexagesimal(m) && Sexagesimal(s)
    ensures var t := h + ":" + m + ":" + s;
            SecondsToTimeText(ParseStoredDuration(t).value as real) == t <==> CanonicalHours(h)
  {
    ParseParts(h, m, s);
    PrintedSeconds(h, m, s);
    HoursPrintBack(h);
    var printed, rest := TwoPlaces(Number(h)), ":" + m + ":" + s;
    assert printed + ":" + m + ":" + s == printed + rest && h + ":" + m + ":" + s == h + rest;
    if printed + rest == h + rest { SameHours(printed, h, rest); }
  }
}
