/**
 * Dates in the form YYYY-MM-DD, checked by printing them back, as both
 * apps/api/src/analytics/risk-threshold-validation.ts and packages/db/src/migrate-existing.ts do.
 */
module IsoDates {
  import opened Text
  import opened Sorting
  import Dates

  predicate IsoShape(s: string) {
    |s| == 10 && s[4] == '-' && s[7] == '-' && AllDigits(s[..4]) && AllDigits(s[5..7]) && AllDigits(s[8..])
  }

  /** The year as toISOString prints it (section 21.4.1.32 of ECMA-262). */
  function PrintedYear(y: int): string {
    if 0 <= y <= 9999 then PadStart(Numeral(y), 4)
    else if y < 0 then "-" + PadStart(Numeral(-y), 6)
    else "+" + PadStart(Numeral(y), 6)
  }

  /** The date of a day as toISOString prints it. */
  function Printed(n: int): string {
    PrintedYear(Dates.YearOf(n)) + "-" + PadStart(Numeral(Dates.MonthOf(n) + 1), 2) + "-" +
    PadStart(Numeral(Dates.DateOf(n)), 2)
  }

  /** isIsoDate: the day, rolled over into the next month where there is no such day, prints as the text. */
  predicate IsIsoDate(s: string) {
    IsoShape(s) &&
    var year, month, day := Number(s[..4]), Number(s[5..7]), Number(s[8..]);
    1 <= month <= 12 && 1 <= day <= 31 && Printed(Dates.MakeDay(year, month - 1, day)) == s
  }

  /** A real day in the form YYYY-MM-DD. */
  ghost predicate IsDate(s: string) {
    IsoShape(s) && Dates.RealDay(Dates.Civil(Number(s[..4]), Number(s[5..7]), Number(s[8..])))
  }

  lemma {:induction false} PaddedOneMore(s: string, width: nat)
    requires |s| <= width
    ensures PadStart(s, width + 1) == "0" + PadStart(s, width)
    decreases width - |s|
  {
    if |s| < width { PaddedOneMore("0" + s, width); }
  }

  lemma {:induction false} PaddedWidth(s: string, width: nat)
    ensures |PadStart(s, width)| == if |s| < width then width else |s|
    decreases width - |s|
  {
    if |s| < width { PaddedWidth("0" + s, width); }
  }

  /** A run of digits is the padded numeral of what it denotes. */
  lemma {:induction false} PaddedBack(s: string)
    requires AllDigits(s) && s != ""
    ensures PadStart(Numeral(Number(s)), |s|) == s
  {
    if |s| == 1 || s[0] != '0' {
      NumeralIsCanonical(s);
    } else {
      var rest := s[1..];
      assert s == "0" + rest;
      NumberOfLeadingZero(rest);
      PaddedBack(rest);
      PaddedWidth(Numeral(Number(rest)), |rest|);
      PaddedOneMore(Numeral(Number(rest)), |rest|);
    }
  }

  lemma NumberPrinted(n: nat, width: nat)
    ensures AllDigits(PadStart(Numeral(n), width)) && Number(PadStart(Numeral(n), width)) == n
  {
    NumberOfPadded(Numeral(n), width);
    NumberOfNumeral(n);
  }

  /** What is printed in the shape of a date can be read back. */
  lemma PrintedReadsBack(n: int, s: string)
    requires IsoShape(s) && Printed(n) == s
    ensures Number(s[..4]) == Dates.YearOf(n) && Number(s[5..7]) == Dates.MonthOf(n) + 1 && Number(s[8..]) == Dates.DateOf(n)
  {
    var y, m, d := Dates.YearOf(n), Dates.MonthOf(n) + 1, Dates.DateOf(n);
    assert s[..4][0] == s[0] == PrintedYear(y)[0];
    NumeralBelow100(m);
    NumeralBelow100(d);
    NumberPrinted(y, 4);
    NumberPrinted(m, 2);
    NumberPrinted(d, 2);
    assert s[..4] == PrintedYear(y) && s[5..7] == PadStart(Numeral(m), 2) && s[8..] == PadStart(Numeral(d), 2);
  }

  /** The three numbers of a date, printed. */
  lemma PartsPrintBack(s: string)
    requires IsoShape(s)
    ensures PrintedYear(Number(s[..4])) + "-" + PadStart(Numeral(Number(s[5..7])), 2) + "-" +
            PadStart(Numeral(Number(s[8..])), 2) == s
  {
    FourDigits(s[..4]);
    PaddedBack(s[..4]);
    PaddedBack(s[5..7]);
    PaddedBack(s[8..]);
    assert s == s[..4] + "-" + s[5..7] + "-" + s[8..];
  }

  lemma RealDayIsItsFields(year: int, month: int, day: int)
    requires Dates.RealDay(Dates.Civil(year, month, day))
    ensures var n := Dates.MakeDay(year, month - 1, day);
      Dates.YearOf(n) == year && Dates.MonthOf(n) + 1 == month && Dates.DateOf(n) == day
  {
    var c, n := Dates.Civil(year, month, day), Dates.MakeDay(year, month - 1, day);
    Dates.OrdinaryDay(c);
    FieldsOfSameDay(c, n);
  }

  lemma FieldsOfSameDay(c: Dates.Civil, n: int)
    requires Dates.RealDay(c) && n == Dates.DayNumber(c)
    ensures Dates.YearOf(n) == c.year && Dates.MonthOf(n) == c.month - 1 && Dates.DateOf(n) == c.day
  {
    Dates.FieldsOfDay(c);
  }

  lemma MonthsAreShort(y: int, month: int)
    requires 1 <= month <= 12
    ensures Dates.DaysIn(y, month - 1) <= 31
  {
  }

  lemma RealDayPrintsBack(s: string)
    requires IsDate(s)
    ensures IsIsoDate(s)
  {
    RealDayIsItsFields(Number(s[..4]), Number(s[5..7]), Number(s[8..]));
    MonthsAreShort(Number(s[..4]), Number(s[5..7]));
    PartsPrintBack(s);
  }

  lemma OnlyRealDaysPrintBack(s: string)
    requires IsIsoDate(s)
    ensures IsDate(s)
  {
    var n := Dates.MakeDay(Number(s[..4]), Number(s[5..7]) - 1, Number(s[8..]));
    PrintedReadsBack(n, s);
    Dates.DayOfFields(n);
  }

  /** A date is accepted exactly when it is a real day. */
  lemma IsoDateAcceptedIff(s: string)
    ensures IsIsoDate(s) <==> IsDate(s)
  {
    if IsDate(s) {
      RealDayPrintsBack(s);
    } else if IsIsoDate(s) {
      OnlyRealDaysPrintBack(s);
    }
  }

  lemma FourDigits(s: string)
    requires AllDigits(s) && |s| == 4
    ensures Number(s) <= 9999
  {
    assert s[..3][..2] == s[..2] && s[..2][..1] == s[..1] && s[..1][..0] == "";
    assert Number(s[..1]) <= 9;
    assert Number(s[..2]) <= 99;
    assert Number(s[..3]) <= 999;
  }

  // ---------- order ----------

  /** The day that a text denotes. */
  ghost function CivilOf(s: string): Dates.Civil
    requires IsoShape(s)
  {
    Dates.Civil(Number(s[..4]), Number(s[5..7]), Number(s[8..]))
  }

  ghost function DayOf(s: string): int
    requires IsDate(s)
  {
    Dates.DayNumber(CivilOf(s))
  }

  /** Text that starts with parts of one length is ordered by those parts first. */
  lemma {:induction false} LexOfParts(a: string, b: string, s: string, t: string)
    requires |a| == |b|
    ensures LexLe(a + s, b + t) <==> if a == b then LexLe(s, t) else LexLe(a, b)
  {
    if a == "" {
      assert a + s == s && b + t == t;
    } else {
      LexOfParts(a[1..], b[1..], s, t);
      assert (a + s)[1..] == a[1..] + s && (b + t)[1..] == b[1..] + t;
      assert a == [a[0]] + a[1..] && b == [b[0]] + b[1..];
    }
  }

  /** Runs of digits of one length are ordered as the numbers they denote. */
  lemma {:induction false} LexOfDigits(a: string, b: string)
    requires |a| == |b| && AllDigits(a) && AllDigits(b)
    ensures LexLe(a, b) <==> Number(a) <= Number(b)
    ensures a == b <==> Number(a) == Number(b)
  {
    if a != "" {
      var n := |a| - 1;
      var x, y := a[..n], b[..n];
      LexOfDigits(x, y);
      LexOfParts(x, y, a[n..], b[n..]);
      assert a == x + a[n..] && b == y + b[n..] && a[n..] == [a[n]] && b[n..] == [b[n]];
      LexOfChars(a[n], b[n]);
    }
  }

  lemma LexOfChars(c: char, d: char)
    ensures LexLe([c], [d]) <==> c <= d
  {
    assert [c][1..] == "" && [d][1..] == "";
  }

  lemma LexOfDates(a: string, b: string)
    requires IsoShape(a) && IsoShape(b)
    ensures LexLe(a, b) <==> a == b || Dates.Before(CivilOf(a), CivilOf(b))
    ensures a == b <==> CivilOf(a) == CivilOf(b)
  {
    assert a == a[..4] + ("-" + (a[5..7] + ("-" + a[8..]))) && b == b[..4] + ("-" + (b[5..7] + ("-" + b[8..])));
    LexOfParts(a[..4], b[..4], "-" + (a[5..7] + ("-" + a[8..])), "-" + (b[5..7] + ("-" + b[8..])));
    LexOfParts("-", "-", a[5..7] + ("-" + a[8..]), b[5..7] + ("-" + b[8..]));
    LexOfParts(a[5..7], b[5..7], "-" + a[8..], "-" + b[8..]);
    LexOfParts("-", "-", a[8..], b[8..]);
    LexOfDigits(a[..4], b[..4]);
    LexOfDigits(a[5..7], b[5..7]);
    LexOfDigits(a[8..], b[8..]);
  }

  /** The order of dates as text is that of the days. */
  lemma DatesAreOrdered(a: string, b: string)
    requires IsDate(a) && IsDate(b)
    ensures LexLe(a, b) <==> DayOf(a) <= DayOf(b)
  {
    LexOfDates(a, b);
    Dates.DayNumbersAreOrdered(CivilOf(a), CivilOf(b));
    Dates.DayNumbersAreOrdered(CivilOf(b), CivilOf(a));
  }
}
