/**
 * Worksheet names (packages/excel/src/sheets.ts), as UTF-16 code units. Names are compared after
 * lower-casing, which is a parameter; all that is asked of it is that it leaves a suffix such as
 * " (2)" alone.
 */
module Sheets {
  import opened Wrappers
  import opened Text

  const MaxLength := 31
  const LastSuffix := 9999

  newtype Unit = u: int | 0 <= u < 0x1_0000

  type Name = seq<Unit>

  predicate Basic(s: string) {
    forall i :: 0 <= i < |s| ==> s[i] < '\U{10000}'
  }

  /** The code units of a text in the basic plane. */
  function Units(s: string): (r: Name)
    requires Basic(s)
    ensures |r| == |s| && forall i :: 0 <= i < |r| ==> r[i] as int == s[i] as int
  {
    seq(|s|, i requires 0 <= i < |s| => s[i] as int as Unit)
  }

  /** A surrogate is not a space. */
  predicate Space(c: Unit) {
    !(0xD800 <= c < 0xE000) && IsSpace(c as int as char)
  }

  function Trimmed(s: Name): Name {
    TrimBoth(s, Space)
  }

  lemma TrimOfTrimmed(s: Name)
    requires s == [] || (!Space(s[0]) && !Space(s[|s| - 1]))
    ensures Trimmed(s) == s
  {
  }

  predicate Forbidden(c: Unit) {
    c in Units("\\/*?:[]")
  }

  function Cleaned(s: Name): (r: Name)
    ensures |r| == |s| && forall i :: 0 <= i < |r| ==> !Forbidden(r[i])
  {
    if s == [] then [] else [if Forbidden(s[0]) then '-' as int as Unit else s[0]] + Cleaned(s[1..])
  }

  function Cut(s: Name, n: nat): Name {
    if |s| <= n then s else s[..n]
  }

  /** The name a sheet asks for. */
  function Base(value: Name): Name {
    var base := Cut(Cleaned(Trimmed(value)), MaxLength);
    if base == [] then Units("Sheet") else base
  }

  function Suffix(digits: string): (r: Name)
    requires AllDigits(digits)
    ensures |r| == |digits| + 3
  {
    Units(" (" + digits + ")")
  }

  /** What may not be in a sheet's name: \\ / * ? : [ and ]. */
  ghost predicate IsForbidden(c: Unit) {
    c as int in {92, 47, 42, 63, 58, 91, 93}
  }

  /** The name a sheet gets for `wanted`, which stands between spaces: cut, with a dash for what is forbidden. */
  ghost predicate Wanted(wanted: Name, name: Name) {
    if wanted == [] then |name| == 5 && name[0] == 83 && name[1] == 104 && name[2] == 101 && name[3] == 101 && name[4] == 116
    else
      && |name| == (if |wanted| < 31 then |wanted| else 31)
      && forall i :: 0 <= i < |name| ==> name[i] == if IsForbidden(wanted[i]) then 45 else wanted[i]
  }

  lemma ForbiddenIff(c: Unit)
    ensures Forbidden(c) <==> IsForbidden(c)
  {
    var s := "\\/*?:[]";
    assert Units(s)[0] == 92 && Units(s)[1] == 47 && Units(s)[2] == 42 && Units(s)[3] == 63;
    assert Units(s)[4] == 58 && Units(s)[5] == 91 && Units(s)[6] == 93;
  }

  lemma {:induction false} CleanedAt(s: Name, i: nat)
    requires i < |s|
    ensures Cleaned(s)[i] == if IsForbidden(s[i]) then 45 else s[i]
  {
    ForbiddenIff(s[0]);
    if i > 0 { CleanedAt(s[1..], i - 1); }
  }

  /** The name that a sheet asks for is what it is given without the spaces around it, cut and cleaned. */
  lemma BaseIs(a: Name, wanted: Name, b: Name)
    requires All(a, Space) && All(b, Space) && Bare(wanted, Space)
    ensures Wanted(wanted, Base(a + wanted + b))
  {
    TrimBothIff(a + wanted + b, wanted, Space);
    forall i | 0 <= i < |wanted| ensures Cleaned(wanted)[i] == if IsForbidden(wanted[i]) then 45 else wanted[i] {
      CleanedAt(wanted, i);
    }
  }

  function Tail(n: nat): Name {
    Suffix(Numeral(n))
  }

  /** The name with a number after it, cut so that both fit. */
  function Candidate(base: Name, n: nat): Name
    requires 2 <= n <= LastSuffix
  {
    NumeralLength(n);
    Cut(base, MaxLength - |Numeral(n)| - 3) + Tail(n)
  }

  lemma NumeralLength(n: nat)
    requires n <= LastSuffix
    ensures |Numeral(n)| <= 4
  {
    assert |Numeral(n / 10 / 10 / 10)| == 1;
    assert |Numeral(n / 10 / 10)| <= 2;
    assert |Numeral(n / 10)| <= 3;
  }

  ghost predicate KeepsTails(lower: Name -> Name) {
    forall s: Name, n: nat {:trigger lower(s + Tail(n))} :: lower(s + Tail(n)) == lower(s) + Tail(n)
  }

  function Folded(names: seq<Name>, lower: Name -> Name): set<Name> {
    set name | name in names :: lower(name)
  }

  /** What every sheet name must be. */
  predicate Legal(name: Name) {
    0 < |name| <= MaxLength && forall i :: 0 <= i < |name| ==> !Forbidden(name[i])
  }

  lemma BaseIsLegal(value: Name)
    ensures Legal(Base(value))
  {
  }

  lemma CandidateIsLegal(base: Name, n: nat)
    requires Legal(base) && 2 <= n <= LastSuffix
    ensures Legal(Candidate(base, n)) && Tail(n) <= Candidate(base, n)[|Candidate(base, n)| - |Tail(n)|..]
  {
    NumeralLength(n);
    SuffixIsLegal(Numeral(n));
  }

  lemma SuffixIsLegal(digits: string)
    requires AllDigits(digits)
    ensures forall i :: 0 <= i < |Suffix(digits)| ==> !Forbidden(Suffix(digits)[i])
  {
    forall i | 0 <= i < |Suffix(digits)| ensures !Forbidden(Suffix(digits)[i]) {
      if 2 <= i < |digits| + 2 { DigitAt(digits, i - 2); }
    }
  }

  lemma DigitAt(digits: string, i: nat)
    requires AllDigits(digits) && i < |digits|
    ensures Suffix(digits)[i + 2] as int == digits[i] as int && '0' as int <= Suffix(digits)[i + 2] as int <= '9' as int
  {
    assert (" (" + digits + ")")[i + 2] == digits[i] && IsDigit(digits[i]);
  }

  lemma NotLonger(a: Name, x: string, b: Name, y: string)
    requires AllDigits(x) && AllDigits(y) && a + Suffix(x) == b + Suffix(y)
    ensures |y| <= |x|
  {
    var p := |a| + 1;
    assert (a + Suffix(x))[p] == Suffix(x)[1];
    if |y| > |x| {
      assert (b + Suffix(y))[p] == Suffix(y)[p - |b|];
      DigitAt(y, p - |b| - 2);
    }
  }

  lemma SuffixIsInjective(x: string, y: string)
    requires AllDigits(x) && AllDigits(y) && Suffix(x) == Suffix(y)
    ensures x == y
  {
    forall i | 0 <= i < |x| ensures x[i] == y[i] {
      DigitAt(x, i);
      DigitAt(y, i);
    }
  }

  /** The number in a suffix can be read back, whatever comes before it. */
  lemma TailsAreDistinct(a: Name, m: nat, b: Name, n: nat)
    requires a + Tail(m) == b + Tail(n)
    ensures m == n
  {
    NotLonger(a, Numeral(m), b, Numeral(n));
    NotLonger(b, Numeral(n), a, Numeral(m));
    assert Tail(m) == (a + Tail(m))[|a|..] && Tail(n) == (b + Tail(n))[|b|..];
    SuffixIsInjective(Numeral(m), Numeral(n));
    NumberOfNumeral(m);
    NumberOfNumeral(n);
  }

  /** Different suffixes give names that differ, ignoring case. */
  lemma CandidatesAreDistinct(base: Name, m: nat, n: nat, lower: Name -> Name)
    requires KeepsTails(lower) && 2 <= m <= LastSuffix && 2 <= n <= LastSuffix && m != n
    ensures lower(Candidate(base, m)) != lower(Candidate(base, n))
  {
    NumeralLength(m);
    NumeralLength(n);
    var a, b := Cut(base, MaxLength - |Numeral(m)| - 3), Cut(base, MaxLength - |Numeral(n)| - 3);
    if lower(a + Tail(m)) == lower(b + Tail(n)) {
      TailsAreDistinct(lower(a), m, lower(b), n);
    }
  }

  predicate Taken(base: Name, n: nat, used: set<Name>, lower: Name -> Name)
    requires 2 <= n <= LastSuffix
  {
    lower(Candidate(base, n)) in used
  }

  /** As many names are used as suffixes are taken. */
  lemma {:induction false} TakenSuffixesNeedNames(base: Name, n: nat, used: set<Name>, lower: Name -> Name)
    requires KeepsTails(lower) && 1 <= n <= LastSuffix
    requires forall k :: 2 <= k <= n ==> Taken(base, k, used, lower)
    ensures |used| >= n - 1
  {
    if n >= 2 {
      var last := lower(Candidate(base, n));
      assert Taken(base, n, used, lower);
      forall k | 2 <= k <= n - 1 ensures Taken(base, k, used - {last}, lower) {
        assert Taken(base, k, used, lower);
        CandidatesAreDistinct(base, k, n, lower);
      }
      TakenSuffixesNeedNames(base, n - 1, used - {last}, lower);
    }
  }

  lemma {:induction false} FoldedIsNoLarger(names: seq<Name>, lower: Name -> Name)
    ensures |Folded(names, lower)| <= |names|
  {
    if names == [] {
      assert Folded(names, lower) == {};
    } else {
      var front := names[..|names| - 1];
      assert names == front + [names[|names| - 1]];
      FoldedIsNoLarger(front, lower);
      assert Folded(names, lower) == Folded(front, lower) + {lower(names[|names| - 1])};
    }
  }

  /** What safeWorksheetName gives: the base, or its least free numbering, or nothing. */
  ghost predicate IsSafeName(value: Name, existing: seq<Name>, lower: Name -> Name, r: Option<Name>) {
    var base, used := Base(value), Folded(existing, lower);
    if lower(base) !in used then r == Some(base)
    else if exists n :: 2 <= n <= LastSuffix && !Taken(base, n, used, lower) then
      exists n :: 2 <= n <= LastSuffix && !Taken(base, n, used, lower) && r == Some(Candidate(base, n)) &&
        forall k :: 2 <= k < n ==> Taken(base, k, used, lower)
    else r == None
  }

  /** safeWorksheetName */
  method SafeWorksheetName(value: Name, existing: seq<Name>, lower: Name -> Name) returns (r: Option<Name>)
    ensures IsSafeName(value, existing, lower, r)
  {
    var base, used := Base(value), Folded(existing, lower);
    if lower(base) !in used { return Some(base); }
    for suffix := 2 to LastSuffix + 1
      invariant forall k :: 2 <= k < suffix ==> Taken(base, k, used, lower)
    {
      var candidate := Candidate(base, suffix);
      if lower(candidate) !in used {
        assert !Taken(base, suffix, used, lower);
        return Some(candidate);
      }
    }
    return None;
  }

  /** A name that is given is legal and new, and one is always given while fewer than 9,998 names are used. */
  lemma SafeNameProperties(value: Name, existing: seq<Name>, lower: Name -> Name, r: Option<Name>)
    requires KeepsTails(lower) && IsSafeName(value, existing, lower, r)
    ensures r.Some? ==> Legal(r.value) && lower(r.value) !in Folded(existing, lower)
    ensures |Folded(existing, lower)| < LastSuffix - 1 ==> r.Some?
    ensures |existing| < LastSuffix - 1 ==> r.Some?
  {
    var base, used := Base(value), Folded(existing, lower);
    BaseIsLegal(value);
    FoldedIsNoLarger(existing, lower);
    if r.None? {
      TakenSuffixesNeedNames(base, LastSuffix, used, lower);
    } else if lower(base) in used {
      var n :| 2 <= n <= LastSuffix && !Taken(base, n, used, lower) && r == Some(Candidate(base, n));
      CandidateIsLegal(base, n);
    }
  }

  /** A legal name with no blank around it that no sheet has yet is kept as it is. */
  lemma FineNameIsKept(value: Name, existing: seq<Name>, lower: Name -> Name, r: Option<Name>)
    requires Legal(value) && Trimmed(value) == value && lower(value) !in Folded(existing, lower)
    requires IsSafeName(value, existing, lower, r)
    ensures r == Some(value)
  {
    CleanedOfLegal(value);
  }

  lemma {:induction false} CleanedOfLegal(s: Name)
    requires forall i :: 0 <= i < |s| ==> !Forbidden(s[i])
    ensures Cleaned(s) == s
  {
    if s != [] {
      CleanedOfLegal(s[1..]);
      assert s == [s[0]] + s[1..];
    }
  }

  // ----- The bound is exact -----

  /** The names "<stem> (2)" to "<stem> (n)" for a stem. */
  function Numbered(base: Name, n: nat): (r: seq<Name>)
    requires 1 <= n <= LastSuffix
    ensures |r| == n - 1
  {
    if n == 1 then [] else Numbered(base, n - 1) + [Candidate(base, n)]
  }

  lemma {:induction false} NumberedHolds(base: Name, n: nat, k: nat)
    requires 2 <= k <= n <= LastSuffix
    ensures Candidate(base, k) in Numbered(base, n)
  {
    if k < n { NumberedHolds(base, n - 1, k); }
  }

  lemma LongBase() returns (base: Name)
    ensures Base(base) == base == Candidate(base, 2)
  {
    var stem: Name := seq(27, i => 'a' as int as Unit);
    base := stem + Tail(2);
    assert Numeral(2) == "2";
    assert Candidate(base, 2) == base[..27] + Tail(2) && base[..27] == stem;
    SuffixIsLegal("2");
    assert Legal(base);
    TrimOfTrimmed(base);
    CleanedOfLegal(base);
  }

  /** 9,998 names can be used so that no name is left: the bound cannot be raised. */
  lemma BoundIsExact(lower: Name -> Name)
    returns (value: Name, existing: seq<Name>)
    ensures |existing| == LastSuffix - 1 && IsSafeName(value, existing, lower, None)
  {
    value := LongBase();
    existing := Numbered(value, LastSuffix);
    forall k | 2 <= k <= LastSuffix ensures Taken(value, k, Folded(existing, lower), lower) {
      NumberedHolds(value, LastSuffix, k);
    }
    assert Taken(value, 2, Folded(existing, lower), lower);
  }

  // ----- The workbook -----

  /** Every name is legal, and no two are the same when case is ignored. */
  ghost predicate LegalNames(names: seq<Name>, lower: Name -> Name) {
    (forall i :: 0 <= i < |names| ==> Legal(names[i])) &&
    forall i, j :: 0 <= i < j < |names| ==> lower(names[i]) != lower(names[j])
  }

  /** What adding one sheet does. */
  ghost predicate Adds(before: seq<Name>, name: Name, after: seq<Name>, lower: Name -> Name) {
    (after == before && IsSafeName(name, before, lower, None)) ||
    (exists safe :: after == before + [safe] && IsSafeName(name, before, lower, Some(safe)))
  }

  lemma AddingKeepsNamesLegal(before: seq<Name>, name: Name, after: seq<Name>, lower: Name -> Name)
    requires KeepsTails(lower) && LegalNames(before, lower) && Adds(before, name, after, lower)
    ensures LegalNames(after, lower)
    ensures after == before ==> |before| >= LastSuffix - 1
  {
    if after == before {
      SafeNameProperties(name, before, lower, None);
    } else {
      var safe :| after == before + [safe] && IsSafeName(name, before, lower, Some(safe));
      SafeNameProperties(name, before, lower, Some(safe));
      forall i | 0 <= i < |before| ensures lower(before[i]) != lower(safe) {
        assert before[i] in before && lower(before[i]) in Folded(before, lower);
      }
    }
  }

  /** Adding sheets one after another to a new workbook. */
  ghost predicate IsRun(wanted: seq<Name>, states: seq<seq<Name>>, lower: Name -> Name) {
    |states| == |wanted| + 1 && states[0] == [] &&
    forall i :: 0 <= i < |wanted| ==> Adds(states[i], wanted[i], states[i + 1], lower)
  }

  /** After every addition the names are legal and distinct, and none of the first 9,998 additions fails. */
  lemma {:induction false} RunsKeepNamesDistinct(wanted: seq<Name>, states: seq<seq<Name>>, lower: Name -> Name, n: nat)
    requires KeepsTails(lower) && IsRun(wanted, states, lower) && n <= |wanted|
    ensures LegalNames(states[n], lower)
    ensures if n < LastSuffix then |states[n]| == n else |states[n]| >= LastSuffix - 1
  {
    if n > 0 {
      RunsKeepNamesDistinct(wanted, states, lower, n - 1);
      assert Adds(states[n - 1], wanted[n - 1], states[n], lower);
      AddingKeepsNamesLegal(states[n - 1], wanted[n - 1], states[n], lower);
    }
  }

  class Workbook {
    const lower: Name -> Name
    var names: seq<Name>

    constructor (lower: Name -> Name)
      ensures this.lower == lower && names == []
    {
      this.lower := lower;
      names := [];
    }

    /** addWorksheet */
    method AddWorksheet(name: Name) returns (added: bool)
      requires KeepsTails(lower) && LegalNames(names, lower)
      modifies this`names
      ensures LegalNames(names, lower) && Adds(old(names), name, names, lower)
      ensures added <==> |names| == |old(names)| + 1
      ensures !added ==> names == old(names) && |names| >= LastSuffix - 1
    {
      var safe := SafeWorksheetName(name, names, lower);
      if safe.Some? { names := names + [safe.value]; }
      AddingKeepsNamesLegal(old(names), name, names, lower);
      return safe.Some?;
    }
  }
}
