/** Text conventions of the TypeScript sources: trimming, and decimal numerals. */
module Text {
  predicate IsSpace(c: char) {
    '\t' <= c <= '\r' || c in " \U{A0}\U{1680}\U{2028}\U{2029}\U{202F}\U{205F}\U{3000}\U{FEFF}" || '\U{2000}' <= c <= '\U{200A}'
  }

  /** The spaces by code point: WhiteSpace and LineTerminator of sections 12.2 and 12.3 of ECMA-262. */
  lemma SpaceIff(c: char)
    ensures IsSpace(c) <==>
      || 9 <= c as int <= 13 || 8192 <= c as int <= 8202
      || c as int in {32, 160, 5760, 8232, 8233, 8239, 8287, 12288, 65279}
  {
    assert c in " \U{A0}\U{1680}\U{2028}\U{2029}\U{202F}\U{205F}\U{3000}\U{FEFF}" <==>
      c in {' ', '\U{A0}', '\U{1680}', '\U{2028}', '\U{2029}', '\U{202F}', '\U{205F}', '\U{3000}', '\U{FEFF}'};
  }

  function TrimStart<T>(s: seq<T>, space: T -> bool): seq<T> {
    if s != [] && space(s[0]) then TrimStart(s[1..], space) else s
  }

  function TrimEnd<T>(s: seq<T>, space: T -> bool): seq<T> {
    if s != [] && space(s[|s| - 1]) then TrimEnd(s[..|s| - 1], space) else s
  }

  function TrimBoth<T>(s: seq<T>, space: T -> bool): seq<T> {
    TrimEnd(TrimStart(s, space), space)
  }

  function Trim(s: string): string {
    TrimBoth(s, IsSpace)
  }

  ghost predicate All<T>(s: seq<T>, f: T -> bool) {
    forall i :: 0 <= i < |s| ==> f(s[i])
  }

  ghost predicate AllSpaces(s: string) {
    All(s, IsSpace)
  }

  /** No space at either end. */
  ghost predicate Bare<T>(s: seq<T>, space: T -> bool) {
    s != [] ==> !space(s[0]) && !space(s[|s| - 1])
  }

  lemma {:induction false} TrimStartSplits<T>(s: seq<T>, space: T -> bool) returns (a: seq<T>)
    ensures All(a, space) && s == a + TrimStart(s, space)
    ensures TrimStart(s, space) != [] ==> !space(TrimStart(s, space)[0])
  {
    a := [];
    if s != [] && space(s[0]) {
      a := TrimStartSplits(s[1..], space);
      a := [s[0]] + a;
      assert s == [s[0]] + s[1..];
    }
  }

  lemma {:induction false} TrimEndSplits<T>(s: seq<T>, space: T -> bool) returns (b: seq<T>)
    ensures All(b, space) && s == TrimEnd(s, space) + b
    ensures TrimEnd(s, space) != [] ==> !space(TrimEnd(s, space)[|TrimEnd(s, space)| - 1])
  {
    b := [];
    if s != [] && space(s[|s| - 1]) {
      b := TrimEndSplits(s[..|s| - 1], space);
      b := b + [s[|s| - 1]];
      assert s == s[..|s| - 1] + [s[|s| - 1]];
    }
  }

  lemma {:induction false} TrimStartOfSpaces<T>(a: seq<T>, s: seq<T>, space: T -> bool)
    requires All(a, space) && (s == [] || !space(s[0]))
    ensures TrimStart(a + s, space) == s
  {
    if a == [] {
      assert a + s == s;
    } else {
      assert (a + s)[1..] == a[1..] + s;
      TrimStartOfSpaces(a[1..], s, space);
    }
  }

  lemma {:induction false} TrimEndOfSpaces<T>(s: seq<T>, b: seq<T>, space: T -> bool)
    requires All(b, space) && (s == [] || !space(s[|s| - 1]))
    ensures TrimEnd(s + b, space) == s
  {
    if b == [] {
      assert s + b == s;
    } else {
      assert (s + b)[..|s + b| - 1] == s + b[..|b| - 1];
      TrimEndOfSpaces(s, b[..|b| - 1], space);
    }
  }

  /** Trimming gives what stands between the spaces at both ends. */
  lemma TrimBothIff<T(!new)>(t: seq<T>, m: seq<T>, space: T -> bool)
    requires Bare(m, space)
    ensures TrimBoth(t, space) == m <==> exists a, b :: All(a, space) && All(b, space) && t == a + m + b
  {
    var a := TrimStartSplits(t, space);
    var b := TrimEndSplits(TrimStart(t, space), space);
    assert t == a + TrimBoth(t, space) + b;
    forall x, y | All(x, space) && All(y, space) && t == x + m + y ensures TrimBoth(t, space) == m {
      if m == [] {
        assert t == (x + y) + [];
        TrimStartOfSpaces(x + y, [], space);
      } else {
        assert t == x + (m + y) && (m + y)[0] == m[0];
        TrimStartOfSpaces(x, m + y, space);
        TrimEndOfSpaces(m, y, space);
      }
    }
  }

  lemma TrimIff(t: string, m: string)
    requires m != "" && !IsSpace(m[0]) && !IsSpace(m[|m| - 1])
    ensures Trim(t) == m <==> exists a, b :: AllSpaces(a) && AllSpaces(b) && t == a + m + b
  {
    TrimBothIff(t, m, IsSpace);
    if a, b :| All(a, IsSpace) && All(b, IsSpace) && t == a + m + b { assert AllSpaces(a) && AllSpaces(b); }
  }

  /** What is left of trimming has no space at either end. */
  lemma TrimIsBare(t: string)
    ensures Trim(t) != "" ==> !IsSpace(Trim(t)[0]) && !IsSpace(Trim(t)[|Trim(t)| - 1])
  {
    var a := TrimStartSplits(t, IsSpace);
    var b := TrimEndSplits(TrimStart(t, IsSpace), IsSpace);
    if Trim(t) != "" { assert TrimStart(t, IsSpace)[0] == Trim(t)[0]; }
  }

  predicate IsDigit(c: char) {
    '0' <= c <= '9'
  }

  predicate AllDigits(s: string) {
    forall i :: 0 <= i < |s| ==> IsDigit(s[i])
  }

  function DigitValue(c: char): nat
    requires IsDigit(c)
  {
    c as int - '0' as int
  }

  function DigitChar(d: nat): char
    requires d < 10
  {
    '0' + d as char
  }

  /** The number a run of digits denotes. */
  function Number(s: string): nat
    requires AllDigits(s)
  {
    if s == "" then 0 else Number(s[..|s| - 1]) * 10 + DigitValue(s[|s| - 1])
  }

  function Numeral(n: nat): (s: string)
    ensures s != "" && AllDigits(s)
  {
    if n < 10 then [DigitChar(n)] else Numeral(n / 10) + [DigitChar(n % 10)]
  }

  function PadStart(s: string, width: nat): (r: string)
    ensures AllDigits(s) ==> AllDigits(r)
    decreases width - |s|
  {
    if |s| >= width then s else PadStart("0" + s, width)
  }

  lemma {:induction false} NumberOfNumeral(n: nat)
    ensures Number(Numeral(n)) == n
  {
    if n >= 10 { NumberOfNumeral(n / 10); }
  }

  lemma {:induction false} NumberOfLeadingZero(s: string)
    requires AllDigits(s)
    ensures Number("0" + s) == Number(s)
  {
    if s != "" {
      var t := "0" + s;
      assert t[..|t| - 1] == "0" + s[..|s| - 1];
      NumberOfLeadingZero(s[..|s| - 1]);
    }
  }

  lemma {:induction false} NumberOfPadded(s: string, width: nat)
    requires AllDigits(s)
    ensures Number(PadStart(s, width)) == Number(s)
    decreases width - |s|
  {
    if |s| < width {
      NumberOfLeadingZero(s);
      NumberOfPadded("0" + s, width);
    }
  }

  /** Two digits are the padded numeral of what they denote. */
  lemma TwoDigits(s: string)
    requires |s| == 2 && AllDigits(s)
    ensures Number(s) == DigitValue(s[0]) * 10 + DigitValue(s[1]) < 100
    ensures PadStart(Numeral(Number(s)), 2) == s
  {
    var front := s[..1];
    assert front[..0] == "" && Number(front) == DigitValue(s[0]);
    var n := Number(s);
    assert n == DigitValue(s[0]) * 10 + DigitValue(s[1]);
    assert n / 10 == DigitValue(s[0]) && n % 10 == DigitValue(s[1]);
    if n < 10 { assert PadStart([DigitChar(n)], 2) == "0" + [DigitChar(n)]; }
  }

  lemma NumeralBelow100(n: nat)
    requires n < 100
    ensures |PadStart(Numeral(n), 2)| == 2
  {
  }

  lemma {:induction false} NumeralIsCanonical(s: string)
    requires AllDigits(s) && s != "" && (|s| > 1 ==> s[0] != '0')
    ensures Numeral(Number(s)) == s
    ensures |s| > 1 ==> Number(s) >= 10
  {
    if |s| == 1 {
      assert s[..0] == "" && s == [s[0]];
    } else {
      var front := s[..|s| - 1];
      NumeralIsCanonical(front);
      if |front| == 1 { assert front[..0] == "" && Number(front) == DigitValue(front[0]); }
      assert Number(front) >= 1;
      assert s == front + [s[|s| - 1]];
    }
  }
}
