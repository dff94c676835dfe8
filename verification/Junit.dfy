/**
 * Counting JUnit results from parser events (e2e/helpers/junit-counts.ts). The reader keeps a
 * stack of open elements; its meaning is a recursion over the document tree.
 */
module Junit {
  import opened Wrappers
  import opened Text

  datatype Tag = Tag(uri: string, local: string, attributes: map<string, string>)

  /** Elements and their following siblings. */
  datatype Forest = Nil | Element(tag: Tag, children: Forest, siblings: Forest)

  datatype Event = Open(tag: Tag) | Close

  datatype Case = Case(name: string, failed: bool)
  datatype Suite = Suite(total: int, failed: int, skipped: int, cases: seq<Case>)

  /** An open element, with the suite it belongs to and, for a test case of that suite, its position. */
  datatype Entry = Entry(name: string, suite: Option<nat>, case_: Option<nat>)

  function Name(tag: Tag): string {
    if tag.uri != "" then "{" + tag.uri + "}" + tag.local else tag.local
  }

  /** Only elements outside every namespace have plain names. */
  lemma NameIff(tag: Tag, plain: string)
    requires plain != "" && plain[0] != '{'
    ensures Name(tag) == plain <==> tag.uri == "" && tag.local == plain
    ensures tag.uri != "" ==> Name(tag) == "{" + tag.uri + "}" + tag.local
  {
  }

  /** An integer attribute; absent means zero. None stands for the thrown error. */
  function CountOf(tag: Tag, key: string): Option<int> {
    IntegerOf(Trim(if key in tag.attributes then tag.attributes[key] else "0"))
  }

  function IntegerOf(text: string): Option<int> {
    var digits := if text != "" && text[0] in "+-" then text[1..] else text;
    if digits == "" || !AllDigits(digits) then None
    else Some(if text[0] == '-' then 0 - Number(digits) else Number(digits))
  }

  function SuiteCounts(tag: Tag): Option<Suite> {
    SuiteWith(CountOf(tag, "tests"), CountOf(tag, "failures"), CountOf(tag, "errors"), CountOf(tag, "skipped"))
  }

  function SuiteWith(tests: Option<int>, failures: Option<int>, errors: Option<int>, skipped: Option<int>): Option<Suite> {
    if tests.None? || failures.None? || errors.None? || skipped.None? then None
    else Some(Suite(tests.value, failures.value + errors.value, skipped.value, []))
  }

  function CaseName(tag: Tag): string {
    if "name" in tag.attributes then tag.attributes["name"] else "unknown"
  }

  predicate IsFailure(tag: Tag) {
    Name(tag) in ["failure", "error"]
  }

  // ---------- the tree meaning ----------

  predicate FailsDirectly(f: Forest) {
    f.Element? && (IsFailure(f.tag) || FailsDirectly(f.siblings))
  }

  /** Every test case at any depth, in document order. */
  function CasesIn(f: Forest): seq<Case> {
    match f
    case Nil => []
    case Element(tag, children, siblings) =>
      (if Name(tag) == "testcase" then [Case(CaseName(tag), FailsDirectly(children))] else [])
      + CasesIn(children) + CasesIn(siblings)
  }

  function SuiteOf(tag: Tag, children: Forest): Option<Suite> {
    match SuiteCounts(tag)
    case None => None
    case Some(s) => Some(s.(cases := CasesIn(children)))
  }

  /** The suites among sibling elements; anything else there is passed over. */
  function SuitesAmong(f: Forest): Option<seq<Suite>> {
    match f
    case Nil => Some([])
    case Element(tag, children, siblings) =>
      if Name(tag) != "testsuite" then SuitesAmong(siblings)
      else
        var first := SuiteOf(tag, children);
        if first.None? then None
        else
          match SuitesAmong(siblings)
          case None => None
          case Some(others) => Some([first.value] + others)
  }

  /** Only the root and, below another root, its children count as suites. */
  function DocumentSuites(root: Tag, children: Forest): Option<seq<Suite>> {
    if Name(root) != "testsuite" then SuitesAmong(children)
    else
      match SuiteOf(root, children)
      case None => None
      case Some(s) => Some([s])
  }

  datatype Counts = Counts(passed: int, failed: int, skipped: int, failures: seq<string>)

  function FailedNames(cases: seq<Case>): seq<string> {
    if cases == [] then [] else (if cases[0].failed then [cases[0].name] else []) + FailedNames(cases[1..])
  }

  /** The totals over all suites, and the names of the failed cases in order. */
  function Summary(suites: seq<Suite>): Counts {
    if suites == [] then Counts(0, 0, 0, [])
    else
      var s, rest := suites[0], Summary(suites[1..]);
      Counts(s.total - s.failed - s.skipped + rest.passed, s.failed + rest.failed, s.skipped + rest.skipped,
             FailedNames(s.cases) + rest.failures)
  }

  // ---------- what is counted ----------

  /** The integer that an attribute denotes: decimal digits with an optional sign and spaces around; absent is zero. */
  ghost predicate Counted(tag: Tag, key: string, n: int) {
    if key !in tag.attributes then n == 0
    else exists a, sign, digits, b ::
      && AllSpaces(a) && AllSpaces(b) && sign in {"", "+", "-"} && digits != "" && AllDigits(digits)
      && tag.attributes[key] == a + (sign + digits) + b && n == if sign == "-" then 0 - Number(digits) else Number(digits)
  }

  lemma CountIff(tag: Tag, key: string, n: int)
    ensures CountOf(tag, key) == Some(n) <==> Counted(tag, key, n)
  {
    if key in tag.attributes {
      var t := tag.attributes[key];
      if CountOf(tag, key) == Some(n) { CountIsDenoted(t, n); }
      forall a, sign, digits, b | AllSpaces(a) && AllSpaces(b) && sign in {"", "+", "-"} && digits != "" && AllDigits(digits)
          && t == a + (sign + digits) + b
        ensures IntegerOf(Trim(t)) == Some(if sign == "-" then 0 - Number(digits) else Number(digits))
      {
        SignedInteger(sign, digits);
        TrimIff(t, sign + digits);
      }
    } else {
      ZeroCounts();
    }
  }

  lemma ZeroCounts()
    ensures IntegerOf(Trim("0")) == Some(0)
  {
    assert "0" == "" + "0" + "" && !IsSpace('0');
    TrimIff("0", "0");
    assert "0"[..0] == "";
  }

  lemma SignedInteger(sign: string, digits: string)
    requires sign in {"", "+", "-"} && digits != "" && AllDigits(digits)
    ensures var m := sign + digits;
      && !IsSpace(m[0]) && !IsSpace(m[|m| - 1])
      && IntegerOf(m) == Some(if sign == "-" then 0 - Number(digits) else Number(digits))
  {
    var m := sign + digits;
    assert IsDigit(digits[0]) && IsDigit(digits[|digits| - 1]) && m[|m| - 1] == digits[|digits| - 1];
    assert if sign == "" then m == digits else m[0] == sign[0] && m[1..] == digits;
  }

  lemma CountIsDenoted(t: string, n: int)
    requires IntegerOf(Trim(t)) == Some(n)
    ensures exists a, sign, digits, b ::
      && AllSpaces(a) && AllSpaces(b) && sign in {"", "+", "-"} && digits != "" && AllDigits(digits)
      && t == a + (sign + digits) + b && n == if sign == "-" then 0 - Number(digits) else Number(digits)
  {
    var m := Trim(t);
    TrimIsBare(t);
    TrimIff(t, m);
    var a, b :| AllSpaces(a) && AllSpaces(b) && t == a + m + b;
    var sign, digits := if m[0] in "+-" then [m[0]] else "", if m[0] in "+-" then m[1..] else m;
    assert m == sign + digits;
  }

  /**
   * A suite is counted exactly when its four attributes are integers: its tests, its failures and
   * errors together, and its skipped tests.
   */
  lemma SuiteIff(tag: Tag, children: Forest, s: Suite)
    ensures SuiteOf(tag, children) == Some(s) <==>
      && s.cases == CasesIn(children)
      && Counted(tag, "tests", s.total) && Counted(tag, "skipped", s.skipped)
      && exists errors :: Counted(tag, "errors", errors) && Counted(tag, "failures", s.failed - errors)
  {
    CountIff(tag, "tests", s.total);
    CountIff(tag, "skipped", s.skipped);
    SumIff(tag, "errors", "failures", s.failed);
    SuiteFromCounts(tag, children, s);
  }

  lemma SumIff(tag: Tag, key: string, other: string, n: int)
    ensures (exists m :: Counted(tag, key, m) && Counted(tag, other, n - m)) <==>
      CountOf(tag, key).Some? && CountOf(tag, other) == Some(n - CountOf(tag, key).value)
  {
    forall m ensures Counted(tag, key, m) <==> CountOf(tag, key) == Some(m) { CountIff(tag, key, m); }
    forall m ensures Counted(tag, other, m) <==> CountOf(tag, other) == Some(m) { CountIff(tag, other, m); }
    SumOfTwo(m => Counted(tag, key, m), m => Counted(tag, other, m), CountOf(tag, key), CountOf(tag, other), n);
  }

  lemma SumOfTwo(p: int -> bool, q: int -> bool, a: Option<int>, b: Option<int>, n: int)
    requires forall m :: (p(m) <==> a == Some(m)) && (q(m) <==> b == Some(m))
    ensures (exists m :: p(m) && q(n - m)) <==> a.Some? && b == Some(n - a.value)
  {
    if a.Some? && b == Some(n - a.value) { assert p(a.value) && q(n - a.value); }
  }

  lemma SuiteFromCounts(tag: Tag, children: Forest, s: Suite)
    ensures SuiteOf(tag, children) == Some(s) <==>
      && s.cases == CasesIn(children)
      && CountOf(tag, "tests") == Some(s.total) && CountOf(tag, "skipped") == Some(s.skipped)
      && CountOf(tag, "errors").Some? && CountOf(tag, "failures") == Some(s.failed - CountOf(tag, "errors").value)
  {
    SuiteWithIff(CountOf(tag, "tests"), CountOf(tag, "failures"), CountOf(tag, "errors"), CountOf(tag, "skipped"), s);
    SuiteHasCases(tag, children, SuiteCounts(tag), s);
  }

  lemma SuiteWithIff(tests: Option<int>, failures: Option<int>, errors: Option<int>, skipped: Option<int>, s: Suite)
    ensures SuiteWith(tests, failures, errors, skipped) == Some(s.(cases := [])) <==>
      && tests == Some(s.total) && skipped == Some(s.skipped)
      && errors.Some? && failures == Some(s.failed - errors.value)
    ensures SuiteWith(tests, failures, errors, skipped).Some? ==> SuiteWith(tests, failures, errors, skipped).value.cases == []
  {
  }

  lemma SuiteHasCases(tag: Tag, children: Forest, counts: Option<Suite>, s: Suite)
    requires counts == SuiteCounts(tag) && (counts.Some? ==> counts.value.cases == [])
    ensures SuiteOf(tag, children) == Some(s) <==> s.cases == CasesIn(children) && counts == Some(s.(cases := []))
  {
  }

  function Sum(suites: seq<Suite>, f: Suite -> int): int {
    if suites == [] then 0 else f(suites[0]) + Sum(suites[1..], f)
  }

  /** Every case of every suite, in order. */
  function AllCases(suites: seq<Suite>): seq<Case> {
    if suites == [] then [] else suites[0].cases + AllCases(suites[1..])
  }

  lemma {:induction false} FailedNamesConcat(a: seq<Case>, b: seq<Case>)
    ensures FailedNames(a + b) == FailedNames(a) + FailedNames(b)
  {
    if a == [] {
      assert a + b == b;
    } else {
      assert (a + b)[1..] == a[1..] + b;
      FailedNamesConcat(a[1..], b);
    }
  }

  /** Passed, failed and skipped tests add up to all tests, and a case is named exactly if it failed, in document order. */
  lemma {:induction false} CountsAddUp(suites: seq<Suite>)
    ensures var c := Summary(suites);
      && c.passed + c.failed + c.skipped == Sum(suites, (s: Suite) => s.total)
      && c.failed == Sum(suites, (s: Suite) => s.failed) && c.skipped == Sum(suites, (s: Suite) => s.skipped)
      && c.failures == FailedNames(AllCases(suites))
  {
    if suites != [] {
      CountsAddUp(suites[1..]);
      FailedNamesConcat(suites[0].cases, AllCases(suites[1..]));
    }
  }

  // ---------- the reader's steps ----------

  datatype Reading = Reading(suites: seq<Suite>, stack: seq<Entry>)

  /** Suite and case positions on the stack are positions in the suite list. */
  ghost predicate WellFormed(r: Reading) {
    forall i :: 0 <= i < |r.stack| ==>
      (r.stack[i].suite.Some? ==> r.stack[i].suite.value < |r.suites|) &&
      (r.stack[i].case_.Some? ==> r.stack[i].suite.Some? && r.stack[i].case_.value < |r.suites[r.stack[i].suite.value].cases|)
  }

  predicate StartsSuite(r: Reading, tag: Tag) {
    Name(tag) == "testsuite" &&
    (|r.stack| == 0 || (|r.stack| == 1 && r.stack[0].name != "testsuite"))
  }

  function AddCase(suites: seq<Suite>, at: nat, c: Case): seq<Suite>
    requires at < |suites|
  {
    suites[at := suites[at].(cases := suites[at].cases + [c])]
  }

  function FailCase(suites: seq<Suite>, at: nat, c: nat): seq<Suite>
    requires at < |suites| && c < |suites[at].cases|
  {
    suites[at := suites[at].(cases := suites[at].cases[c := suites[at].cases[c].(failed := true)])]
  }

  function OpenStep(r: Reading, tag: Tag): (q: Option<Reading>)
    requires WellFormed(r)
    ensures q.Some? ==> WellFormed(q.value) && |q.value.stack| == |r.stack| + 1
  {
    var starts := StartsSuite(r, tag);
    var counted := SuiteCounts(tag);
    if starts && counted.None? then None
    else
      var suites := if starts then r.suites + [counted.value] else r.suites;
      var parent := if r.stack == [] then Entry("", None, None) else r.stack[|r.stack| - 1];
      var suite := if starts then Some(|r.suites|) else parent.suite;
      if Name(tag) == "testcase" && suite.Some? then
        Some(Reading(AddCase(suites, suite.value, Case(CaseName(tag), false)),
                     r.stack + [Entry(Name(tag), suite, Some(|suites[suite.value].cases|))]))
      else
        var marked := if IsFailure(tag) && parent.name == "testcase" && parent.case_.Some?
                      then FailCase(suites, parent.suite.value, parent.case_.value) else suites;
        Some(Reading(marked, r.stack + [Entry(Name(tag), suite, None)]))
  }

  function CloseStep(r: Reading): (q: Reading)
    ensures WellFormed(r) ==> WellFormed(q)
  {
    if r.stack == [] then r else r.(stack := r.stack[..|r.stack| - 1])
  }

  function Run(events: seq<Event>, r: Reading): (q: Option<Reading>)
    requires WellFormed(r)
    ensures q.Some? ==> WellFormed(q.value)
    decreases |events|
  {
    if events == [] then Some(r)
    else match events[0]
      case Close => Run(events[1..], CloseStep(r))
      case Open(tag) =>
        match OpenStep(r, tag)
        case None => None
        case Some(q) => Run(events[1..], q)
  }

  function Events(f: Forest): seq<Event> {
    match f
    case Nil => []
    case Element(tag, children, siblings) => [Open(tag)] + Events(children) + [Close] + Events(siblings)
  }

  // ---------- walking a document ----------

  lemma {:induction false} RunConcat(first: seq<Event>, second: seq<Event>, r: Reading)
    requires WellFormed(r)
    ensures Run(first + second, r) == match Run(first, r) case None => None case Some(q) => Run(second, q)
    decreases |first|
  {
    if first == [] {
      assert first + second == second;
    } else {
      assert (first + second)[1..] == first[1..] + second;
      match first[0]
      case Close => RunConcat(first[1..], second, CloseStep(r));
      case Open(tag) =>
        if OpenStep(r, tag).Some? { RunConcat(first[1..], second, OpenStep(r, tag).value); }
    }
  }

  lemma RunOpen(tag: Tag, events: seq<Event>, r: Reading)
    requires WellFormed(r)
    ensures Run([Open(tag)] + events, r) == match OpenStep(r, tag) case None => None case Some(q) => Run(events, q)
  {
    assert ([Open(tag)] + events)[1..] == events;
  }

  lemma RunClose(events: seq<Event>, r: Reading)
    requires WellFormed(r)
    ensures Run([Close] + events, r) == Run(events, CloseStep(r))
  {
    assert ([Close] + events)[1..] == events;
  }

  /** An element is its opening, its children, and what follows with the stack as before. */
  lemma RunElement(f: Forest, r: Reading)
    requires WellFormed(r) && f.Element?
    ensures OpenStep(r, f.tag).None? ==> Run(Events(f), r).None?
    ensures OpenStep(r, f.tag).Some? ==>
      var inner := Run(Events(f.children), OpenStep(r, f.tag).value);
      Run(Events(f), r) == if inner.None? then None else Run(Events(f.siblings), CloseStep(inner.value))
  {
    EventsOfElement(f);
    RunOpen(f.tag, Events(f.children) + ([Close] + Events(f.siblings)), r);
    if OpenStep(r, f.tag).Some? { RunBetween(Events(f.children), Events(f.siblings), OpenStep(r, f.tag).value); }
  }

  lemma EventsOfElement(f: Forest)
    requires f.Element?
    ensures Events(f) == [Open(f.tag)] + (Events(f.children) + ([Close] + Events(f.siblings)))
  {
  }

  /** What is inside an element, its end, and what follows it. */
  lemma RunBetween(inside: seq<Event>, following: seq<Event>, q: Reading)
    requires WellFormed(q)
    ensures var inner := Run(inside, q);
      Run(inside + ([Close] + following), q) == if inner.None? then None else Run(following, CloseStep(inner.value))
  {
    RunConcat(inside, [Close] + following, q);
    if Run(inside, q).Some? { RunClose(following, Run(inside, q).value); }
  }

  ghost function Top(r: Reading): Entry
    requires r.stack != []
  {
    r.stack[|r.stack| - 1]
  }

  /** Deep enough that no element opened here can be a suite of its own. */
  ghost predicate Nested(r: Reading) {
    |r.stack| >= 2 || (|r.stack| == 1 && r.stack[0].name == "testsuite")
  }

  /** Below an element without a suite nothing is counted. */
  lemma {:induction false} WalkOutside(f: Forest, r: Reading)
    requires WellFormed(r) && Nested(r) && Top(r).suite.None? && Top(r).case_.None?
    ensures Run(Events(f), r) == Some(r)
  {
    if f.Element? {
      var q := OpenedOutside(r, f.tag);
      WalkOutside(f.children, q);
      WalkOutside(f.siblings, r);
      RunThrough(f, r, q, q);
    }
  }

  lemma OpenedOutside(r: Reading, tag: Tag) returns (q: Reading)
    requires WellFormed(r) && Nested(r) && Top(r).suite.None? && Top(r).case_.None?
    ensures OpenStep(r, tag) == Some(q) && WellFormed(q) && Nested(q) && Top(q).suite.None? && Top(q).case_.None? &&
      CloseStep(q) == r
  {
    q := OpenStep(r, tag).value;
  }

  function MarkCase(cases: seq<Case>, at: Option<nat>): seq<Case> {
    if at.Some? && at.value < |cases| then cases[at.value := cases[at.value].(failed := true)] else cases
  }

  /** The case that a failure directly below the top element would fail. */
  ghost function Failing(e: Entry, fails: bool): Option<nat> {
    if e.name == "testcase" && fails then e.case_ else None
  }

  /** What a walk below the top element does to the suites. */
  ghost function Walked(r: Reading, f: Forest): seq<Suite>
    requires WellFormed(r) && r.stack != [] && Top(r).suite.Some?
  {
    var at := Top(r).suite.value;
    var cases := r.suites[at].cases;
    r.suites[at := r.suites[at].(cases := MarkCase(cases, Failing(Top(r), FailsDirectly(f))) + CasesIn(f))]
  }

  /** The case list of one element: its siblings' failures reach back over what its children added. */
  lemma CaseLists(cases: seq<Case>, at: Option<nat>, first: bool, second: bool, own: seq<Case>, inner: seq<Case>,
      after: seq<Case>)
    requires at.Some? ==> at.value < |cases|
    ensures MarkCase(MarkCase(cases, if first then at else None) + own + inner, if second then at else None) + after
      == MarkCase(cases, if first || second then at else None) + (own + inner + after)
  {
  }

  /** A fresh case at the end of a list fails with its children. */
  lemma OwnCase(cases: seq<Case>, name: string, fails: bool)
    ensures MarkCase(cases + [Case(name, false)], if fails then Some(|cases|) else None) == cases + [Case(name, fails)]
  {
  }

  ghost function WithCases(suites: seq<Suite>, at: nat, cases: seq<Case>): seq<Suite>
    requires at < |suites|
  {
    suites[at := suites[at].(cases := cases)]
  }

  lemma WithCasesTwice(suites: seq<Suite>, at: nat, first: seq<Case>, second: seq<Case>)
    requires at < |suites|
    ensures WithCases(WithCases(suites, at, first), at, second) == WithCases(suites, at, second)
    ensures WithCases(suites, at, suites[at].cases) == suites
  {
  }

  lemma OpenedCases(r: Reading, q: Reading, tag: Tag)
    requires WellFormed(r) && Nested(r) && Top(r).suite.Some? && OpenStep(r, tag) == Some(q)
    ensures var at := Top(r).suite.value;
            var own := if Name(tag) == "testcase" then [Case(CaseName(tag), false)] else [];
            var cases := r.suites[at].cases;
            && Top(q) == Entry(Name(tag), Some(at), if Name(tag) == "testcase" then Some(|cases|) else None)
            && q.suites == WithCases(r.suites, at, MarkCase(cases, Failing(Top(r), IsFailure(tag))) + own)
            && q.stack[..|q.stack| - 1] == r.stack && Nested(q)
  {
    var at := Top(r).suite.value;
    var cases := r.suites[at].cases;
    WithCasesTwice(r.suites, at, cases, cases);
    if Name(tag) == "testcase" {
      assert MarkCase(cases, Failing(Top(r), IsFailure(tag))) == cases;
    } else {
      var marked := MarkCase(cases, Failing(Top(r), IsFailure(tag)));
      assert marked + [] == marked;
    }
  }

  /** The suites after an element's children, before its siblings. */
  lemma ChildrenWalked(r: Reading, q: Reading, tag: Tag, children: Forest)
    requires WellFormed(r) && Nested(r) && Top(r).suite.Some? && OpenStep(r, tag) == Some(q)
    ensures var at := Top(r).suite.value;
            var own := if Name(tag) == "testcase" then [Case(CaseName(tag), FailsDirectly(children))] else [];
            && Top(q).suite == Some(at)
            && Walked(q, children) == WithCases(r.suites, at,
                 MarkCase(r.suites[at].cases, Failing(Top(r), IsFailure(tag))) + own + CasesIn(children))
  {
    OpenedCases(r, q, tag);
    var at := Top(r).suite.value;
    var cases := r.suites[at].cases;
    var marked := MarkCase(cases, Failing(Top(r), IsFailure(tag)));
    OwnCase(marked, CaseName(tag), FailsDirectly(children));
    assert |marked| == |cases|;
    WithCasesTwice(r.suites, at, q.suites[at].cases, Walked(q, children)[at].cases);
  }

  lemma ElementWalked(r: Reading, q: Reading, tag: Tag, children: Forest, siblings: Forest)
    requires WellFormed(r) && Nested(r) && Top(r).suite.Some? && OpenStep(r, tag) == Some(q)
    requires Top(q).suite.Some? && WellFormed(Reading(Walked(q, children), r.stack))
    ensures Walked(Reading(Walked(q, children), r.stack), siblings) == Walked(r, Element(tag, children, siblings))
  {
    ChildrenWalked(r, q, tag, children);
    var cases := r.suites[Top(r).suite.value].cases;
    var own := if Name(tag) == "testcase" then [Case(CaseName(tag), FailsDirectly(children))] else [];
    CaseLists(cases, Failing(Top(r), true), IsFailure(tag), FailsDirectly(siblings), own, CasesIn(children), CasesIn(siblings));
    var after := MarkCase(cases, Failing(Top(r), IsFailure(tag))) + own + CasesIn(children);
    WalkedOn(r, Reading(Walked(q, children), r.stack), after, siblings);
    WalkedIs(r, Element(tag, children, siblings));
  }

  lemma WalkedIs(r: Reading, f: Forest)
    requires WellFormed(r) && r.stack != [] && Top(r).suite.Some?
    ensures var at := Top(r).suite.value;
      Walked(r, f) == WithCases(r.suites, at, MarkCase(r.suites[at].cases, Failing(Top(r), FailsDirectly(f))) + CasesIn(f))
  {
  }

  /** A walk that goes on from another case list of the same suite. */
  lemma WalkedOn(r: Reading, back: Reading, cases: seq<Case>, f: Forest)
    requires WellFormed(r) && r.stack != [] && Top(r).suite.Some? && WellFormed(back) && back.stack == r.stack
    requires back.suites == WithCases(r.suites, Top(r).suite.value, cases)
    ensures Walked(back, f) == WithCases(r.suites, Top(r).suite.value,
      MarkCase(cases, Failing(Top(r), FailsDirectly(f))) + CasesIn(f))
  {
    WalkedIs(back, f);
    WithCasesTwice(r.suites, Top(r).suite.value, cases, MarkCase(cases, Failing(Top(r), FailsDirectly(f))) + CasesIn(f));
  }

  lemma BackIsWellFormed(r: Reading, q: Reading, tag: Tag, children: Forest)
    requires WellFormed(r) && Nested(r) && Top(r).suite.Some? && OpenStep(r, tag) == Some(q)
    ensures Top(q).suite.Some? && WellFormed(Reading(Walked(q, children), r.stack))
  {
    ChildrenWalked(r, q, tag, children);
  }

  lemma NothingInside(r: Reading)
    requires WellFormed(r) && r.stack != [] && Top(r).suite.Some?
    ensures Walked(r, Nil) == r.suites && Run(Events(Nil), r) == Some(r)
  {
    var at := Top(r).suite.value;
    assert r.suites[at].cases + [] == r.suites[at].cases;
    WithCasesTwice(r.suites, at, [], []);
  }

  /** Below an element of a suite, every case is added to that suite and only direct children fail a case. */
  lemma {:induction false} WalkInside(f: Forest, r: Reading)
    requires WellFormed(r) && Nested(r) && Top(r).suite.Some?
    ensures Run(Events(f), r) == Some(Reading(Walked(r, f), r.stack))
  {
    match f
    case Nil => NothingInside(r);
    case Element(tag, children, siblings) =>
      var q := OpenedInside(r, tag);
      WalkInside(children, q);
      BackIsWellFormed(r, q, tag, children);
      WalkInside(siblings, Reading(Walked(q, children), r.stack));
      InsideElement(f, r, q);
  }

  lemma OpenedInside(r: Reading, tag: Tag) returns (q: Reading)
    requires WellFormed(r) && Nested(r) && Top(r).suite.Some?
    ensures OpenStep(r, tag) == Some(q) && WellFormed(q) && Nested(q) && Top(q).suite.Some?
  {
    q := OpenStep(r, tag).value;
    OpenedCases(r, q, tag);
  }

  /** An element, once the walks through its children and its siblings are known. */
  lemma InsideElement(f: Forest, r: Reading, q: Reading)
    requires WellFormed(r) && Nested(r) && Top(r).suite.Some? && f.Element? && OpenStep(r, f.tag) == Some(q)
    requires Nested(q) && Top(q).suite.Some? && Run(Events(f.children), q) == Some(Reading(Walked(q, f.children), q.stack))
    requires WellFormed(Reading(Walked(q, f.children), r.stack))
    requires Run(Events(f.siblings), Reading(Walked(q, f.children), r.stack)) ==
      Some(Reading(Walked(Reading(Walked(q, f.children), r.stack), f.siblings), r.stack))
    ensures Run(Events(f), r) == Some(Reading(Walked(r, f), r.stack))
  {
    OpenedCases(r, q, f.tag);
    RunThrough(f, r, q, Reading(Walked(q, f.children), q.stack));
    ElementWalked(r, q, f.tag, f.children, f.siblings);
  }

  /** An element whose walk through the children is known. */
  lemma RunThrough(f: Forest, r: Reading, q: Reading, inner: Reading)
    requires WellFormed(r) && f.Element? && OpenStep(r, f.tag) == Some(q)
    requires Run(Events(f.children), q) == Some(inner)
    ensures WellFormed(CloseStep(inner)) && Run(Events(f), r) == Run(Events(f.siblings), CloseStep(inner))
  {
    EventsOfElement(f);
    RunOpen(f.tag, Events(f.children) + ([Close] + Events(f.siblings)), r);
    RunBetween(Events(f.children), Events(f.siblings), q);
  }

  lemma OpenedSuite(r: Reading, tag: Tag, children: Forest)
    requires WellFormed(r) && StartsSuite(r, tag) && SuiteCounts(tag).Some?
    ensures var q := OpenStep(r, tag).value;
            && OpenStep(r, tag).Some? && q.stack == r.stack + [Entry(Name(tag), Some(|r.suites|), None)] && Nested(q)
            && Walked(q, children) == r.suites + [SuiteOf(tag, children).value]
  {
    var q := OpenStep(r, tag).value;
    var counted := SuiteCounts(tag).value;
    assert q.suites == r.suites + [counted];
    assert counted.cases + CasesIn(children) == CasesIn(children);
  }

  /** A suite element, wherever it may start one, contributes exactly its own suite. */
  lemma WalkSuite(f: Forest, r: Reading)
    requires WellFormed(r) && f.Element? && StartsSuite(r, f.tag)
    ensures SuiteOf(f.tag, f.children).None? ==> Run(Events(f), r).None?
    ensures SuiteOf(f.tag, f.children).Some? ==>
      var next := Reading(r.suites + [SuiteOf(f.tag, f.children).value], r.stack);
      WellFormed(next) && Run(Events(f), r) == Run(Events(f.siblings), next)
  {
    RunElement(f, r);
    if SuiteCounts(f.tag).Some? {
      OpenedSuite(r, f.tag, f.children);
      var q := OpenStep(r, f.tag).value;
      WalkInside(f.children, q);
      assert q.stack[..|q.stack| - 1] == r.stack;
    }
  }

  lemma PassedOver(r: Reading, tag: Tag, children: Forest)
    requires WellFormed(r) && |r.stack| == 1 && r.stack[0].suite.None? && r.stack[0].case_.None?
    requires Name(tag) != "testsuite"
    ensures var q := OpenStep(r, tag);
            q.Some? && CloseStep(q.value) == r && Run(Events(children), q.value) == q
  {
    var q := OpenStep(r, tag).value;
    assert q.suites == r.suites && q.stack[..|q.stack| - 1] == r.stack;
    WalkOutside(children, q);
  }

  ghost predicate BelowRoot(r: Reading) {
    WellFormed(r) && |r.stack| == 1 && r.stack[0].name != "testsuite" && r.stack[0].suite.None? && r.stack[0].case_.None?
  }

  /** The outcome of a walk that adds the given suites. */
  ghost function Added(r: Reading, suites: Option<seq<Suite>>): Option<Reading> {
    if suites.None? then None else Some(Reading(r.suites + suites.value, r.stack))
  }

  lemma AddedBoth(r: Reading, s: Suite, others: Option<seq<Suite>>)
    ensures Added(Reading(r.suites + [s], r.stack), others) == Added(r, if others.None? then None else Some([s] + others.value))
  {
    if others.Some? { assert r.suites + [s] + others.value == r.suites + ([s] + others.value); }
  }

  /** Children of a root that is not itself a suite. */
  lemma {:induction false} WalkAmong(f: Forest, r: Reading)
    requires BelowRoot(r)
    ensures Run(Events(f), r) == Added(r, SuitesAmong(f))
  {
    match f
    case Nil =>
      assert r.suites + [] == r.suites;
    case Element(tag, children, siblings) =>
      if Name(tag) == "testsuite" {
        WalkSuite(f, r);
        if SuiteOf(tag, children).Some? {
          var s := SuiteOf(tag, children).value;
          WalkAmong(siblings, Reading(r.suites + [s], r.stack));
          AddedBoth(r, s, SuitesAmong(siblings));
        }
      } else {
        PassedOver(r, tag, children);
        var q := OpenStep(r, tag).value;
        RunThrough(f, r, q, q);
        WalkAmong(siblings, r);
      }
  }

  const Start := Reading([], [])

  /** The events of any document leave an empty stack and exactly the suites of its tree. */
  lemma StackMachineIsTreeRecursion(root: Tag, children: Forest)
    ensures Run(Events(Element(root, children, Nil)), Start) ==
      match DocumentSuites(root, children) case None => None case Some(ss) => Some(Reading(ss, []))
  {
    var f := Element(root, children, Nil);
    if Name(root) == "testsuite" {
      WalkSuite(f, Start);
      if SuiteOf(root, children).Some? {
        assert Start.suites + [SuiteOf(root, children).value] == [SuiteOf(root, children).value];
      }
    } else {
      RunElement(f, Start);
      var q := OpenStep(Start, root).value;
      WalkAmong(children, q);
      if SuitesAmong(children).Some? {
        assert Start.suites + SuitesAmong(children).value == SuitesAmong(children).value;
      }
    }
  }

  // ---------- the reader ----------

  class JunitReader {
    var suites: seq<Suite>
    var stack: seq<Entry>

    ghost function State(): Reading
      reads this
    {
      Reading(suites, stack)
    }

    constructor ()
      ensures State() == Start
    {
      suites, stack := [], [];
    }

    /** The handler of an opening tag; false when it throws. */
    method OpenTag(tag: Tag) returns (ok: bool)
      requires WellFormed(State())
      modifies this
      ensures ok == OpenStep(old(State()), tag).Some?
      ensures ok ==> State() == OpenStep(old(State()), tag).value
    {
      var name := Name(tag);
      var parent := if stack == [] then Entry("", None, None) else stack[|stack| - 1];
      var suite := parent.suite;
      if name == "testsuite" && (|stack| == 0 || (|stack| == 1 && parent.name != "testsuite")) {
        var counted := SuiteCounts(tag);
        if counted.None? { return false; }
        suite := Some(|suites|);
        suites := suites + [counted.value];
      }
      var entry := Entry(name, suite, None);
      if name == "testcase" && suite.Some? {
        entry := entry.(case_ := Some(|suites[suite.value].cases|));
        suites := AddCase(suites, suite.value, Case(CaseName(tag), false));
      }
      if IsFailure(tag) && parent.name == "testcase" && parent.case_.Some? {
        suites := FailCase(suites, parent.suite.value, parent.case_.value);
      }
      stack := stack + [entry];
      return true;
    }

    method CloseTag()
      modifies this
      ensures State() == CloseStep(old(State()))
    {
      if stack != [] { stack := stack[..|stack| - 1]; }
    }

    /** Feeds a whole document's events to the handlers. */
    method Parse(root: Tag, children: Forest) returns (ok: bool)
      requires State() == Start
      modifies this
      ensures ok == DocumentSuites(root, children).Some?
      ensures ok ==> suites == DocumentSuites(root, children).value && stack == []
    {
      StackMachineIsTreeRecursion(root, children);
      ok := Feed(Events(Element(root, children, Nil)));
    }

    /** Feeds events one by one, until a handler throws. */
    method Feed(events: seq<Event>) returns (ok: bool)
      requires WellFormed(State())
      modifies this
      ensures Run(events, old(State())) == if ok then Some(State()) else None
    {
      ghost var start := State();
      var i := 0;
      assert events[0..] == events;
      while i < |events|
        invariant 0 <= i <= |events| && WellFormed(State())
        invariant Run(events, start) == Run(events[i..], State())
      {
        ghost var rest := events[i + 1..];
        assert events[i..] == [events[i]] + rest;
        var accepted := Handle(events[i], rest);
        if !accepted { return false; }
        i := i + 1;
      }
      return true;
    }

    /** Calls the handler of an event. */
    method Handle(event: Event, ghost rest: seq<Event>) returns (ok: bool)
      requires WellFormed(State())
      modifies this
      ensures if ok then WellFormed(State()) && Run([event] + rest, old(State())) == Run(rest, State())
              else Run([event] + rest, old(State())) == None
    {
      assert ([event] + rest)[1..] == rest;
      match event
      case Open(tag) => ok := OpenTag(tag);
      case Close =>
        CloseTag();
        ok := true;
    }
  }

  /** The counts of a first part of the suites, joined with those of the rest. */
  function Joined(total: int, failed: int, skipped: int, names: seq<string>, rest: Counts): Counts {
    Counts(total - failed - skipped + rest.passed, failed + rest.failed, skipped + rest.skipped, names + rest.failures)
  }

  lemma SummaryFrom(suites: seq<Suite>, i: nat, total: int, failed: int, skipped: int, names: seq<string>)
    requires i < |suites|
    ensures var s := suites[i];
      Joined(total, failed, skipped, names, Summary(suites[i..])) ==
      Joined(total + s.total, failed + s.failed, skipped + s.skipped, names + FailedNames(s.cases), Summary(suites[i + 1..]))
  {
    assert suites[i..][1..] == suites[i + 1..];
  }

  method Totals(suites: seq<Suite>) returns (counts: Counts)
    ensures counts == Summary(suites)
  {
    var total, failed, skipped, names := 0, 0, 0, [];
    var i := 0;
    assert suites[0..] == suites;
    while i < |suites|
      invariant 0 <= i <= |suites|
      invariant Joined(total, failed, skipped, names, Summary(suites[i..])) == Summary(suites)
    {
      var s := suites[i];
      SummaryFrom(suites, i, total, failed, skipped, names);
      total, failed, skipped, names := total + s.total, failed + s.failed, skipped + s.skipped, names + FailedNames(s.cases);
      i := i + 1;
    }
    return Counts(total - failed - skipped, failed, skipped, names);
  }

  /** junitCounts on an existing file: totals of the counted suites, or None for the thrown error. */
  method JunitCounts(root: Tag, children: Forest) returns (counts: Option<Counts>)
    ensures counts == match DocumentSuites(root, children) case None => None case Some(ss) => Some(Summary(ss))
  {
    var reader := new JunitReader();
    var ok := reader.Parse(root, children);
    if !ok { return None; }
    var c := Totals(reader.suites);
    return Some(c);
  }

  // ---------- a document ----------

  function Case1(name: map<string, string>, result: string, siblings: Forest): Forest {
    Element(Tag("", "testcase", name), Element(Tag("", result, map[]), Nil, Nil), siblings)
  }

  function Counts1(): map<string, string> {
    map["tests" := "3", "failures" := "1", "errors" := "1", "skipped" := "0"]
  }

  lemma DigitCounts(tag: Tag, key: string, c: char)
    requires key in tag.attributes && tag.attributes[key] == [c] && IsDigit(c)
    ensures CountOf(tag, key) == Some(DigitValue(c))
  {
    assert [c] == "" + [c] + "" && "" + [c] == [c] && [c][..0] == "";
    SignedInteger("", [c]);
    TrimIff([c], [c]);
  }

  function Cases1(): Forest {
    Case1(map["name" := "a"], "failure", Case1(map["name" := "b"], "system-out", Case1(map[], "error", Nil)))
  }

  /** Three tests, of which one failed and one had an error; the latter's case has no name. */
  lemma DocumentExample()
    ensures var suites := DocumentSuites(Tag("", "testsuites", map[]), Element(Tag("", "testsuite", Counts1()), Cases1(), Nil));
      suites.Some? && Summary(suites.value) == Counts(1, 2, 0, ["a", "unknown"])
  {
    var tag := Tag("", "testsuite", Counts1());
    CasesExample();
    SuiteExample(tag, Cases1());
    OneSuite(tag, Cases1(), Suite(3, 2, 0, CasesIn(Cases1())));
  }

  lemma SuiteExample(tag: Tag, children: Forest)
    requires tag.attributes == Counts1()
    ensures SuiteOf(tag, children) == Some(Suite(3, 2, 0, CasesIn(children)))
  {
    DigitCounts(tag, "tests", '3');
    DigitCounts(tag, "failures", '1');
    DigitCounts(tag, "errors", '1');
    DigitCounts(tag, "skipped", '0');
    SuiteFromCounts(tag, children, Suite(3, 2, 0, CasesIn(children)));
  }

  lemma OneSuite(tag: Tag, children: Forest, suite: Suite)
    requires Name(tag) == "testsuite" && SuiteOf(tag, children) == Some(suite)
    ensures DocumentSuites(Tag("", "testsuites", map[]), Element(tag, children, Nil)) == Some([suite])
    ensures Summary([suite]) == Counts(suite.total - suite.failed - suite.skipped, suite.failed, suite.skipped, FailedNames(suite.cases))
  {
    assert |"testsuites"| != |"testsuite"| && Name(Tag("", "testsuites", map[])) != "testsuite";
    assert SuitesAmong(Nil) == Some([]) && SuitesAmong(Element(tag, children, Nil)) == Some([suite] + []);
    assert [suite][1..] == [] && [suite] + [] == [suite] && FailedNames(suite.cases) + [] == FailedNames(suite.cases);
  }

  lemma CasesExample()
    ensures FailedNames(CasesIn(Cases1())) == ["a", "unknown"]
  {
    var third := Case1(map[], "error", Nil);
    var second := Case1(map["name" := "b"], "system-out", third);
    CaseListed(map[], "error", Nil);
    CaseListed(map["name" := "b"], "system-out", third);
    CaseListed(map["name" := "a"], "failure", second);
    var a, b, c := Case("a", true), Case("b", false), Case("unknown", true);
    assert CasesIn(Cases1()) == [a, b, c];
    assert [a, b, c][1..] == [b, c] && [b, c][1..] == [c] && [c][1..] == [];
  }

  lemma NoCaseInside(result: string)
    requires result in {"failure", "error", "system-out"}
    ensures var inner := Element(Tag("", result, map[]), Nil, Nil);
      CasesIn(inner) == [] && (FailsDirectly(inner) <==> result != "system-out")
  {
    assert result[0] != "testcase"[0];
    assert [] + CasesIn(Nil) + CasesIn(Nil) == [];
    if result == "system-out" { assert result[0] == 's'; }
  }

  lemma CaseListed(name: map<string, string>, result: string, siblings: Forest)
    requires result in {"failure", "error", "system-out"}
    ensures CasesIn(Case1(name, result, siblings)) ==
      [Case(if "name" in name then name["name"] else "unknown", result != "system-out")] + CasesIn(siblings)
  {
    NoCaseInside(result);
    CasesOf(Tag("", "testcase", name), Element(Tag("", result, map[]), Nil, Nil), siblings);
  }

  lemma CasesOf(tag: Tag, children: Forest, siblings: Forest)
    requires Name(tag) == "testcase" && CasesIn(children) == []
    ensures CasesIn(Element(tag, children, siblings)) == [Case(CaseName(tag), FailsDirectly(children))] + CasesIn(siblings)
  {
  }
}
