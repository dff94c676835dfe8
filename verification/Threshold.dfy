/**
 * Threshold statistics (apps/api/src/analytics/risk-threshold-validation.ts), over the reals.
 */
module Threshold {
  import opened Wrappers
  import opened Sorting
  import opened Lists
  import opened ValidationRows

  /** A valid row as one indicator sees it. */
  datatype Row = Row(outcome: Outcome, value: Option<real>)

  datatype Direction = LowerIsConcerning | HigherIsConcerning

  datatype Class = TruePositive | FalsePositive | TrueNegative | FalseNegative | UncertainRow | MissingRow

  datatype Evaluation = Evaluation(
    evaluableN: nat, positiveN: nat, negativeN: nat, uncertainN: nat, missingN: nat, unevaluableN: nat,
    tp: nat, fp: nat, tn: nat, fn: nat,
    prevalence: Option<real>, precision: Option<real>, recall: Option<real>, specificity: Option<real>,
      negativePredictiveValue: Option<real>)

  datatype Result<T> = Ok(value: T) | InvalidRows | InvalidThreshold

  // ----- The confusion matrix -----

  predicate Concerning(v: real, threshold: real, direction: Direction) {
    match direction
    case LowerIsConcerning => v <= threshold
    case HigherIsConcerning => v >= threshold
  }

  /** Which cell of the table a row belongs to. */
  function ClassOf(row: Row, threshold: real, direction: Direction): Class {
    if row.outcome.Uncertain? then UncertainRow
    else if row.value.None? then MissingRow
    else if row.outcome.FollowUp? then if Concerning(row.value.value, threshold, direction) then TruePositive else FalseNegative
    else if Concerning(row.value.value, threshold, direction) then FalsePositive else TrueNegative
  }

  function Count(rows: seq<Row>, c: Class, threshold: real, direction: Direction): nat {
    if rows == [] then 0
    else Count(rows[..|rows| - 1], c, threshold, direction)
         + if ClassOf(rows[|rows| - 1], threshold, direction) == c then 1 else 0
  }

  function Ratio(numerator: nat, denominator: nat): Option<real> {
    if denominator == 0 then None else Some(numerator as real / denominator as real)
  }

  function Evaluate(rows: seq<Row>, threshold: real, direction: Direction): Evaluation {
    var tp := Count(rows, TruePositive, threshold, direction);
    var fp := Count(rows, FalsePositive, threshold, direction);
    var tn := Count(rows, TrueNegative, threshold, direction);
    var fn := Count(rows, FalseNegative, threshold, direction);
    var uncertain := Count(rows, UncertainRow, threshold, direction);
    var missing := Count(rows, MissingRow, threshold, direction);
    Evaluation(tp + fn + (tn + fp), tp + fn, tn + fp, uncertain, missing, uncertain + missing, tp, fp, tn, fn,
      Ratio(tp + fn, tp + fn + (tn + fp)), Ratio(tp, tp + fp), Ratio(tp, tp + fn), Ratio(tn, tn + fp), Ratio(tn, tn + fn))
  }

  // ----- What the ratios are -----

  /** A value that the threshold flags: at it or beyond it, in the direction of concern. */
  predicate Flagged(row: Row, threshold: real, direction: Direction) {
    row.value.Some? && if direction == LowerIsConcerning then row.value.value <= threshold else threshold <= row.value.value
  }

  /** A row with a value and a certain outcome. */
  predicate Evaluable(row: Row) {
    row.value.Some? && row.outcome != Uncertain
  }

  /** The share of the rows of one kind that are also of another. */
  function Share(rows: seq<Row>, kind: Row -> bool, part: Row -> bool): Option<real> {
    var all := |Filter(rows, kind)|;
    if all == 0 then None else Some(|Filter(rows, (r: Row) => kind(r) && part(r))| as real / all as real)
  }

  /** A cell counts the rows that its condition chooses. */
  lemma {:induction false} CountIsFilter(rows: seq<Row>, c: Class, threshold: real, direction: Direction, f: Row -> bool)
    requires forall r :: f(r) <==> ClassOf(r, threshold, direction) == c
    ensures Count(rows, c, threshold, direction) == |Filter(rows, f)|
  {
    if rows != [] {
      var front, last := rows[..|rows| - 1], rows[|rows| - 1];
      CountIsFilter(front, c, threshold, direction, f);
      FilterSnoc(front, last, f);
      assert rows == front + [last];
    }
  }

  /** A ratio of two cells is the share of one in both. */
  lemma RatioIsShare(rows: seq<Row>, a: Class, b: Class, threshold: real, direction: Direction, kind: Row -> bool, part: Row -> bool)
    requires a != b
    requires forall r :: kind(r) <==> ClassOf(r, threshold, direction) in {a, b}
    requires forall r :: kind(r) && part(r) <==> ClassOf(r, threshold, direction) == a
    ensures Ratio(Count(rows, a, threshold, direction), Count(rows, a, threshold, direction) + Count(rows, b, threshold, direction))
      == Share(rows, kind, part)
  {
    var f := (r: Row) => ClassOf(r, threshold, direction) == a;
    var g := (r: Row) => ClassOf(r, threshold, direction) == b;
    CountIsFilter(rows, a, threshold, direction, f);
    CountIsFilter(rows, b, threshold, direction, g);
    FilterOfEither(rows, f, g, kind);
    SameFilter(rows, f, (r: Row) => kind(r) && part(r));
  }

  /** Precision is how many of the flagged rows warranted a follow-up. */
  lemma PrecisionIsShare(rows: seq<Row>, t: real, d: Direction)
    ensures Evaluate(rows, t, d).precision ==
      Share(rows, (r: Row) => Evaluable(r) && Flagged(r, t, d), (r: Row) => r.outcome == FollowUp)
  {
    RatioIsShare(rows, TruePositive, FalsePositive, t, d,
      (r: Row) => Evaluable(r) && Flagged(r, t, d), (r: Row) => r.outcome == FollowUp);
  }

  /** Recall is how many of the rows that warranted one were flagged. */
  lemma RecallIsShare(rows: seq<Row>, t: real, d: Direction)
    ensures Evaluate(rows, t, d).recall ==
      Share(rows, (r: Row) => Evaluable(r) && r.outcome == FollowUp, (r: Row) => Flagged(r, t, d))
  {
    RatioIsShare(rows, TruePositive, FalseNegative, t, d,
      (r: Row) => Evaluable(r) && r.outcome == FollowUp, (r: Row) => Flagged(r, t, d));
  }

  /** Specificity is how many of the rows that warranted none were not flagged. */
  lemma SpecificityIsShare(rows: seq<Row>, t: real, d: Direction)
    ensures Evaluate(rows, t, d).specificity ==
      Share(rows, (r: Row) => Evaluable(r) && r.outcome == NoFollowUp, (r: Row) => !Flagged(r, t, d))
  {
    RatioIsShare(rows, TrueNegative, FalsePositive, t, d,
      (r: Row) => Evaluable(r) && r.outcome == NoFollowUp, (r: Row) => !Flagged(r, t, d));
  }

  /** The negative predictive value is how many of the rows that were not flagged warranted none. */
  lemma NegativeValueIsShare(rows: seq<Row>, t: real, d: Direction)
    ensures Evaluate(rows, t, d).negativePredictiveValue ==
      Share(rows, (r: Row) => Evaluable(r) && !Flagged(r, t, d), (r: Row) => r.outcome == NoFollowUp)
  {
    RatioIsShare(rows, TrueNegative, FalseNegative, t, d,
      (r: Row) => Evaluable(r) && !Flagged(r, t, d), (r: Row) => r.outcome == NoFollowUp);
  }

  /** Prevalence is how many of the evaluable rows warranted a follow-up. */
  lemma PrevalenceIsShare(rows: seq<Row>, t: real, d: Direction)
    ensures Evaluate(rows, t, d).prevalence == Share(rows, (r: Row) => Evaluable(r), (r: Row) => r.outcome == FollowUp)
  {
    OutcomesAreRows(rows, t, d);
    FilterOfEither(rows, (r: Row) => Evaluable(r) && r.outcome == FollowUp, (r: Row) => Evaluable(r) && r.outcome == NoFollowUp,
      (r: Row) => Evaluable(r));
    SameFilter(rows, (r: Row) => Evaluable(r) && r.outcome == FollowUp,
      (r: Row) => ((r: Row) => Evaluable(r))(r) && ((r: Row) => r.outcome == FollowUp)(r));
  }

  /** Positives and negatives are the evaluable rows of either outcome. */
  lemma OutcomesAreRows(rows: seq<Row>, t: real, d: Direction)
    ensures var e := Evaluate(rows, t, d);
      && e.positiveN == |Filter(rows, (r: Row) => Evaluable(r) && r.outcome == FollowUp)|
      && e.negativeN == |Filter(rows, (r: Row) => Evaluable(r) && r.outcome == NoFollowUp)|
      && e.evaluableN == e.positiveN + e.negativeN
  {
    var tp, fn := (r: Row) => ClassOf(r, t, d) == TruePositive, (r: Row) => ClassOf(r, t, d) == FalseNegative;
    var fp, tn := (r: Row) => ClassOf(r, t, d) == FalsePositive, (r: Row) => ClassOf(r, t, d) == TrueNegative;
    CountIsFilter(rows, TruePositive, t, d, tp);
    CountIsFilter(rows, FalseNegative, t, d, fn);
    CountIsFilter(rows, FalsePositive, t, d, fp);
    CountIsFilter(rows, TrueNegative, t, d, tn);
    FilterOfEither(rows, tp, fn, (r: Row) => Evaluable(r) && r.outcome == FollowUp);
    FilterOfEither(rows, fp, tn, (r: Row) => Evaluable(r) && r.outcome == NoFollowUp);
  }

  /** A row of uncertain outcome is uncertain, another without a value missing, and both are unevaluable. */
  lemma OthersAreRows(rows: seq<Row>, t: real, d: Direction)
    ensures var e := Evaluate(rows, t, d);
      && e.uncertainN == |Filter(rows, (r: Row) => r.outcome == Uncertain)|
      && e.missingN == |Filter(rows, (r: Row) => r.outcome != Uncertain && r.value.None?)|
      && e.unevaluableN == e.uncertainN + e.missingN
  {
    CountIsFilter(rows, UncertainRow, t, d, (r: Row) => r.outcome == Uncertain);
    CountIsFilter(rows, MissingRow, t, d, (r: Row) => r.outcome != Uncertain && r.value.None?);
  }

  /** Every row falls in exactly one cell. */
  lemma {:induction false} CellsSumToRows(rows: seq<Row>, threshold: real, direction: Direction)
    ensures var e := Evaluate(rows, threshold, direction);
      e.tp + e.fp + e.tn + e.fn + e.uncertainN + e.missingN == |rows| && e.evaluableN + e.unevaluableN == |rows|
  {
    if rows != [] { CellsSumToRows(rows[..|rows| - 1], threshold, direction); }
  }

  /** The rows of one outcome whose value lies between two thresholds, the first excluded. */
  function Between(rows: seq<Row>, outcome: Outcome, low: real, high: real): nat {
    if rows == [] then 0
    else
      var row := rows[|rows| - 1];
      Between(rows[..|rows| - 1], outcome, low, high) +
      if row.outcome == outcome && row.value.Some? && low < row.value.value <= high then 1 else 0
  }

  /** Raising a threshold moves exactly the rows between the two across the table. */
  lemma {:induction false} RaisingMovesRows(rows: seq<Row>, low: real, high: real)
    requires low <= high
    ensures var a, b := Evaluate(rows, low, LowerIsConcerning), Evaluate(rows, high, LowerIsConcerning);
      && b.tp == a.tp + Between(rows, FollowUp, low, high) && a.fn == b.fn + Between(rows, FollowUp, low, high)
      && b.fp == a.fp + Between(rows, NoFollowUp, low, high) && a.tn == b.tn + Between(rows, NoFollowUp, low, high)
      && a.uncertainN == b.uncertainN && a.missingN == b.missingN
  {
    if rows != [] { RaisingMovesRows(rows[..|rows| - 1], low, high); }
  }

  function Flip(direction: Direction): Direction {
    if direction.LowerIsConcerning? then HigherIsConcerning else LowerIsConcerning
  }

  function Negated(rows: seq<Row>): (r: seq<Row>)
    ensures |r| == |rows|
  {
    seq(|rows|, i requires 0 <= i < |rows| => rows[i].(value := if rows[i].value.Some? then Some(-rows[i].value.value) else None))
  }

  lemma {:induction false} NegatedCount(rows: seq<Row>, c: Class, threshold: real, direction: Direction)
    ensures Count(Negated(rows), c, -threshold, Flip(direction)) == Count(rows, c, threshold, direction)
  {
    if rows != [] {
      var front := rows[..|rows| - 1];
      assert Negated(rows)[..|rows| - 1] == Negated(front);
      NegatedCount(front, c, threshold, direction);
    }
  }

  /** Negating every value and the threshold turns one direction into the other. */
  lemma DirectionsAreMirrored(rows: seq<Row>, threshold: real, direction: Direction)
    ensures Evaluate(Negated(rows), -threshold, Flip(direction)) == Evaluate(rows, threshold, direction)
  {
    NegatedCount(rows, TruePositive, threshold, direction);
    NegatedCount(rows, FalsePositive, threshold, direction);
    NegatedCount(rows, TrueNegative, threshold, direction);
    NegatedCount(rows, FalseNegative, threshold, direction);
    NegatedCount(rows, UncertainRow, threshold, direction);
    NegatedCount(rows, MissingRow, threshold, direction);
  }

  /** No ratio, or one no greater than the other. */
  predicate NoGreater(a: Option<real>, b: Option<real>) {
    match (a, b)
    case (None, None) => true
    case (Some(x), Some(y)) => x <= y
    case _ => false
  }

  lemma RatioGrows(a: nat, b: nat, n: nat)
    requires a <= b
    ensures NoGreater(Ratio(a, n), Ratio(b, n))
  {
    if n > 0 { assert a as real / n as real <= b as real / n as real; }
  }

  /** What a higher threshold may do to recall and specificity. */
  predicate TradesOff(low: Evaluation, high: Evaluation, direction: Direction) {
    match direction
    case LowerIsConcerning => NoGreater(low.recall, high.recall) && NoGreater(high.specificity, low.specificity)
    case HigherIsConcerning => NoGreater(high.recall, low.recall) && NoGreater(low.specificity, high.specificity)
  }

  lemma LowerTradesOff(rows: seq<Row>, low: real, high: real)
    requires low <= high
    ensures TradesOff(Evaluate(rows, low, LowerIsConcerning), Evaluate(rows, high, LowerIsConcerning), LowerIsConcerning)
  {
    var a, b := Evaluate(rows, low, LowerIsConcerning), Evaluate(rows, high, LowerIsConcerning);
    RaisingMovesRows(rows, low, high);
    RatioGrows(a.tp, b.tp, a.positiveN);
    RatioGrows(b.tn, a.tn, a.negativeN);
  }

  /** A higher threshold: recall never falls and specificity never rises when lower is concerning, and the reverse otherwise. */
  lemma RecallAndSpecificityTradeOff(rows: seq<Row>, low: real, high: real, direction: Direction)
    requires low <= high
    ensures TradesOff(Evaluate(rows, low, direction), Evaluate(rows, high, direction), direction)
  {
    if direction.LowerIsConcerning? {
      LowerTradesOff(rows, low, high);
    } else {
      DirectionsAreMirrored(rows, low, direction);
      DirectionsAreMirrored(rows, high, direction);
      LowerTradesOff(Negated(rows), -high, -low);
    }
  }

  function Seen(row: ValidationRow, k: Indicator): Row
    requires Valid(row)
  {
    Row(row.outcome.value, if row.indicators(k).None? then None else Some(row.indicators(k).value.value))
  }

  /** The rows as one indicator sees them. */
  function View(rows: seq<ValidationRow>, k: Indicator): (r: seq<Row>)
    requires AllValid(rows)
    ensures |r| == |rows|
    ensures forall i :: 0 <= i < |r| ==>
      && Some(r[i].outcome) == rows[i].outcome
      && rows[i].indicators(k) == if r[i].value.None? then None else Some(Finite(r[i].value.value))
  {
    seq(|rows|, i requires 0 <= i < |rows| => Seen(rows[i], k))
  }

  method EvaluateThreshold(rows: seq<ValidationRow>, k: Indicator, threshold: Amount, direction: Direction)
    returns (r: Result<Evaluation>)
    ensures r == if !AllValid(rows) then InvalidRows else if threshold.NonFinite? then InvalidThreshold
                 else Ok(Evaluate(View(rows, k), threshold.value, direction))
  {
    var ok := ValidateRows(rows);
    if !ok { return InvalidRows; }
    if threshold.NonFinite? { return InvalidThreshold; }
    var evaluation := Tabulate(View(rows, k), threshold.value, direction);
    return Ok(evaluation);
  }

  /** The loop over the rows. */
  method Tabulate(rows: seq<Row>, t: real, direction: Direction) returns (evaluation: Evaluation)
    ensures evaluation == Evaluate(rows, t, direction)
  {
    var positiveN, negativeN, uncertainN, missingN := 0, 0, 0, 0;
    var tp, fp, tn, fn := 0, 0, 0, 0;
    for i := 0 to |rows|
      invariant Counted(rows[..i], t, direction, tp, fp, tn, fn, uncertainN, missingN)
      invariant positiveN == tp + fn && negativeN == tn + fp
    {
      var row := rows[i];
      CountedStep(rows, i, t, direction, tp, fp, tn, fn, uncertainN, missingN);
      if row.outcome == Uncertain { uncertainN := uncertainN + 1; continue; }
      if row.value.None? { missingN := missingN + 1; continue; }
      var predictedPositive := Concerning(row.value.value, t, direction);
      if row.outcome == FollowUp {
        positiveN := positiveN + 1;
        if predictedPositive { tp := tp + 1; } else { fn := fn + 1; }
      } else {
        negativeN := negativeN + 1;
        if predictedPositive { fp := fp + 1; } else { tn := tn + 1; }
      }
    }
    assert rows[..|rows|] == rows;
    return Evaluation(positiveN + negativeN, positiveN, negativeN, uncertainN, missingN, uncertainN + missingN, tp, fp, tn, fn,
      Ratio(positiveN, positiveN + negativeN), Ratio(tp, tp + fp), Ratio(tp, tp + fn), Ratio(tn, tn + fp), Ratio(tn, tn + fn));
  }

  ghost predicate Counted(rows: seq<Row>, t: real, d: Direction, tp: nat, fp: nat, tn: nat, fn: nat, uncertainN: nat,
      missingN: nat) {
    tp == Count(rows, TruePositive, t, d) && fp == Count(rows, FalsePositive, t, d) &&
    tn == Count(rows, TrueNegative, t, d) && fn == Count(rows, FalseNegative, t, d) &&
    uncertainN == Count(rows, UncertainRow, t, d) && missingN == Count(rows, MissingRow, t, d)
  }

  lemma CountedStep(rows: seq<Row>, i: nat, t: real, d: Direction, tp: nat, fp: nat, tn: nat, fn: nat, uncertainN: nat,
      missingN: nat)
    requires i < |rows| && Counted(rows[..i], t, d, tp, fp, tn, fn, uncertainN, missingN)
    ensures match ClassOf(rows[i], t, d)
      case TruePositive => Counted(rows[..i + 1], t, d, tp + 1, fp, tn, fn, uncertainN, missingN)
      case FalsePositive => Counted(rows[..i + 1], t, d, tp, fp + 1, tn, fn, uncertainN, missingN)
      case TrueNegative => Counted(rows[..i + 1], t, d, tp, fp, tn + 1, fn, uncertainN, missingN)
      case FalseNegative => Counted(rows[..i + 1], t, d, tp, fp, tn, fn + 1, uncertainN, missingN)
      case UncertainRow => Counted(rows[..i + 1], t, d, tp, fp, tn, fn, uncertainN + 1, missingN)
      case MissingRow => Counted(rows[..i + 1], t, d, tp, fp, tn, fn, uncertainN, missingN + 1)
  {
    assert rows[..i + 1][..i] == rows[..i];
  }

  predicate AllFinite(thresholds: seq<Amount>) {
    forall t :: t in thresholds ==> t.Finite?
  }

  /** A repeated threshold is meant to be refused, and never is: such a grid goes through exactly when any grid would. */
  lemma RepeatedThresholdIsAccepted(rows: seq<ValidationRow>, k: Indicator, thresholds: seq<Amount>,
      direction: Direction, r: Result<seq<Evaluation>>, i: nat, j: nat)
    requires IsGrid(rows, k, thresholds, direction, r)
    requires i < j < |thresholds| && thresholds[i] == thresholds[j]
    ensures r.Ok? <==> AllFinite(thresholds) && AllValid(rows)
    ensures r.Ok? ==> r.value[i] == r.value[j]
  {
    if r.Ok? {
      assert r.value[i] == Evaluate(View(rows, k), thresholds[i].value, direction);
      assert r.value[j] == Evaluate(View(rows, k), thresholds[j].value, direction);
    }
  }

  /** One evaluation for each threshold, in order, or the first thing that is wrong. */
  ghost predicate IsGrid(rows: seq<ValidationRow>, k: Indicator, thresholds: seq<Amount>, direction: Direction,
      r: Result<seq<Evaluation>>) {
    match r
    case InvalidThreshold => !AllFinite(thresholds)
    case InvalidRows => AllFinite(thresholds) && thresholds != [] && !AllValid(rows)
    case Ok(evaluations) =>
      AllFinite(thresholds) && (thresholds == [] || AllValid(rows)) && |evaluations| == |thresholds| &&
      forall i :: 0 <= i < |thresholds| ==>
        thresholds[i].Finite? && evaluations[i] == Evaluate(View(rows, k), thresholds[i].value, direction)
  }

  /** evaluateThresholdGrid */
  method EvaluateThresholdGrid(rows: seq<ValidationRow>, k: Indicator, thresholds: seq<Amount>, direction: Direction)
    returns (r: Result<seq<Evaluation>>)
    ensures IsGrid(rows, k, thresholds, direction, r)
  {
    var seen: set<Amount> := {};
    for i := 0 to |thresholds|
      invariant AllFinite(thresholds[..i])
    {
      if thresholds[i].NonFinite? {
        assert thresholds[i] in thresholds;
        return InvalidThreshold;
      }
      seen := seen + {thresholds[i]};
      assert thresholds[..i + 1] == thresholds[..i] + [thresholds[i]];
    }
    assert thresholds[..|thresholds|] == thresholds;
    var evaluations: seq<Evaluation> := [];
    for i := 0 to |thresholds|
      invariant AllFinite(thresholds) && |evaluations| == i && (i > 0 ==> AllValid(rows))
      invariant forall j :: 0 <= j < i ==> evaluations[j] == Evaluate(View(rows, k), thresholds[j].value, direction)
    {
      assert thresholds[i] in thresholds;
      var one := EvaluateThreshold(rows, k, thresholds[i], direction);
      if !one.Ok? { return InvalidRows; }
      evaluations := evaluations + [one.value];
    }
    return Ok(evaluations);
  }

  /** Along an ascending grid recall and specificity move in opposite directions. */
  lemma GridIsMonotone(rows: seq<Row>, thresholds: seq<real>, direction: Direction, i: nat, j: nat)
    requires i <= j < |thresholds| && Sorted(thresholds, AtMost)
    ensures TradesOff(Evaluate(rows, thresholds[i], direction), Evaluate(rows, thresholds[j], direction), direction)
  {
    if i < j { assert AtMost(thresholds[i], thresholds[j]); }
    RecallAndSpecificityTradeOff(rows, thresholds[i], thresholds[j], direction);
  }

  // ----- Quantiles -----

  predicate AtMost(a: real, b: real) {
    a <= b
  }

  function Ceiling(x: real): int {
    if x == x.Floor as real then x.Floor else x.Floor + 1
  }

  predicate Inside(values: seq<real>, position: real) {
    0.0 <= position <= (|values| - 1) as real
  }

  /** The value at a position between two indices. */
  function At(values: seq<real>, position: real): real
    requires Inside(values, position)
  {
    var lower := position.Floor;
    var upper := Ceiling(position);
    if lower == upper then values[lower]
    else values[lower] + Scaled(values[upper] - values[lower], position - lower as real)
  }

  function Scaled(d: real, t: real): real {
    d * t
  }

  /** Where a probability falls among n sorted values. */
  function Position(n: nat, probability: real): (r: real)
    requires n > 0 && 0.0 <= probability <= 1.0
    ensures 0.0 <= r <= (n - 1) as real
  {
    PartOf((n - 1) as real, probability);
    Scaled((n - 1) as real, probability)
  }

  function Quantile(values: seq<real>, probability: real): Option<real>
    requires 0.0 <= probability <= 1.0
  {
    if values == [] then None
    else
      Some(At(values, Position(|values|, probability)))
  }

  /** A value between two sorted neighbours, however far along. */
  lemma Interpolated(a: real, b: real, t: real)
    requires a <= b && 0.0 <= t <= 1.0
    ensures a <= a + Scaled(b - a, t) <= b
  {
    PartOf(b - a, t);
  }

  lemma PartOf(d: real, t: real)
    requires 0.0 <= d && 0.0 <= t <= 1.0
    ensures 0.0 <= Scaled(d, t) <= d
  {
    assert d * (1.0 - t) >= 0.0;
    assert d * t == d - d * (1.0 - t);
  }

  lemma ScaledGrows(d: real, s: real, t: real)
    requires 0.0 <= d && s <= t
    ensures Scaled(d, s) <= Scaled(d, t)
  {
    assert d * (t - s) >= 0.0;
    assert d * t == d * s + d * (t - s);
  }

  lemma SortedPair(values: seq<real>, i: nat, j: nat)
    requires Sorted(values, AtMost) && i <= j < |values|
    ensures values[i] <= values[j]
  {
    if i < j { assert AtMost(values[i], values[j]); }
  }

  lemma AtIsBetween(values: seq<real>, position: real)
    requires Sorted(values, AtMost) && Inside(values, position)
    ensures values[position.Floor] <= At(values, position) <= values[Ceiling(position)]
  {
    var lower, upper := position.Floor, Ceiling(position);
    SortedPair(values, lower, upper);
    Interpolated(values[lower], values[upper], position - lower as real);
  }

  lemma AtSplits(values: seq<real>, position: real, i: nat)
    requires Sorted(values, AtMost) && Inside(values, position) && i < |values|
    ensures i as real <= position ==> values[i] <= At(values, position)
    ensures position <= i as real ==> At(values, position) <= values[i]
  {
    AtIsBetween(values, position);
    if i as real <= position { SortedPair(values, i, position.Floor); }
    if position <= i as real { SortedPair(values, Ceiling(position), i); }
  }

  lemma AtGrows(values: seq<real>, p: real, q: real)
    requires Sorted(values, AtMost) && Inside(values, p) && Inside(values, q) && p <= q
    ensures At(values, p) <= At(values, q)
  {
    var lower := p.Floor;
    if lower < q.Floor {
      AtSplits(values, p, lower + 1);
      AtSplits(values, q, lower + 1);
    } else if Ceiling(p) == lower {
      AtSplits(values, q, lower);
    } else {
      SortedPair(values, lower, lower + 1);
      ScaledGrows(values[lower + 1] - values[lower], p - lower as real, q - lower as real);
    }
  }

  /** The quantile separates the sorted values at its position. */
  lemma QuantileSplits(values: seq<real>, probability: real, i: nat)
    requires Sorted(values, AtMost) && i < |values| && 0.0 <= probability <= 1.0
    ensures i as real <= Position(|values|, probability) ==> values[i] <= Quantile(values, probability).value
    ensures Position(|values|, probability) <= i as real ==> Quantile(values, probability).value <= values[i]
  {
    AtSplits(values, Position(|values|, probability), i);
  }

  lemma PositionsGrow(n: nat, p: real, q: real)
    requires n > 0 && 0.0 <= p <= q <= 1.0
    ensures Position(n, p) <= Position(n, q)
  {
    ScaledGrows((n - 1) as real, p, q);
  }

  /** A greater probability never gives a smaller quantile. */
  lemma QuantileGrows(values: seq<real>, p: real, q: real)
    requires values != [] && Sorted(values, AtMost) && 0.0 <= p <= q <= 1.0
    ensures Quantile(values, p).value <= Quantile(values, q).value
  {
    PositionsGrow(|values|, p, q);
    AtGrows(values, Position(|values|, p), Position(|values|, q));
  }

  datatype Summary = Summary(caseN: nat, n: nat, missingN: nat,
    min: Option<real>, q1: Option<real>, median: Option<real>, q3: Option<real>, max: Option<real>)

  function Selected(rows: seq<Row>, outcome: Outcome): seq<Row> {
    Collect(rows, (row: Row) => if row.outcome == outcome then Some(row) else None)
  }

  function Values(rows: seq<Row>): seq<real> {
    Collect(rows, (row: Row) => row.value)
  }

  lemma {:induction false} ValuesAreFewer(rows: seq<Row>)
    ensures |Values(rows)| <= |rows|
  {
    if rows != [] { ValuesAreFewer(rows[1..]); }
  }

  /** The five numbers of sorted values. */
  function FiveNumbers(values: seq<real>, caseN: nat): Summary
    requires |values| <= caseN
  {
    Summary(caseN, |values|, caseN - |values|,
      if values == [] then None else Some(values[0]),
      Quantile(values, 0.25), Quantile(values, 0.5), Quantile(values, 0.75),
      if values == [] then None else Some(values[|values| - 1]))
  }

  function Summarize(rows: seq<Row>, outcome: Outcome): Summary {
    var selected := Selected(rows, outcome);
    ValuesAreFewer(selected);
    FiveNumbers(Sort(Values(selected), AtMost), |selected|)
  }

  predicate InOrder(s: Summary) {
    s.min.Some? && s.q1.Some? && s.median.Some? && s.q3.Some? && s.max.Some? &&
    s.min.value <= s.q1.value <= s.median.value <= s.q3.value <= s.max.value
  }

  lemma AtMostIsTotalOrder()
    ensures TotalOrder(AtMost)
  {
  }

  lemma FiveNumbersOfSorted(values: seq<real>, caseN: nat)
    requires Sorted(values, AtMost) && 0 < |values| <= caseN
    ensures InOrder(FiveNumbers(values, caseN))
  {
    QuantileSplits(values, 0.25, 0);
    QuantileGrows(values, 0.25, 0.5);
    QuantileGrows(values, 0.5, 0.75);
    QuantileSplits(values, 0.75, |values| - 1);
  }

  /** The five numbers are in order, and are there exactly when a value is. */
  lemma FiveNumbersAreOrdered(rows: seq<Row>, outcome: Outcome)
    ensures var s := Summarize(rows, outcome);
      if s.n == 0 then s.min == s.q1 == s.median == s.q3 == s.max == None else InOrder(s)
  {
    var found := Values(Selected(rows, outcome));
    AtMostIsTotalOrder();
    SortIsSorted(found, AtMost);
    ValuesAreFewer(Selected(rows, outcome));
    if found != [] { FiveNumbersOfSorted(Sort(found, AtMost), |Selected(rows, outcome)|); }
  }

  /** A quantile is interpolated between the sorted values at either side of its position. */
  lemma QuantileInterpolates(values: seq<real>, probability: real, k: nat, t: real)
    requires 0.0 <= probability <= 1.0 && k < |values| && 0.0 <= t < 1.0
    requires Scaled((|values| - 1) as real, probability) == k as real + t
    ensures t > 0.0 ==> k + 1 < |values|
    ensures Quantile(values, probability) == Some(if t == 0.0 then values[k] else values[k] + Scaled(values[k + 1] - values[k], t))
  {
    var position := Position(|values|, probability);
    assert position == k as real + t;
    PositionParts(position, k, t);
  }

  lemma PositionParts(position: real, k: nat, t: real)
    requires position == k as real + t && 0.0 <= t < 1.0
    ensures position.Floor == k && position - k as real == t && Ceiling(position) == if t == 0.0 then k else k + 1
  {
  }

  /** A value that a row of the outcome has. */
  ghost predicate IsValue(rows: seq<Row>, outcome: Outcome, v: real) {
    exists i :: 0 <= i < |rows| && rows[i].outcome == outcome && rows[i].value == Some(v)
  }

  lemma {:induction false} SelectedIs(rows: seq<Row>, outcome: Outcome)
    ensures Selected(rows, outcome) == Filter(rows, (r: Row) => r.outcome == outcome)
    ensures |Values(Selected(rows, outcome))| == |Filter(rows, (r: Row) => r.outcome == outcome && r.value.Some?)|
  {
    if rows != [] {
      SelectedIs(rows[1..], outcome);
      var rest := Selected(rows[1..], outcome);
      if rows[0].outcome == outcome {
        assert Selected(rows, outcome) == [rows[0]] + rest && ([rows[0]] + rest)[1..] == rest;
      } else {
        assert Selected(rows, outcome) == [] + rest == rest;
      }
    }
  }

  lemma {:induction false} ValuesHave(rows: seq<Row>, v: real)
    ensures v in Values(rows) <==> exists i :: 0 <= i < |rows| && rows[i].value == Some(v)
  {
    if rows != [] {
      ValuesHave(rows[1..], v);
      assert forall i :: 0 < i < |rows| ==> rows[i] == rows[1..][i - 1];
    }
  }

  lemma {:induction false} SelectedHas(rows: seq<Row>, outcome: Outcome, r: Row)
    ensures r in Selected(rows, outcome) <==> r in rows && r.outcome == outcome
  {
    if rows != [] { SelectedHas(rows[1..], outcome, r); }
  }

  lemma ValuesAre(rows: seq<Row>, outcome: Outcome, v: real)
    ensures v in Values(Selected(rows, outcome)) <==> IsValue(rows, outcome, v)
  {
    var chosen := Selected(rows, outcome);
    ValuesHave(chosen, v);
    if i :| 0 <= i < |chosen| && chosen[i].value == Some(v) { SelectedHas(rows, outcome, chosen[i]); }
    if i :| 0 <= i < |rows| && rows[i].outcome == outcome && rows[i].value == Some(v) {
      SelectedHas(rows, outcome, rows[i]);
      var k :| 0 <= k < |chosen| && chosen[k] == rows[i];
    }
  }

  /** How many rows a summary is of, and how many of them have no value. */
  lemma SummaryCounts(rows: seq<Row>, outcome: Outcome)
    ensures var s := Summarize(rows, outcome);
      && s.caseN == |Filter(rows, (r: Row) => r.outcome == outcome)| && s.missingN == s.caseN - s.n
      && s.n == |Filter(rows, (r: Row) => r.outcome == outcome && r.value.Some?)|
  {
    SelectedIs(rows, outcome);
  }

  /** The extremes of a summary are values of its rows, and no other value is beyond them. */
  lemma SummaryExtremes(rows: seq<Row>, outcome: Outcome)
    ensures var s := Summarize(rows, outcome);
      && (forall v :: IsValue(rows, outcome, v) ==> s.min.Some? && s.max.Some? && s.min.value <= v <= s.max.value)
      && (s.min.Some? ==> IsValue(rows, outcome, s.min.value)) && (s.max.Some? ==> IsValue(rows, outcome, s.max.value))
  {
    var found := Values(Selected(rows, outcome));
    ValuesAreFewer(Selected(rows, outcome));
    forall v ensures v in found <==> IsValue(rows, outcome, v) { ValuesAre(rows, outcome, v); }
    EndsOfValues(found);
  }

  lemma EndsOfValues(found: seq<real>)
    ensures var values := Sort(found, AtMost);
      && (values == [] <==> found == [])
      && (values != [] ==> values[0] in found && values[|values| - 1] in found)
      && forall v :: v in found ==> values[0] <= v <= values[|values| - 1]
  {
    var values := Sort(found, AtMost);
    AtMostIsTotalOrder();
    SortIsSorted(found, AtMost);
    SameElements(values, found);
    forall v | v in found ensures values[0] <= v <= values[|values| - 1] {
      var k :| 0 <= k < |values| && values[k] == v;
      SortedPair(values, 0, k);
      SortedPair(values, k, |values| - 1);
    }
  }

  /** The quartiles are quantiles of the rows' values in order. */
  lemma SummaryQuartiles(rows: seq<Row>, outcome: Outcome) returns (values: seq<real>)
    ensures Sorted(values, AtMost) && multiset(values) == multiset(Values(Selected(rows, outcome)))
    ensures var s := Summarize(rows, outcome);
      s.q1 == Quantile(values, 0.25) && s.median == Quantile(values, 0.5) && s.q3 == Quantile(values, 0.75)
  {
    values := Sort(Values(Selected(rows, outcome)), AtMost);
    AtMostIsTotalOrder();
    SortIsSorted(Values(Selected(rows, outcome)), AtMost);
    ValuesAreFewer(Selected(rows, outcome));
  }

  // ----- Row order -----

  lemma {:induction false} CountIsCollected(rows: seq<Row>, c: Class, threshold: real, direction: Direction)
    ensures Count(rows, c, threshold, direction) ==
            |Collect(rows, (row: Row) => if ClassOf(row, threshold, direction) == c then Some(row) else None)|
  {
    if rows != [] {
      var front, last := rows[..|rows| - 1], rows[|rows| - 1];
      CountIsCollected(front, c, threshold, direction);
      assert rows == front + [last];
      CollectConcat(front, [last], (row: Row) => if ClassOf(row, threshold, direction) == c then Some(row) else None);
    }
  }

  lemma CountOfPermutation(a: seq<Row>, b: seq<Row>, c: Class, threshold: real, direction: Direction)
    requires multiset(a) == multiset(b)
    ensures Count(a, c, threshold, direction) == Count(b, c, threshold, direction)
  {
    CountIsCollected(a, c, threshold, direction);
    CountIsCollected(b, c, threshold, direction);
    var one := (row: Row) => if ClassOf(row, threshold, direction) == c then Some(row) else None;
    CollectOfPermutation(a, b, one);
    SameElements(Collect(a, one), Collect(b, one));
  }

  /** A summary does not depend on the order of the rows. */
  lemma SummaryIgnoresOrder(a: seq<Row>, b: seq<Row>, outcome: Outcome)
    requires multiset(a) == multiset(b)
    ensures Summarize(a, outcome) == Summarize(b, outcome)
  {
    var chosen := (row: Row) => if row.outcome == outcome then Some(row) else None;
    CollectOfPermutation(a, b, chosen);
    SameElements(Selected(a, outcome), Selected(b, outcome));
    CollectOfPermutation(Selected(a, outcome), Selected(b, outcome), (row: Row) => row.value);
    AtMostIsTotalOrder();
    SortOfPermutation(Values(Selected(a, outcome)), Values(Selected(b, outcome)), AtMost);
  }

  /** Nor does an evaluation. */
  lemma EvaluationIgnoresOrder(a: seq<Row>, b: seq<Row>, threshold: real, direction: Direction)
    requires multiset(a) == multiset(b)
    ensures Evaluate(a, threshold, direction) == Evaluate(b, threshold, direction)
  {
    CountOfPermutation(a, b, TruePositive, threshold, direction);
    CountOfPermutation(a, b, FalsePositive, threshold, direction);
    CountOfPermutation(a, b, TrueNegative, threshold, direction);
    CountOfPermutation(a, b, FalseNegative, threshold, direction);
    CountOfPermutation(a, b, UncertainRow, threshold, direction);
    CountOfPermutation(a, b, MissingRow, threshold, direction);
  }
}
