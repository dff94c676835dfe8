/**
 * The loop over a sheet in packages/excel/src/machine-attendance.ts: grouping by identifier and
 * date, rows that cannot be grouped, sorting, and the duplicate count.
 */
module AttendanceSheet {
  import opened Wrappers
  import opened Text
  import opened Sorting
  import opened Attendance

  /** key: the identifier and the date around a NUL. */
  function Key(identifier: string, date: string): string {
    identifier + "\0" + date
  }

  lemma KeyHead(id: string, date: string)
    ensures id == "" ==> Key(id, date)[0] == '\0' && Key(id, date)[1..] == date
    ensures id != "" ==> Key(id, date)[0] == id[0] && Key(id, date)[1..] == Key(id[1..], date)
  {
  }

  lemma {:induction false} KeysDiffer(id: string, date: string, id2: string, date2: string)
    requires AllDigits(id) && AllDigits(id2)
    ensures Key(id, date) == Key(id2, date2) <==> id == id2 && date == date2
    decreases |id|
  {
    KeyHead(id, date);
    KeyHead(id2, date2);
    if id != "" && id2 != "" {
      KeysDiffer(id[1..], date, id2[1..], date2);
      assert id == [id[0]] + id[1..] && id2 == [id2[0]] + id2[1..];
      if id[0] == id2[0] && Key(id[1..], date) == Key(id2[1..], date2) {
        assert Key(id, date) == Key(id2, date2);
      }
    }
  }

  predicate Groupable(r: Row) {
    Present(r.identifier) && Present(r.date)
  }

  function KeyOf(r: Row): string
    requires Groupable(r)
  {
    Key(r.identifier.value, r.date.value)
  }

  // ---------- the specification ----------

  /** Rows are numbered from 2, below the header. */
  function Bases(sheet: seq<SheetRow>): seq<Row> {
    if sheet == [] then []
    else
      var front, last := Bases(sheet[..|sheet| - 1]), sheet[|sheet| - 1];
      if last.BlankRow? then front else front + [BaseRow(|sheet| + 1, last)]
  }

  /** The numbers of the rows that are not blank. */
  function Numbers(sheet: seq<SheetRow>): seq<nat> {
    if sheet == [] then []
    else Numbers(sheet[..|sheet| - 1]) + if sheet[|sheet| - 1].BlankRow? then [] else [|sheet| + 1]
  }

  function Keys(bases: seq<Row>): seq<string> {
    if bases == [] then []
    else
      var front, last := Keys(bases[..|bases| - 1]), bases[|bases| - 1];
      if !Groupable(last) || KeyOf(last) in front then front else front + [KeyOf(last)]
  }

  function RowsFor(bases: seq<Row>, k: string): seq<Row> {
    if bases == [] then []
    else
      var front, last := RowsFor(bases[..|bases| - 1], k), bases[|bases| - 1];
      if Groupable(last) && KeyOf(last) == k then front + [last] else front
  }

  function Standalone(bases: seq<Row>): seq<Row> {
    if bases == [] then []
    else Standalone(bases[..|bases| - 1]) + if Groupable(bases[|bases| - 1]) then [] else [bases[|bases| - 1]]
  }

  lemma {:induction false} KeysHaveRows(bases: seq<Row>)
    ensures forall k :: k in Keys(bases) <==> RowsFor(bases, k) != []
    ensures forall i, j :: 0 <= i < j < |Keys(bases)| ==> Keys(bases)[i] != Keys(bases)[j]
  {
    if bases != [] { KeysHaveRows(bases[..|bases| - 1]); }
  }

  /** One row per key, in order of first appearance: a plain group-by. */
  ghost function GroupRows(bases: seq<Row>): (r: seq<Row>)
    ensures |r| == |Keys(bases)|
  {
    KeysHaveRows(bases);
    seq(|Keys(bases)|, i requires 0 <= i < |Keys(bases)| => MergeAll(RowsFor(bases, Keys(bases)[i])))
  }

  /** The comparison of the final sort. */
  predicate RowLe(a: Row, b: Row) {
    var da, db := if a.date.Some? then a.date.value else "9999-99-99", if b.date.Some? then b.date.value else "9999-99-99";
    var ia, ib := if a.identifier.Some? then a.identifier.value else "", if b.identifier.Some? then b.identifier.value else "";
    if da != db then LexLe(da, db)
    else if ia != ib then LexLe(ia, ib)
    else a.sourceRows == [] || (b.sourceRows != [] && a.sourceRows[0] <= b.sourceRows[0])
  }

  lemma RowLeIsTotal(a: Row, b: Row)
    ensures RowLe(a, b) || RowLe(b, a)
  {
    LexIsTotalOrder();
  }

  lemma RowLeIsTransitive(a: Row, b: Row, c: Row)
    requires RowLe(a, b) && RowLe(b, c)
    ensures RowLe(a, c)
  {
    LexIsTotalOrder();
  }

  lemma RowOrder()
    ensures TotalPreorder(RowLe)
  {
    forall a, b ensures RowLe(a, b) || RowLe(b, a) { RowLeIsTotal(a, b); }
    forall a, b, c | RowLe(a, b) && RowLe(b, c) ensures RowLe(a, c) { RowLeIsTransitive(a, b, c); }
  }

  ghost function Output(bases: seq<Row>): seq<Row> {
    Sort(GroupRows(bases) + Standalone(bases), RowLe)
  }

  // ---------- every row once ----------

  function Flatten(rows: seq<Row>): seq<nat> {
    if rows == [] then [] else rows[0].sourceRows + Flatten(rows[1..])
  }

  lemma {:induction false} FlattenConcat(a: seq<Row>, b: seq<Row>)
    ensures Flatten(a + b) == Flatten(a) + Flatten(b)
  {
    if a == [] {
      assert a + b == b;
    } else {
      assert (a + b)[1..] == a[1..] + b;
      FlattenConcat(a[1..], b);
    }
  }

  lemma {:induction false} FlattenInsert(x: Row, xs: seq<Row>)
    ensures multiset(Flatten(Insert(x, xs, RowLe))) == multiset(x.sourceRows) + multiset(Flatten(xs))
  {
    if xs != [] && !RowLe(x, xs[0]) {
      FlattenInsert(x, xs[1..]);
      assert Insert(x, xs, RowLe)[1..] == Insert(x, xs[1..], RowLe);
    } else {
      assert ([x] + xs)[1..] == xs;
      if xs == [] { assert [x] + [] == [x]; }
    }
  }

  lemma {:induction false} FlattenSort(xs: seq<Row>)
    ensures multiset(Flatten(Sort(xs, RowLe))) == multiset(Flatten(xs))
  {
    if xs != [] {
      FlattenSort(xs[1..]);
      FlattenInsert(xs[0], Sort(xs[1..], RowLe));
    }
  }

  lemma FlattenUpdate(rows: seq<Row>, i: nat, r: Row, extra: seq<nat>)
    requires i < |rows| && r.sourceRows == rows[i].sourceRows + extra
    ensures multiset(Flatten(rows[i := r])) == multiset(Flatten(rows)) + multiset(extra)
  {
    var a, b := rows[..i], rows[i + 1..];
    assert rows == a + ([rows[i]] + b) && rows[i := r] == a + ([r] + b);
    FlattenConcat(a, [rows[i]] + b);
    FlattenConcat(a, [r] + b);
    assert ([rows[i]] + b)[1..] == b && ([r] + b)[1..] == b;
  }

  /** Every base row carries exactly its own evidence. */
  ghost predicate Singles(bases: seq<Row>) {
    forall i :: 0 <= i < |bases| ==> |bases[i].evidence| == 1 && bases[i].sourceRows == SourceRows(bases[i].evidence)
  }

  lemma {:induction false} BasesAreSingle(sheet: seq<SheetRow>)
    ensures Singles(Bases(sheet)) && |Bases(sheet)| == |Numbers(sheet)|
    ensures Flatten(Bases(sheet)) == Numbers(sheet)
  {
    if sheet != [] {
      BasesAreSingle(sheet[..|sheet| - 1]);
      var last := sheet[|sheet| - 1];
      if last.DataRow? {
        var front := Bases(sheet[..|sheet| - 1]);
        assert Bases(sheet) == front + [BaseRow(|sheet| + 1, last)];
        FlattenConcat(front, [BaseRow(|sheet| + 1, last)]);
        BaseIsSingle(|sheet| + 1, last);
      }
    }
  }

  lemma BaseIsSingle(number: nat, last: SheetRow)
    requires last.DataRow?
    ensures var b := BaseRow(number, last);
      |b.evidence| == 1 && b.sourceRows == SourceRows(b.evidence) == [number] == Flatten([b])
  {
    var b := BaseRow(number, last);
    assert SourceRows(b.evidence) == [number];
    assert Flatten([b]) == b.sourceRows + Flatten([b][1..]);
  }

  /** The numbers are those of the data rows, each once, in order. */
  lemma {:induction false} NumbersOfDataRows(sheet: seq<SheetRow>)
    ensures forall n :: n in Numbers(sheet) <==> 2 <= n <= |sheet| + 1 && sheet[n - 2].DataRow?
    ensures forall i, j :: 0 <= i < j < |Numbers(sheet)| ==> Numbers(sheet)[i] < Numbers(sheet)[j]
  {
    if sheet != [] {
      var front := sheet[..|sheet| - 1];
      NumbersOfDataRows(front);
      assert forall k :: 0 <= k < |front| ==> front[k] == sheet[k];
      assert forall i :: 0 <= i < |Numbers(front)| ==> Numbers(front)[i] in Numbers(front);
    }
  }

  lemma SourceRowsConcat(a: seq<Evidence>, b: seq<Evidence>)
    ensures SourceRows(a + b) == SourceRows(a) + SourceRows(b)
  {
  }

  lemma FlattenOne(r: Row)
    ensures Flatten([r]) == r.sourceRows
  {
    assert [r][1..] == [];
  }

  lemma OneMore(mine: seq<Row>, last: Row)
    requires last.sourceRows == SourceRows(last.evidence)
    ensures MergeAll(mine + [last]).sourceRows == SourceRows(AllEvidence(mine)) + last.sourceRows
  {
    assert (mine + [last])[..|mine|] == mine;
    SourceRowsConcat(AllEvidence(mine), last.evidence);
  }

  /** What one more groupable row does to the groups. */
  lemma GroupStep(front: seq<Row>, last: Row)
    requires Groupable(last)
    ensures var bases := front + [last]; var k := KeyOf(last);
            && RowsFor(bases, k) == RowsFor(front, k) + [last]
            && (forall j :: j != k ==> RowsFor(bases, j) == RowsFor(front, j))
            && Keys(bases) == (if k in Keys(front) then Keys(front) else Keys(front) + [k])
  {
    assert (front + [last])[..|front|] == front;
  }

  /** Adding one groupable row extends the group it belongs to. */
  lemma GroupGrows(front: seq<Row>, last: Row)
    requires Groupable(last) && last.sourceRows == SourceRows(last.evidence)
    ensures multiset(Flatten(GroupRows(front + [last]))) == multiset(Flatten(GroupRows(front))) + multiset(last.sourceRows)
  {
    var k, keys := KeyOf(last), Keys(front);
    var before, after := GroupRows(front), GroupRows(front + [last]);
    var mine := RowsFor(front, k);
    GroupStep(front, last);
    KeysHaveRows(front);
    OneMore(mine, last);
    if k in keys {
      var i :| 0 <= i < |keys| && keys[i] == k;
      GroupUpdated(front, last, i);
      FlattenUpdate(before, i, after[i], last.sourceRows);
    } else {
      var r := MergeAll(mine + [last]);
      GroupAppended(front, last);
      FlattenConcat(before, [r]);
      FlattenOne(r);
    }
  }

  lemma GroupUpdated(front: seq<Row>, last: Row, i: nat)
    requires Groupable(last) && i < |Keys(front)| && Keys(front)[i] == KeyOf(last) && RowsFor(front, KeyOf(last)) != []
    ensures GroupRows(front + [last]) == GroupRows(front)[i := MergeAll(RowsFor(front, KeyOf(last)) + [last])]
  {
    GroupStep(front, last);
    KeysHaveRows(front);
  }

  lemma GroupAppended(front: seq<Row>, last: Row)
    requires Groupable(last) && KeyOf(last) !in Keys(front)
    ensures GroupRows(front + [last]) == GroupRows(front) + [MergeAll(RowsFor(front, KeyOf(last)) + [last])]
  {
    GroupStep(front, last);
    var before, after := GroupRows(front), GroupRows(front + [last]);
    forall i | 0 <= i < |before| ensures after[i] == before[i] { GroupKept(front, last, i); }
    OneAppended(before, after);
  }

  lemma GroupKept(front: seq<Row>, last: Row, i: nat)
    requires Groupable(last) && KeyOf(last) !in Keys(front) && i < |Keys(front)|
    ensures i < |GroupRows(front + [last])| && GroupRows(front + [last])[i] == GroupRows(front)[i]
  {
    GroupStep(front, last);
    assert Keys(front)[i] in Keys(front) && Keys(front + [last])[i] == Keys(front)[i];
  }

  lemma OneAppended(before: seq<Row>, after: seq<Row>)
    requires |after| == |before| + 1 && forall i :: 0 <= i < |before| ==> after[i] == before[i]
    ensures after == before + [after[|before|]]
  {
  }

  ghost predicate HeldOnce(bases: seq<Row>) {
    multiset(Flatten(GroupRows(bases))) + multiset(Flatten(Standalone(bases))) == multiset(Flatten(bases))
  }

  lemma FlattenOneMore(front: seq<Row>, last: Row)
    ensures Flatten(front + [last]) == Flatten(front) + last.sourceRows
    ensures Standalone(front + [last]) == if Groupable(last) then Standalone(front) else Standalone(front) + [last]
  {
    FlattenConcat(front, [last]);
    FlattenOne(last);
    assert (front + [last])[..|front|] == front;
  }

  lemma HeldOnceStep(front: seq<Row>, last: Row, all: seq<Row>)
    requires HeldOnce(front) && last.sourceRows == SourceRows(last.evidence) && all == front + [last]
    ensures HeldOnce(all)
  {
    FlattenOneMore(front, last);
    if Groupable(last) {
      GroupGrows(front, last);
      MultisetSwap(multiset(Flatten(GroupRows(front))), multiset(last.sourceRows), multiset(Flatten(Standalone(front))));
    } else {
      SameGroups(front, last);
      FlattenOneMore(Standalone(front), last);
    }
  }

  lemma MultisetSwap(a: multiset<nat>, b: multiset<nat>, c: multiset<nat>)
    ensures a + b + c == a + c + b
  {
  }

  lemma NothingHeld(bases: seq<Row>)
    ensures HeldOnce(bases[..0])
  {
    assert bases[..0] == [];
  }

  lemma LastOfPrefix(bases: seq<Row>, n: nat) returns (front: seq<Row>, last: Row, all: seq<Row>)
    requires n < |bases|
    ensures front == bases[..n] && last == bases[n] && all == bases[..n + 1] && all == front + [last]
  {
    front, last, all := bases[..n], bases[n], bases[..n + 1];
  }

  lemma HeldOnceNext(bases: seq<Row>, n: nat)
    requires n < |bases| && bases[n].sourceRows == SourceRows(bases[n].evidence) && HeldOnce(bases[..n])
    ensures HeldOnce(bases[..n + 1])
  {
    var front, last, all := LastOfPrefix(bases, n);
    HeldOnceStep(front, last, all);
  }

  lemma {:induction false} GroupsHoldEachOnce(bases: seq<Row>, n: nat)
    requires Singles(bases) && n <= |bases|
    ensures HeldOnce(bases[..n])
  {
    if n == 0 {
      NothingHeld(bases);
    } else {
      GroupsHoldEachOnce(bases, n - 1);
      HeldOnceNext(bases, n - 1);
    }
  }

  lemma SameGroups(front: seq<Row>, last: Row)
    requires !Groupable(last)
    ensures GroupRows(front + [last]) == GroupRows(front)
  {
    var bases := front + [last];
    assert bases[..|bases| - 1] == front;
    assert forall k :: RowsFor(bases, k) == RowsFor(front, k);
  }

  /** Each non-blank sheet row appears exactly once in exactly one output row, and nothing else does. */
  lemma EverySheetRowOnce(sheet: seq<SheetRow>)
    ensures multiset(Flatten(Output(Bases(sheet)))) == multiset(Numbers(sheet))
  {
    BasesAreSingle(sheet);
    GroupsHoldEachOnce(Bases(sheet), |Bases(sheet)|);
    assert Bases(sheet)[..|Bases(sheet)|] == Bases(sheet);
    FlattenConcat(GroupRows(Bases(sheet)), Standalone(Bases(sheet)));
    FlattenSort(GroupRows(Bases(sheet)) + Standalone(Bases(sheet)));
  }

  // ---------- the shape of the output ----------

  lemma {:induction false} RowsForHaveKey(bases: seq<Row>, k: string)
    ensures forall i :: 0 <= i < |RowsFor(bases, k)| ==>
      Groupable(RowsFor(bases, k)[i]) && KeyOf(RowsFor(bases, k)[i]) == k && RowsFor(bases, k)[i] in bases
  {
    if bases != [] { RowsForHaveKey(bases[..|bases| - 1], k); }
  }

  lemma {:induction false} BasesHaveDigits(sheet: seq<SheetRow>)
    ensures forall r :: r in Bases(sheet) && r.identifier.Some? ==> AllDigits(r.identifier.value)
  {
    if sheet != [] { BasesHaveDigits(sheet[..|sheet| - 1]); }
  }

  /** No two merged rows share identifier and date. */
  lemma GroupsAreDistinct(sheet: seq<SheetRow>)
    ensures var g := GroupRows(Bases(sheet));
            (forall i :: 0 <= i < |g| ==> Groupable(g[i])) &&
            (forall i, j :: 0 <= i < j < |g| ==> (g[i].identifier, g[i].date) != (g[j].identifier, g[j].date))
  {
    var bases := Bases(sheet);
    var g, keys := GroupRows(bases), Keys(bases);
    KeysHaveRows(bases);
    BasesHaveDigits(sheet);
    forall i | 0 <= i < |g| ensures Groupable(g[i]) && KeyOf(g[i]) == keys[i] {
      RowsForHaveKey(bases, keys[i]);
      assert RowsFor(bases, keys[i]) != [];
    }
  }

  /** The output is sorted, and a permutation of the merged and the standalone rows. */
  lemma OutputIsSorted(bases: seq<Row>)
    ensures Sorted(Output(bases), RowLe)
    ensures multiset(Output(bases)) == multiset(GroupRows(bases) + Standalone(bases))
  {
    RowOrder();
    SortIsSorted(GroupRows(bases) + Standalone(bases), RowLe);
  }

  /** The reduction over output rows that merged more than one source row. */
  function DuplicateRows(rows: seq<Row>): nat {
    if rows == [] then 0 else (if |rows[0].sourceRows| > 1 then |rows[0].sourceRows| - 1 else 0) + DuplicateRows(rows[1..])
  }

  lemma {:induction false} DuplicatesAreTheDifference(rows: seq<Row>)
    requires forall i :: 0 <= i < |rows| ==> rows[i].sourceRows != []
    ensures DuplicateRows(rows) == |Flatten(rows)| - |rows|
  {
    if rows != [] { DuplicatesAreTheDifference(rows[1..]); }
  }

  lemma {:induction false} EvidenceIsNotEmpty(rows: seq<Row>)
    requires rows != [] && forall i :: 0 <= i < |rows| ==> |rows[i].evidence| == 1
    ensures |AllEvidence(rows)| == |rows|
  {
    if |rows| > 1 { EvidenceIsNotEmpty(rows[..|rows| - 1]); }
  }

  lemma {:induction false} StandaloneAreBases(bases: seq<Row>)
    ensures forall r :: r in Standalone(bases) ==> r in bases
  {
    if bases != [] { StandaloneAreBases(bases[..|bases| - 1]); }
  }

  lemma OutputRowsHaveSources(sheet: seq<SheetRow>)
    ensures var o := Output(Bases(sheet)); forall i :: 0 <= i < |o| ==> o[i].sourceRows != []
  {
    var bases := Bases(sheet);
    var parts, o := GroupRows(bases) + Standalone(bases), Output(bases);
    BasesAreSingle(sheet);
    KeysHaveRows(bases);
    StandaloneAreBases(bases);
    SameElements(o, parts);
    forall i | 0 <= i < |GroupRows(bases)| ensures GroupRows(bases)[i].sourceRows != [] {
      RowsForHaveKey(bases, Keys(bases)[i]);
      EvidenceIsNotEmpty(RowsFor(bases, Keys(bases)[i]));
    }
    forall i | 0 <= i < |o| ensures o[i].sourceRows != [] { assert o[i] in parts; }
  }

  /** The reported duplicate count is the number of source rows minus the number of output rows. */
  lemma DuplicateCount(sheet: seq<SheetRow>)
    ensures DuplicateRows(Output(Bases(sheet))) == |Numbers(sheet)| - |Output(Bases(sheet))|
  {
    OutputRowsHaveSources(sheet);
    EverySheetRowOnce(sheet);
    DuplicatesOf(Output(Bases(sheet)), Numbers(sheet));
  }

  lemma DuplicatesOf(rows: seq<Row>, numbers: seq<nat>)
    requires forall i :: 0 <= i < |rows| ==> rows[i].sourceRows != []
    requires multiset(Flatten(rows)) == multiset(numbers)
    ensures DuplicateRows(rows) == |numbers| - |rows|
  {
    DuplicatesAreTheDifference(rows);
    SameElements(Flatten(rows), numbers);
  }

  // ---------- the loop ----------

  /** The map of the loop, with its keys in insertion order, after the given rows. */
  ghost predicate Grouped(bases: seq<Row>, keys: seq<string>, groups: map<string, Row>) {
    keys == Keys(bases) && Holds(keys, groups, k => Folded(RowsFor(bases, k)))
  }

  /** A map with the given keys, and for each what a function gives. */
  ghost predicate Holds(keys: seq<string>, groups: map<string, Row>, f: string -> Option<Row>) {
    (forall k :: k in groups <==> k in keys) && forall k :: k in groups ==> Some(groups[k]) == f(k)
  }

  lemma FoldedStep(mine: seq<Row>, base: Row)
    ensures Folded(mine + [base]) == Some(MergeRows(Folded(mine), base))
  {
    assert (mine + [base])[..|mine|] == mine;
  }

  lemma Ungrouped(front: seq<Row>, base: Row, keys: seq<string>, groups: map<string, Row>)
    requires Grouped(front, keys, groups) && !Groupable(base)
    ensures Grouped(front + [base], keys, groups) && Standalone(front + [base]) == Standalone(front) + [base]
  {
    assert (front + [base])[..|front|] == front;
    assert forall k :: RowsFor(front + [base], k) == RowsFor(front, k);
  }

  lemma GroupedStep(front: seq<Row>, base: Row, keys: seq<string>, groups: map<string, Row>, merged: Row)
    requires Grouped(front, keys, groups) && Groupable(base)
    requires merged == MergeRows(if KeyOf(base) in groups then Some(groups[KeyOf(base)]) else None, base)
    ensures var k := KeyOf(base);
      Grouped(front + [base], if k in groups then keys else keys + [k], groups[k := merged]) &&
      Standalone(front + [base]) == Standalone(front)
  {
    var k := KeyOf(base);
    GroupStep(front, base);
    KeysHaveRows(front);
    FoldedStep(RowsFor(front, k), base);
    if k !in groups { assert RowsFor(front, k) == []; }
    GroupedUpdate(front, front + [base], keys, groups, k, merged);
    StandaloneStep(front, base);
  }

  lemma StandaloneStep(front: seq<Row>, base: Row)
    requires Groupable(base)
    ensures Standalone(front + [base]) == Standalone(front)
  {
    assert (front + [base])[..|front|] == front;
    assert Standalone(front) + [] == Standalone(front);
  }

  lemma GroupedUpdate(front: seq<Row>, bases: seq<Row>, keys: seq<string>, groups: map<string, Row>, k: string, merged: Row)
    requires Grouped(front, keys, groups)
    requires Keys(bases) == if k in keys then keys else keys + [k]
    requires forall j :: j != k ==> RowsFor(bases, j) == RowsFor(front, j)
    requires Folded(RowsFor(bases, k)) == Some(merged)
    ensures Grouped(bases, if k in groups then keys else keys + [k], groups[k := merged])
  {
    MapUpdated(keys, groups, k, merged, k => Folded(RowsFor(front, k)), k => Folded(RowsFor(bases, k)));
  }

  /** Setting one key of a map that holds what a function gives, when the function changed only there. */
  lemma MapUpdated(keys: seq<string>, groups: map<string, Row>, k: string, merged: Row,
      was: string -> Option<Row>, now: string -> Option<Row>)
    requires Holds(keys, groups, was)
    requires (forall j :: j != k ==> now(j) == was(j)) && now(k) == Some(merged)
    ensures Holds(if k in groups then keys else keys + [k], groups[k := merged], now)
  {
  }

  lemma GroupedFinish(bases: seq<Row>, keys: seq<string>, groups: map<string, Row>)
    requires Grouped(bases, keys, groups)
    ensures |keys| == |GroupRows(bases)| && forall i :: 0 <= i < |keys| ==>
      keys[i] in groups && groups[keys[i]] == GroupRows(bases)[i]
  {
    KeysHaveRows(bases);
    forall i | 0 <= i < |keys| ensures keys[i] in groups && groups[keys[i]] == GroupRows(bases)[i] {
      IncrementalIsBatch(RowsFor(bases, keys[i]));
    }
  }

  /** The loop over the rows below the header. */
  method GroupSheet(sheet: seq<SheetRow>)
    returns (sourceRows: nat, keys: seq<string>, groups: map<string, Row>, standalone: seq<Row>)
    ensures sourceRows == |Bases(sheet)| && standalone == Standalone(Bases(sheet))
    ensures Grouped(Bases(sheet), keys, groups)
  {
    sourceRows, keys, groups, standalone := 0, [], map[], [];
    ghost var bases: seq<Row> := [];
    for i := 0 to |sheet|
      invariant bases == Bases(sheet[..i]) && sourceRows == |bases|
      invariant Grouped(bases, keys, groups) && standalone == Standalone(bases)
    {
      assert sheet[..i + 1][..i] == sheet[..i];
      if sheet[i].DataRow? {
        sourceRows := sourceRows + 1;
        var base := BaseRow(i + 2, sheet[i]);
        if !Groupable(base) {
          Ungrouped(bases, base, keys, groups);
          standalone := standalone + [base];
        } else {
          var k := KeyOf(base);
          var merged := MergeRows(if k in groups then Some(groups[k]) else None, base);
          GroupedStep(bases, base, keys, groups, merged);
          if k !in groups { keys := keys + [k]; }
          groups := groups[k := merged];
        }
        bases := bases + [base];
      }
    }
    assert sheet[..|sheet|] == sheet;
  }
}
