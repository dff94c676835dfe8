/**
 * What every run of deploy and rollback keeps, whatever fails and wherever the process dies:
 * the installation is wholly old or wholly new, or an intact snapshot of it is on disk.
 */
module DeploymentSafety {
  import opened Wrappers
  import opened UnitText
  import opened Deployment

  // ---------- running lists of operations ----------

  /** inv survives this operation, and the service it leaves stopped if it is a failed restart. */
  ghost predicate Survives(op: Op, w: World, inv: World -> bool) {
    inv(Halted(op, w)) && (Do(op, w).Some? ==> inv(Do(op, w).value))
  }

  ghost predicate Closed(ops: seq<Op>, inv: World -> bool) {
    forall i, w {:trigger Survives(ops[i], w, inv)} | 0 <= i < |ops| && inv(w) :: Survives(ops[i], w, inv)
  }

  lemma ClosedTail(ops: seq<Op>, inv: World -> bool)
    requires ops != [] && Closed(ops, inv)
    ensures Closed(ops[1..], inv)
  {
    forall i, w | 0 <= i < |ops[1..]| && inv(w)
      ensures Survives(ops[1..][i], w, inv)
    {
      assert ops[1..][i] == ops[i + 1];
      assert Survives(ops[i + 1], w, inv);
    }
  }

  lemma {:induction false} ExecKeeps(ops: seq<Op>, w: World, faults: seq<Fault>, inv: World -> bool)
    requires inv(w) && Closed(ops, inv)
    ensures inv(Exec(ops, w, faults).w)
  {
    if ops != [] {
      var (outcome, v) := Attempt(ops[0], w, Next(faults));
      assert Survives(ops[0], w, inv);
      if outcome == Ok {
        ClosedTail(ops, inv);
        ExecKeeps(ops[1..], v, Later(faults), inv);
      }
    }
  }

  lemma {:induction false} ExecConcat(first: seq<Op>, second: seq<Op>, w: World, faults: seq<Fault>)
    ensures Exec(first + second, w, faults) == Then(Exec(first, w, faults), second)
  {
    if first == [] {
      assert first + second == second;
    } else {
      assert (first + second)[1..] == first[1..] + second;
      var (outcome, v) := Attempt(first[0], w, Next(faults));
      if outcome == Ok { ExecConcat(first[1..], second, v, Later(faults)); }
    }
  }

  /** The states that a list of operations passed through when none of them was disturbed. */
  lemma {:induction false} Path(ops: seq<Op>, w: World, faults: seq<Fault>) returns (path: seq<World>)
    requires Exec(ops, w, faults).outcome == Ok
    ensures |path| == |ops| + 1 && path[0] == w && path[|ops|] == Exec(ops, w, faults).w
    ensures forall i :: 0 <= i < |ops| ==> Do(ops[i], path[i]) == Some(path[i + 1])
  {
    if ops == [] {
      path := [w];
    } else {
      var v := Do(ops[0], w).value;
      var rest := Path(ops[1..], v, Later(faults));
      path := [w] + rest;
      forall i | 0 <= i < |ops| ensures Do(ops[i], path[i]) == Some(path[i + 1]) {
        if i > 0 { assert ops[i] == ops[1..][i - 1] && path[i] == rest[i - 1]; }
      }
    }
  }

  lemma ExecSingle(op: Op, w: World, faults: seq<Fault>)
    ensures Exec([op], w, faults) == Result(Attempt(op, w, Next(faults)).0, Attempt(op, w, Next(faults)).1, Later(faults))
  {
    assert [op][1..] == [];
  }

  lemma {:induction false} ExecOutcome(ops: seq<Op>, w: World, faults: seq<Fault>)
    ensures Exec(ops, w, faults).outcome in {Ok, Raised, Crashed}
  {
    if ops != [] {
      var (outcome, v) := Attempt(ops[0], w, Next(faults));
      if outcome == Ok { ExecOutcome(ops[1..], v, Later(faults)); }
    }
  }

  // ---------- the invariant ----------

  ghost predicate Whole(tx: Tx, s: Snapshot) {
    s.unit.Some? && s.copy.Some? && (tx.hadRecord ==> s.record.Some?)
  }

  ghost function Saved(tx: Tx, s: Snapshot): Triple
    requires Whole(tx, s)
  {
    Triple(s.unit.value, s.copy.value, tx.previousSpa)
  }

  /** The marker of tx is on disk, and so is its snapshot s. */
  ghost predicate Guarded(w: World, tx: Tx, s: Snapshot) {
    w.active.Some? && w.active.value.tx == tx && tx.dir in w.snapshots && w.snapshots[tx.dir] == s &&
    (tx.deploys ==> tx.previousRelease in w.releases)
  }

  /**
   * Without a marker the installation is wholly `base`. With one, its snapshot is intact and
   * is a snapshot of `base`, and for a deployment the record it rolls back to is retained.
   */
  ghost predicate Recoverable(w: World, base: Triple) {
    match w.active
    case None => TripleOf(w) == base
    case Some(m) =>
      m.tx.dir in w.snapshots && Guarded(w, m.tx, w.snapshots[m.tx.dir]) &&
      Whole(m.tx, w.snapshots[m.tx.dir]) && Saved(m.tx, w.snapshots[m.tx.dir]) == base
  }

  /** Operations that leave the marker and the snapshot of tx alone. */
  predicate Guards(op: Op, tx: Tx) {
    match op
    case MakeDir(_) => false
    case SnapUnit(_) => false
    case SnapCopy(_) => false
    case SnapRecord(_) => false
    case Mark(t, _) => t == tx
    case Retire(_) => false
    case _ => true
  }

  predicate AllGuard(ops: seq<Op>, tx: Tx) {
    forall i :: 0 <= i < |ops| ==> Guards(ops[i], tx)
  }

  lemma GuardSurvives(op: Op, w: World, inv: World -> bool, tx: Tx, s: Snapshot)
    requires Guards(op, tx) && inv(w) && forall v :: inv(v) <==> Guarded(v, tx, s)
    ensures Survives(op, w, inv)
  {
  }

  lemma GuardedThroughout(ops: seq<Op>, w: World, faults: seq<Fault>, tx: Tx, s: Snapshot)
    requires AllGuard(ops, tx) && Guarded(w, tx, s)
    ensures Guarded(Exec(ops, w, faults).w, tx, s)
  {
    var inv := v => Guarded(v, tx, s);
    forall i, v | 0 <= i < |ops| && inv(v) ensures Survives(ops[i], v, inv) { GuardSurvives(ops[i], v, inv, tx, s); }
    ExecKeeps(ops, w, faults, inv);
  }

  /** As GuardedThroughout, for a list that only runs if everything before it succeeded. */
  lemma GuardedThen(r: Result, ops: seq<Op>, tx: Tx, s: Snapshot)
    requires AllGuard(ops, tx) && Guarded(r.w, tx, s)
    ensures Guarded(Then(r, ops).w, tx, s)
  {
    if r.outcome == Ok { GuardedThroughout(ops, r.w, r.faults, tx, s); }
  }

  // ---------- taking the snapshot ----------

  /** Nothing but snapshots and retained records differs from w. */
  ghost predicate Untouched(w: World, v: World) {
    v == w.(snapshots := v.snapshots, releases := v.releases) && w.releases.Keys <= v.releases.Keys
  }

  ghost function SnapshotOf(w: World, tx: Tx): Snapshot {
    Snapshot(Some(w.unit), Some(w.copy), if tx.hadRecord then w.current else None)
  }

  lemma FilesUntouched(ops: seq<Op>, w: World, faults: seq<Fault>)
    requires forall i :: 0 <= i < |ops| ==> ops[i].MakeDir? || ops[i].SnapUnit? || ops[i].SnapCopy? || ops[i].SnapRecord?
    ensures var r := Exec(ops, w, faults); Untouched(w, r.w) && r.w.releases == w.releases
  {
    ExecKeeps(ops, w, faults, v => Untouched(w, v) && v.releases == w.releases);
  }

  lemma TakeFiles(w: World, tx: Tx, faults: seq<Fault>)
    requires tx.hadRecord == w.current.Some?
    ensures var ops := [MakeDir(tx.dir), SnapUnit(tx.dir), SnapCopy(tx.dir)] +
      (if tx.hadRecord then [SnapRecord(tx.dir)] else []);
            var r := Exec(ops, w, faults);
            Untouched(w, r.w) && r.w.releases == w.releases &&
            (r.outcome == Ok ==> tx.dir in r.w.snapshots && r.w.snapshots[tx.dir] == SnapshotOf(w, tx))
  {
    var tail := if tx.hadRecord then [SnapRecord(tx.dir)] else [];
    var ops := [MakeDir(tx.dir), SnapUnit(tx.dir), SnapCopy(tx.dir)] + tail;
    FilesUntouched(ops, w, faults);
    if Exec(ops, w, faults).outcome == Ok {
      var p := Path(ops, w, faults);
      assert Do(ops[0], p[0]) == Some(p[1]) && Do(ops[1], p[1]) == Some(p[2]) && Do(ops[2], p[2]) == Some(p[3]);
      if tx.hadRecord { assert Do(ops[3], p[3]) == Some(p[4]); }
    }
  }

  /** The snapshot is complete before the marker exists, so a marker never points at a partial one. */
  lemma TakeSnapshot(w: World, tx: Tx, faults: seq<Fault>)
    requires tx.hadRecord == w.current.Some? && w.active.None?
    requires tx.deploys ==> tx.previousRelease in w.releases
    ensures var r := Exec(SnapshotOps(w, tx), w, faults);
            Untouched(w, r.w.(active := None)) &&
            (r.w.active.Some? ==> Guarded(r.w, tx, SnapshotOf(w, tx))) &&
            (r.outcome == Ok ==> r.w.active.Some?)
  {
    var files := [MakeDir(tx.dir), SnapUnit(tx.dir), SnapCopy(tx.dir)] + (if tx.hadRecord then [SnapRecord(tx.dir)] else []);
    TakeFiles(w, tx, faults);
    ExecConcat(files, [Mark(tx, Prepared)], w, faults);
    assert SnapshotOps(w, tx) == files + [Mark(tx, Prepared)];
    var r := Exec(files, w, faults);
    ExecSingle(Mark(tx, Prepared), r.w, r.faults);
  }

  lemma PrepareKeeps(w: World, req: DeployRequest, faults: seq<Fault>)
    requires Deployable(w)
    ensures var r := PrepareDeploy(w, req, faults);
            var tx := DeployTx(w, req);
            Untouched(w, r.w.(active := None)) && r.outcome in {Ok, Raised, Crashed} &&
            (r.w.active.Some? ==> Guarded(r.w, tx, SnapshotOf(w, tx))) &&
            (r.outcome == Ok ==> r.w.active.Some?)
  {
    var tx := DeployTx(w, req);
    var legacy := Release(req.oldCommit, LoadImage(w.unit, API_NAME).value, w.spa);
    RetainKeeps(w, req.found.admitted, req.oldCommit, legacy, faults);
    var r := Exec([Check(req.found.admitted), RetainLegacy(LegacyId(req.oldCommit), legacy)], w, faults);
    if r.outcome == Ok {
      ExecOutcome(SnapshotOps(w, tx), r.w, r.faults);
      assert SnapshotOps(w, tx) == SnapshotOps(r.w, tx);
      TakeSnapshot(r.w, tx, r.faults);
    }
  }

  /** Retaining a record touches nothing else, and afterwards there is one. */
  lemma RetainKeeps(w: World, admitted: bool, oldCommit: string, legacy: Release, faults: seq<Fault>)
    ensures var r := Exec([Check(admitted), RetainLegacy(LegacyId(oldCommit), legacy)], w, faults);
            && Untouched(w, r.w) && r.outcome in {Ok, Raised, Crashed}
            && (r.outcome == Ok ==> admitted && LegacyId(oldCommit) in r.w.releases)
  {
    var ops := [Check(admitted), RetainLegacy(LegacyId(oldCommit), legacy)];
    ExecKeeps(ops, w, faults, v => Untouched(w, v));
    ExecOutcome(ops, w, faults);
    if Exec(ops, w, faults).outcome == Ok {
      var p := Path(ops, w, faults);
      assert Do(ops[0], p[0]) == Some(p[1]) && Do(ops[1], p[1]) == Some(p[2]);
    }
  }

  // ---------- restoring ----------

  ghost predicate RestoredTo(w: World, tx: Tx, s: Snapshot)
    requires Whole(tx, s)
  {
    TripleOf(w) == Saved(tx, s) && w.current == (if tx.hadRecord then s.record else None)
  }

  lemma RestoreGuards(w: World, tx: Tx)
    ensures AllGuard(RestoreOps(w, tx), tx)
  {
  }

  // The parts of restore_snapshot, each after whatever came before it.

  lemma UnitRestored(p: seq<World>, tx: Tx, s: Snapshot)
    requires |p| == 5 && Guarded(p[0], tx, s) && Whole(tx, s)
    requires Do(RestoreUnit(tx.dir), p[0]) == Some(p[1]) && Do(RestoreCopy(tx.dir), p[1]) == Some(p[2])
    requires Do(Reload, p[2]) == Some(p[3]) && Do(RestartApi, p[3]) == Some(p[4])
    ensures p[4] == p[0].(unit := s.unit.value, copy := s.copy.value, loaded := s.unit.value, api := Running(s.unit.value))
  {
  }

  lemma RestoreUnits(r: Result, changed: bool, tx: Tx, s: Snapshot)
    requires Guarded(r.w, tx, s) && Whole(tx, s)
    ensures var q := Then(r, if changed then [RestoreUnit(tx.dir), RestoreCopy(tx.dir), Reload, RestartApi] else []);
            q.outcome == Ok ==>
              && r.outcome == Ok
              && (!changed ==> q.w == r.w)
              && (changed ==> q.w == r.w.(unit := s.unit.value, copy := s.copy.value, loaded := s.unit.value,
                api := Running(s.unit.value)))
  {
    var ops := [RestoreUnit(tx.dir), RestoreCopy(tx.dir), Reload, RestartApi];
    if changed {
      if Then(r, ops).outcome == Ok {
        var p := Path(ops, r.w, r.faults);
        assert forall i :: 0 <= i < 4 ==> Do(ops[i], p[i]) == Some(p[i + 1]);
        assert ops[0] == RestoreUnit(tx.dir) && ops[1] == RestoreCopy(tx.dir) && ops[2] == Reload && ops[3] == RestartApi;
        UnitRestored(p, tx, s);
      }
    }
  }

  lemma RestoreWeb(r: Result, changed: bool, spa: string)
    ensures var q := Then(r, if changed then [SwitchSpa(spa), RestartWeb] else []);
            q.outcome == Ok ==> r.outcome == Ok && q.w == if changed then r.w.(spa := spa, web := Running(spa)) else r.w
  {
    var ops := [SwitchSpa(spa), RestartWeb];
    if changed && Then(r, ops).outcome == Ok {
      var p := Path(ops, r.w, r.faults);
      assert Do(ops[0], p[0]) == Some(p[1]) && Do(ops[1], p[1]) == Some(p[2]);
    }
  }

  lemma RestoreHealth(r: Result, needed: bool)
    ensures var q := Then(r, if needed then [Healthy] else []);
            q.outcome == Ok ==> r.outcome == Ok && q.w == r.w && (needed ==> r.w.api.Running? && r.w.web.Running?)
  {
    ExecSingle(Healthy, r.w, r.faults);
  }

  lemma RestoreCurrent(r: Result, tx: Tx, s: Snapshot)
    requires Guarded(r.w, tx, s) && Whole(tx, s)
    ensures var q := Then(r, [if tx.hadRecord then RestoreRecord(tx.dir) else RemoveRecord]);
            q.outcome == Ok ==> r.outcome == Ok && q.w == r.w.(current := if tx.hadRecord then s.record else None)
  {
    ExecSingle(if tx.hadRecord then RestoreRecord(tx.dir) else RemoveRecord, r.w, r.faults);
  }

  /** Restoring starts from files or a pointer that differ from what was saved. */
  ghost predicate UnitDiffers(w: World, s: Snapshot)
    requires s.unit.Some? && s.copy.Some?
  {
    w.unit != s.unit.value || w.copy != s.copy.value
  }

  /** What a completed restore_snapshot leaves, service by service; if it changed anything, both services run. */
  lemma RestoreCompletes(w: World, faults: seq<Fault>, tx: Tx, s: Snapshot)
    requires Guarded(w, tx, s) && Whole(tx, s)
    ensures var r := Exec(RestoreOps(w, tx), w, faults);
            r.outcome == Ok ==>
              && RestoredTo(r.w, tx, s)
              && r.w.history == w.history
              && (UnitDiffers(w, s) || w.spa != tx.previousSpa ==> r.w.api.Running? && r.w.web.Running?)
              && (if UnitDiffers(w, s)
                  then r.w.api == Running(s.unit.value) && r.w.loaded == s.unit.value
                  else r.w.api == w.api && r.w.loaded == w.loaded)
              && r.w.web == (if w.spa != tx.previousSpa then Running(tx.previousSpa) else w.web)
  {
    var unitChanged, webChanged := UnitDiffers(w, s), w.spa != tx.previousSpa;
    var a := [External];
    var b := if unitChanged then [RestoreUnit(tx.dir), RestoreCopy(tx.dir), Reload, RestartApi] else [];
    var c := if webChanged then [SwitchSpa(tx.previousSpa), RestartWeb] else [];
    var d := if unitChanged || webChanged then [Healthy] else [];
    var e := if tx.hadRecord then RestoreRecord(tx.dir) else RemoveRecord;
    FiveParts(a, b, c, d, [e], w, faults);
    var start := Result(Ok, w, faults);
    ExecSingle(External, w, faults);
    var ra := Then(start, a);
    if Exec(RestoreOps(w, tx), w, faults).outcome == Ok {
      var rd := Then(Then(Then(ra, b), c), d);
      assert ra.outcome == Ok && ra.w == w && Then(ra, b).outcome == Ok && Then(Then(ra, b), c).outcome == Ok && rd.outcome == Ok;
      RestoreUnits(ra, unitChanged, tx, s);
      RestoreWeb(Then(ra, b), webChanged, tx.previousSpa);
      RestoreHealth(Then(Then(ra, b), c), unitChanged || webChanged);
      RestoreCurrent(rd, tx, s);
    }
  }

  lemma FiveParts(a: seq<Op>, b: seq<Op>, c: seq<Op>, d: seq<Op>, e: seq<Op>, w: World, faults: seq<Fault>)
    ensures Exec(a + b + c + d + e, w, faults) == Then(Then(Then(Then(Exec(a, w, faults), b), c), d), e)
  {
    ExecConcat(a + b + c + d, e, w, faults);
    ExecConcat(a + b + c, d, w, faults);
    ExecConcat(a + b, c, w, faults);
    ExecConcat(a, b, w, faults);
  }

  // ---------- closing a transaction ----------

  lemma FinishMarks(w: World, faults: seq<Fault>, tx: Tx, s: Snapshot, phase: Phase)
    requires Guarded(w, tx, s)
    ensures var r := Exec([Finish(tx, phase)], w, faults);
            && Guarded(r.w, tx, s) && r.outcome in {Ok, Raised, Crashed} && r.w == w.(active := r.w.active)
            && (r.outcome == Ok ==> r.w.active == Some(Marker(tx, phase)))
  {
    ExecSingle(Finish(tx, phase), w, faults);
  }

  lemma RetireMoves(w: World, faults: seq<Fault>, tx: Tx, s: Snapshot)
    requires Guarded(w, tx, s)
    ensures var r := Exec([Retire(tx)], w, faults);
            if r.w.active.Some? then r.w == w && r.outcome in {Raised, Crashed}
            else r.w == w.(active := None, history := w.history[tx.id := w.active.value]) && r.outcome in {Ok, Crashed}
  {
    ExecSingle(Retire(tx), w, faults);
  }

  /** Either the marker is still there, or it is gone and the installation is as it was. */
  lemma Archive(w: World, faults: seq<Fault>, tx: Tx, s: Snapshot, phase: Phase)
    requires Guarded(w, tx, s)
    ensures var r := Exec(ArchiveOps(tx, phase), w, faults);
            && (r.w.active.Some? ==> Guarded(r.w, tx, s) && r.outcome in {Raised, Crashed})
            && (r.w.active.None? ==> r.w == w.(active := None, history := w.history[tx.id := Marker(tx, phase)])
                                     && r.outcome in {Ok, Crashed})
            && r.w.(active := None, history := w.history) == w.(active := None)
  {
    assert ArchiveOps(tx, phase) == [Finish(tx, phase)] + [Retire(tx)];
    ExecConcat([Finish(tx, phase)], [Retire(tx)], w, faults);
    FinishMarks(w, faults, tx, s, phase);
    var r := Exec([Finish(tx, phase)], w, faults);
    RetireMoves(r.w, r.faults, tx, s);
  }

  lemma ArchiveThen(r: Result, tx: Tx, s: Snapshot, phase: Phase)
    requires Guarded(r.w, tx, s) && r.outcome in {Ok, Raised, Crashed}
    ensures var q := Then(r, ArchiveOps(tx, phase));
            && (q.w.active.Some? ==> Guarded(q.w, tx, s) && q.outcome != Ok)
            && (q.w.active.None? ==> r.outcome == Ok && q.outcome in {Ok, Crashed} && TripleOf(q.w) == TripleOf(r.w))
  {
    if r.outcome == Ok { Archive(r.w, r.faults, tx, s, phase); }
  }

  /** The handlers keep the snapshot, and only close the transaction on a restored installation. */
  lemma UndoKeeps(r: Result, tx: Tx, s: Snapshot, announce: seq<Op>, phase: Phase)
    requires Guarded(r.w, tx, s) && Whole(tx, s) && AllGuard(announce, tx)
    ensures var q := Undo(r, tx, announce, phase);
            && (q.w.active.Some? ==> Guarded(q.w, tx, s) && q.outcome in {Failed, Crashed})
            && (q.w.active.None? ==> RestoredTo(q.w, tx, s) && q.outcome in {Restored, Crashed} &&
                                     tx.id in q.w.history && q.w.history[tx.id] == Marker(tx, phase))
  {
    GuardedThroughout(announce, r.w, r.faults, tx, s);
    ExecOutcome(announce, r.w, r.faults);
    var started := Exec(announce, r.w, r.faults);
    if started.outcome == Ok {
      RestoreGuards(started.w, tx);
      var ops := RestoreOps(started.w, tx);
      GuardedThroughout(ops, started.w, started.faults, tx, s);
      RestoreCompletes(started.w, started.faults, tx, s);
      ExecOutcome(ops, started.w, started.faults);
      var restored := Exec(ops, started.w, started.faults);
      if restored.outcome == Ok {
        Archive(restored.w, restored.faults, tx, s, phase);
      } else if restored.outcome == Raised {
        SurrenderKeeps(restored, tx, s);
      }
    }
  }

  lemma SurrenderKeeps(r: Result, tx: Tx, s: Snapshot)
    requires Guarded(r.w, tx, s)
    ensures Guarded(Surrender(r, tx).w, tx, s) && Surrender(r, tx).outcome in {Failed, Crashed}
  {
    GuardedThroughout([Mark(tx, RollbackFailed)], r.w, r.faults, tx, s);
  }

  // ---------- transaction bodies ----------

  /** Operations after which unit, copy and pointer are what they were. */
  predicate KeepsTriple(op: Op) {
    !(op.UpdateUnit? || op.CopyUnit? || op.SwitchSpa? || op.RestoreUnit? || op.RestoreCopy?)
  }

  lemma TripleThroughout(ops: seq<Op>, w: World, faults: seq<Fault>)
    requires forall i :: 0 <= i < |ops| ==> KeepsTriple(ops[i])
    ensures TripleOf(Exec(ops, w, faults).w) == TripleOf(w)
  {
    var t := TripleOf(w);
    ExecKeeps(ops, w, faults, v => TripleOf(v) == t);
  }

  ghost function Selected(w: World, ref: string, spa: string): Triple
    requires Updatable(w, ref)
  {
    Triple(UpdateImage(w.unit, ref).value, UpdateImage(w.unit, ref).value, spa)
  }

  ghost predicate Updatable(w: World, ref: string) {
    ImmutableRef(ref) && '\\' !in ref && UpdateImage(w.unit, ref).Some?
  }

  lemma ActivateTriple(w: World, faults: seq<Fault>, ref: string, rest: seq<Op>)
    requires forall i :: 0 <= i < |rest| ==> KeepsTriple(rest[i])
    ensures var r := Exec([UpdateUnit(ref), CopyUnit] + rest, w, faults);
            r.outcome == Ok ==> Updatable(w, ref) && TripleOf(r.w) == Selected(w, ref, w.spa)
  {
    ExecConcat([UpdateUnit(ref), CopyUnit], rest, w, faults);
    var head := Exec([UpdateUnit(ref), CopyUnit], w, faults);
    if head.outcome == Ok {
      var p := Path([UpdateUnit(ref), CopyUnit], w, faults);
      assert Do(UpdateUnit(ref), p[0]) == Some(p[1]) && Do(CopyUnit, p[1]) == Some(p[2]);
      TripleThroughout(rest, head.w, head.faults);
    }
  }

  lemma PublishTriple(w: World, faults: seq<Fault>, spa: string, rest: seq<Op>)
    requires forall i :: 0 <= i < |rest| ==> KeepsTriple(rest[i])
    ensures var r := Exec([SwitchSpa(spa)] + rest, w, faults);
            r.outcome == Ok ==> TripleOf(r.w) == TripleOf(w).(spa := spa)
  {
    ExecConcat([SwitchSpa(spa)], rest, w, faults);
    ExecSingle(SwitchSpa(spa), w, faults);
    var head := Exec([SwitchSpa(spa)], w, faults);
    TripleThroughout(rest, head.w, head.faults);
  }

  /** Three blocks: nothing of the triple, then the unit and its copy, then the pointer. */
  lemma MainKeeps(r: Result, first: seq<Op>, second: seq<Op>, third: seq<Op>, ref: string, spa: string, tx: Tx, s: Snapshot)
    requires r.outcome == Ok && Guarded(r.w, tx, s)
    requires AllGuard(first, tx) && AllGuard(second, tx) && AllGuard(third, tx)
    requires forall i :: 0 <= i < |first| ==> KeepsTriple(first[i])
    requires forall i :: 0 <= i < |second| ==> KeepsTriple(second[i])
    requires forall i :: 0 <= i < |third| ==> KeepsTriple(third[i])
    ensures var q := Then(Then(Then(r, first), [UpdateUnit(ref), CopyUnit] + second), [SwitchSpa(spa)] + third);
            && Guarded(q.w, tx, s) && q.outcome in {Ok, Raised, Crashed}
            && (q.outcome == Ok ==> Updatable(r.w, ref) && TripleOf(q.w) == Selected(r.w, ref, spa))
  {
    var a := Then(r, first);
    GuardedThen(r, first, tx, s);
    ExecOutcome(first, r.w, r.faults);
    TripleThroughout(first, r.w, r.faults);
    var ops := [UpdateUnit(ref), CopyUnit] + second;
    var b := Then(a, ops);
    GuardedThen(a, ops, tx, s);
    ExecOutcome(ops, a.w, a.faults);
    ActivateTriple(a.w, a.faults, ref, second);
    GuardedThen(b, [SwitchSpa(spa)] + third, tx, s);
    ExecOutcome([SwitchSpa(spa)] + third, b.w, b.faults);
    PublishTriple(b.w, b.faults, spa, third);
  }

  /** The body of a deployment up to its archive step. */
  ghost function DeployMain(r: Result, req: DeployRequest, tx: Tx): Result {
    Then(Then(Then(r, StageOps(req, tx)), ActivateOps(req, tx)), PublishOps(req, tx))
  }

  lemma DeployMainKeeps(r: Result, req: DeployRequest, tx: Tx, s: Snapshot)
    requires r.outcome == Ok && Guarded(r.w, tx, s)
    ensures var q := DeployMain(r, req, tx);
            && Guarded(q.w, tx, s) && q.outcome in {Ok, Raised, Crashed}
            && (q.outcome == Ok ==> Updatable(r.w, req.imageRef) && TripleOf(q.w) == Selected(r.w, req.imageRef, req.spa))
  {
    var second := [Mark(tx, ApiUnitUpdated), Reload, RestartApi, Mark(tx, ApiRestarted), Check(req.found.answers)];
    var third := [Mark(tx, SpaSwitched), RestartWeb, Mark(tx, CaddyRestarted),
                  Check(req.found.healthy), Check(req.found.dataKept),
                  WriteCurrent(CurrentRecord(req.releaseId, req.imageRef, req.spa)), Mark(tx, Complete)];
    assert ActivateOps(req, tx) == [UpdateUnit(req.imageRef), CopyUnit] + second;
    assert PublishOps(req, tx) == [SwitchSpa(req.spa)] + third;
    MainKeeps(r, StageOps(req, tx), second, third, req.imageRef, req.spa, tx, s);
  }

  ghost function SelectMain(r: Result, req: RollbackRequest, target: Release, tx: Tx): Result {
    Then(Then(r, SelectOps(target, tx)), ExposeOps(req, target, tx))
  }

  lemma SelectMainKeeps(r: Result, req: RollbackRequest, target: Release, tx: Tx, s: Snapshot)
    requires r.outcome == Ok && Guarded(r.w, tx, s)
    ensures var q := SelectMain(r, req, target, tx);
            && Guarded(q.w, tx, s) && q.outcome in {Ok, Raised, Crashed}
            && (q.outcome == Ok ==>
              Updatable(r.w, target.imageRef) && TripleOf(q.w) == Selected(r.w, target.imageRef, target.spa))
  {
    var second := [Mark(tx, ApiUnitUpdated), Reload, RestartApi];
    var third := [Mark(tx, SpaSwitched), RestartWeb, Check(req.found.healthy), Check(req.found.dataKept),
                  WriteCurrent(CurrentRecord(req.releaseId, target.imageRef, target.spa))];
    assert SelectOps(target, tx) == [UpdateUnit(target.imageRef), CopyUnit] + second;
    assert ExposeOps(req, target, tx) == [SwitchSpa(target.spa)] + third;
    assert Then(r, []) == r;
    MainKeeps(r, [], second, third, target.imageRef, target.spa, tx, s);
  }

  // ---------- whole commands ----------

  /**
   * A deployment ends with the marker still guarding the old installation, with the old
   * installation, or, only when it reported success or died, wholly with the new one.
   */
  lemma DeployKeepsRecoverable(w: World, req: DeployRequest, faults: seq<Fault>, base: Triple)
    requires Recoverable(w, base)
    ensures var r := Deploy(w, req, faults);
            && (r.outcome == Ok ==> r.w.active.None?)
            && (Recoverable(r.w, base) ||
                (r.w.active.None? && r.outcome in {Ok, Crashed} && Updatable(w, req.imageRef) &&
                 TripleOf(r.w) == Selected(w, req.imageRef, req.spa)))
            && (r.outcome == Ok ==> Updatable(w, req.imageRef) && TripleOf(r.w) == Selected(w, req.imageRef, req.spa))
  {
    if Deployable(w) {
      var tx := DeployTx(w, req);
      PrepareKeeps(w, req, faults);
      var prepared := PrepareDeploy(w, req, faults);
      if prepared.outcome == Ok {
        DeployMainKeeps(prepared, req, tx, SnapshotOf(w, tx));
        var main := DeployMain(prepared, req, tx);
        assert DeployBody(prepared, req, tx) == Then(main, ArchiveOps(tx, Complete));
        CloseOrUndo(main, tx, SnapshotOf(w, tx), Complete, [Mark(tx, RollbackStarted)], RolledBack);
      }
    }
  }

  /** The end of a transaction: its archive step, and the handler if anything up to then raised. */
  lemma CloseOrUndo(main: Result, tx: Tx, s: Snapshot, closing: Phase, announce: seq<Op>, undone: Phase)
    requires Guarded(main.w, tx, s) && Whole(tx, s) && AllGuard(announce, tx) && main.outcome in {Ok, Raised, Crashed}
    ensures var body := Then(main, ArchiveOps(tx, closing));
            var q := if body.outcome == Raised then Undo(body, tx, announce, undone) else body;
            && (q.w.active.Some? ==> Guarded(q.w, tx, s) && q.outcome in {Failed, Crashed})
            && (q.w.active.None? && !RestoredTo(q.w, tx, s) ==>
                  main.outcome == Ok && TripleOf(q.w) == TripleOf(main.w) && q.outcome in {Ok, Crashed})
            && (q.outcome == Ok ==> main.outcome == Ok && q.w.active.None? && TripleOf(q.w) == TripleOf(main.w))
  {
    ArchiveThen(main, tx, s, closing);
    ExecOutcome(ArchiveOps(tx, closing), main.w, main.faults);
    var body := Then(main, ArchiveOps(tx, closing));
    if body.outcome == Raised { UndoKeeps(body, tx, s, announce, undone); }
  }

  /** Recovery of an interrupted transaction never leaves the snapshot's installation. */
  lemma RecoverKeepsRecoverable(w: World, req: RollbackRequest, faults: seq<Fault>, base: Triple)
    requires Recoverable(w, base) && w.active.Some? && req.releaseId in w.releases
    ensures var r := Recover(w, req, faults);
            && Recoverable(r.w, base)
            && (r.outcome == Ok ==> r.w.active.None? && w.active.value.tx.id in r.w.history)
  {
    var tx := w.active.value.tx;
    var s := w.snapshots[tx.dir];
    ExecSingle(Check(req.found.accepted), w, faults);
    var checked := Exec([Check(req.found.accepted)], w, faults);
    if checked.outcome == Ok {
      var target := w.releases[req.releaseId];
      var ops := RestoreOps(w, tx);
      RestoreGuards(w, tx);
      GuardedThen(checked, ops, tx, s);
      RestoreCompletes(w, checked.faults, tx, s);
      ExecOutcome(ops, w, checked.faults);
      var restored := Then(checked, ops);
      var write := [WriteCurrent(CurrentRecord(req.releaseId, target.imageRef, target.spa))];
      GuardedThen(restored, write, tx, s);
      TripleThroughout(write, restored.w, restored.faults);
      ExecOutcome(write, restored.w, restored.faults);
      var written := Then(restored, write);
      ArchiveThen(written, tx, s, InterruptedRollbackComplete);
      var done := Then(written, ArchiveOps(tx, InterruptedRollbackComplete));
      if written.outcome == Ok { Archive(written.w, written.faults, tx, s, InterruptedRollbackComplete); }
      if done.outcome == Raised { SurrenderKeeps(done, tx, s); }
    }
  }

  lemma SelectKeepsRecoverable(w: World, req: RollbackRequest, faults: seq<Fault>, base: Triple)
    requires Recoverable(w, base) && w.active.None? && req.releaseId in w.releases
    ensures var r := Select(w, req, faults);
            var target := w.releases[req.releaseId];
            && (r.outcome == Ok ==> r.w.active.None?)
            && (Recoverable(r.w, base) ||
                (r.w.active.None? && r.outcome in {Ok, Crashed} && Updatable(w, target.imageRef) &&
                 TripleOf(r.w) == Selected(w, target.imageRef, target.spa)))
            && (r.outcome == Ok ==> Updatable(w, target.imageRef) && TripleOf(r.w) == Selected(w, target.imageRef, target.spa))
  {
    var tx := RollbackTx(w, req);
    var s := SnapshotOf(w, tx);
    var target := w.releases[req.releaseId];
    var check := Check(req.found.accepted);
    ExecConcat([check], SnapshotOps(w, tx), w, faults);
    ExecSingle(check, w, faults);
    var prepared := Exec([check] + SnapshotOps(w, tx), w, faults);
    ExecOutcome([check] + SnapshotOps(w, tx), w, faults);
    if Exec([check], w, faults).outcome == Ok { TakeSnapshot(w, tx, Later(faults)); }
    if prepared.outcome == Ok {
      SelectMainKeeps(prepared, req, target, tx, s);
      CloseOrUndo(SelectMain(prepared, req, target, tx), tx, s, RollbackComplete, [], RollbackReverted);
    }
  }
}
