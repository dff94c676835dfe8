/** What the commands leave, whatever went wrong on the way: on disk, on record, and running. */
module DeploymentOutcomes {
  import opened Wrappers
  import opened UnitText
  import opened Deployment
  import opened DeploymentSafety
  import opened DeploymentTheorems

  // ---------- blocks of operations that completed ----------

  lemma SnapshotLeaves(w: World, tx: Tx, faults: seq<Fault>)
    requires tx.hadRecord == w.current.Some?
    ensures var r := Exec(SnapshotOps(w, tx), w, faults);
      r.outcome == Ok ==>
        && tx.dir !in w.snapshots
        && r.w == w.(snapshots := w.snapshots[tx.dir := Snapshot(Some(w.unit), Some(w.copy), w.current)],
                     active := Some(Marker(tx, Prepared)))
  {
    var ops := SnapshotOps(w, tx);
    if Exec(ops, w, faults).outcome == Ok {
      var p := Path(ops, w, faults);
      assert ops[0] == MakeDir(tx.dir) && ops[1] == SnapUnit(tx.dir) && ops[2] == SnapCopy(tx.dir);
      assert Do(ops[0], p[0]) == Some(p[1]) && Do(ops[1], p[1]) == Some(p[2]) && Do(ops[2], p[2]) == Some(p[3]);
      FilesCopied(w, tx.dir, p[1], p[2], p[3]);
      assert Do(ops[3], p[3]) == Some(p[4]);
      if tx.hadRecord { assert ops[3] == SnapRecord(tx.dir) && Do(ops[4], p[4]) == Some(p[5]); }
    }
  }

  lemma FilesCopied(w: World, dir: string, a: World, b: World, c: World)
    requires Do(MakeDir(dir), w) == Some(a) && Do(SnapUnit(dir), a) == Some(b) && Do(SnapCopy(dir), b) == Some(c)
    ensures dir !in w.snapshots && c == w.(snapshots := w.snapshots[dir := Snapshot(Some(w.unit), Some(w.copy), None)])
  {
  }

  lemma StageLeaves(r: Result, req: DeployRequest, tx: Tx)
    ensures var q := Then(r, StageOps(req, tx)); var release := Release(req.commit, req.imageRef, req.spa);
      q.outcome == Ok ==>
        && r.outcome == Ok && IsImageId(req.imageRef) && req.found.schemaFits && req.found.archiveFits
        && (req.releaseId in r.w.releases ==> r.w.releases[req.releaseId] == release)
        && q.w == r.w.(releases := r.w.releases[req.releaseId := release], active := Some(Marker(tx, SpaStaged)))
  {
    var ops := StageOps(req, tx);
    if Then(r, ops).outcome == Ok {
      var p := Path(ops, r.w, r.faults);
      assert Do(ops[0], p[0]) == Some(p[1]) && Do(ops[1], p[1]) == Some(p[2]) && Do(ops[2], p[2]) == Some(p[3]);
      assert Do(ops[3], p[3]) == Some(p[4]) && Do(ops[4], p[4]) == Some(p[5]);
      assert Do(ops[5], p[5]) == Some(p[6]) && Do(ops[6], p[6]) == Some(p[7]);
    }
  }

  /** The unit, its copy, and the API started on it. */
  lemma UnitLeaves(w: World, ref: string, tx: Tx, faults: seq<Fault>)
    ensures var r := Exec([UpdateUnit(ref), CopyUnit, Mark(tx, ApiUnitUpdated), Reload, RestartApi], w, faults);
      r.outcome == Ok ==> Updatable(w, ref) && r.w == Serving(w, ref).(active := Some(Marker(tx, ApiUnitUpdated)))
  {
    var first, last := [UpdateUnit(ref), CopyUnit, Mark(tx, ApiUnitUpdated)], [Reload, RestartApi];
    assert [UpdateUnit(ref), CopyUnit, Mark(tx, ApiUnitUpdated), Reload, RestartApi] == first + last;
    ExecConcat(first, last, w, faults);
    FilesLeave(w, ref, tx, faults);
    var v := Exec(first, w, faults);
    StartLeaves(v.w, v.faults);
  }

  lemma FilesLeave(w: World, ref: string, tx: Tx, faults: seq<Fault>)
    ensures var r := Exec([UpdateUnit(ref), CopyUnit, Mark(tx, ApiUnitUpdated)], w, faults);
      r.outcome == Ok ==>
        && Updatable(w, ref)
        && r.w == w.(unit := UpdateImage(w.unit, ref).value, copy := UpdateImage(w.unit, ref).value,
                     active := Some(Marker(tx, ApiUnitUpdated)))
  {
    var ops := [UpdateUnit(ref), CopyUnit, Mark(tx, ApiUnitUpdated)];
    if Exec(ops, w, faults).outcome == Ok {
      var p := Path(ops, w, faults);
      assert Do(ops[0], p[0]) == Some(p[1]) && Do(ops[1], p[1]) == Some(p[2]) && Do(ops[2], p[2]) == Some(p[3]);
    }
  }

  lemma StartLeaves(w: World, faults: seq<Fault>)
    ensures var r := Exec([Reload, RestartApi], w, faults);
      r.outcome == Ok ==> r.w == w.(loaded := w.unit, api := Service.Running(w.unit))
  {
    var ops := [Reload, RestartApi];
    if Exec(ops, w, faults).outcome == Ok {
      var p := Path(ops, w, faults);
      assert Do(ops[0], p[0]) == Some(p[1]) && Do(ops[1], p[1]) == Some(p[2]);
    }
  }

  /** The unit and its copy name the reference, and the API runs that unit. */
  ghost function Serving(w: World, ref: string): World
    requires Updatable(w, ref)
  {
    var unit := UpdateImage(w.unit, ref).value;
    w.(unit := unit, copy := unit, loaded := unit, api := Service.Running(unit))
  }

  lemma ActivateLeaves(r: Result, req: DeployRequest, tx: Tx)
    ensures var q := Then(r, ActivateOps(req, tx));
      q.outcome == Ok ==>
        && r.outcome == Ok && Updatable(r.w, req.imageRef) && req.found.answers
        && q.w == Serving(r.w, req.imageRef).(active := Some(Marker(tx, ApiRestarted)))
  {
    var first := [UpdateUnit(req.imageRef), CopyUnit, Mark(tx, ApiUnitUpdated), Reload, RestartApi];
    var last := [Mark(tx, ApiRestarted), Check(req.found.answers)];
    assert ActivateOps(req, tx) == first + last;
    if Then(r, ActivateOps(req, tx)).outcome == Ok {
      ExecConcat(first, last, r.w, r.faults);
      UnitLeaves(r.w, req.imageRef, tx, r.faults);
      var v := Exec(first, r.w, r.faults);
      var p := Path(last, v.w, v.faults);
      assert Do(last[0], p[0]) == Some(p[1]) && Do(last[1], p[1]) == Some(p[2]);
    }
  }

  lemma PublishLeaves(r: Result, req: DeployRequest, tx: Tx)
    ensures var q := Then(r, PublishOps(req, tx));
      q.outcome == Ok ==>
        && r.outcome == Ok && req.found.healthy && req.found.dataKept
        && q.w == r.w.(spa := req.spa, web := Service.Running(req.spa), active := Some(Marker(tx, Complete)),
                       current := Some(CurrentRecord(req.releaseId, req.imageRef, req.spa)))
  {
    var record := CurrentRecord(req.releaseId, req.imageRef, req.spa);
    var first := [SwitchSpa(req.spa), Mark(tx, SpaSwitched), RestartWeb, Mark(tx, CaddyRestarted)];
    var last := [Check(req.found.healthy), Check(req.found.dataKept), WriteCurrent(record), Mark(tx, Complete)];
    assert PublishOps(req, tx) == first + last;
    if Then(r, PublishOps(req, tx)).outcome == Ok {
      ExecConcat(first, last, r.w, r.faults);
      MarkedPointerLeaves(r.w, req.spa, tx, r.faults);
      var u := Exec(first, r.w, r.faults);
      ChecksLeave(u.w, req.found.healthy, req.found.dataKept, record, [Mark(tx, Complete)], u.faults);
      assert last == [Check(req.found.healthy), Check(req.found.dataKept), WriteCurrent(record)] + [Mark(tx, Complete)];
    }
  }

  lemma MarkedPointerLeaves(w: World, spa: string, tx: Tx, faults: seq<Fault>)
    ensures var r := Exec([SwitchSpa(spa), Mark(tx, SpaSwitched), RestartWeb, Mark(tx, CaddyRestarted)], w, faults);
      r.outcome == Ok ==> r.w == w.(spa := spa, web := Service.Running(spa), active := Some(Marker(tx, CaddyRestarted)))
  {
    var first, last := [SwitchSpa(spa), Mark(tx, SpaSwitched), RestartWeb], Mark(tx, CaddyRestarted);
    assert [SwitchSpa(spa), Mark(tx, SpaSwitched), RestartWeb, last] == first + [last];
    ExecConcat(first, [last], w, faults);
    PointerLeaves(w, spa, tx, faults);
    var v := Exec(first, w, faults);
    ExecSingle(last, v.w, v.faults);
  }

  /** The pointer, and the web server started on it. */
  lemma PointerLeaves(w: World, spa: string, tx: Tx, faults: seq<Fault>)
    ensures var r := Exec([SwitchSpa(spa), Mark(tx, SpaSwitched), RestartWeb], w, faults);
      r.outcome == Ok ==> r.w == w.(spa := spa, web := Service.Running(spa), active := Some(Marker(tx, SpaSwitched)))
  {
    var ops := [SwitchSpa(spa), Mark(tx, SpaSwitched), RestartWeb];
    if Exec(ops, w, faults).outcome == Ok {
      var p := Path(ops, w, faults);
      assert Do(ops[0], p[0]) == Some(p[1]) && Do(ops[1], p[1]) == Some(p[2]) && Do(ops[2], p[2]) == Some(p[3]);
    }
  }

  /** The last checks, the current record, and at most a mark after it. */
  lemma ChecksLeave(w: World, healthy: bool, kept: bool, record: CurrentRecord, marks: seq<Op>, faults: seq<Fault>)
    requires marks == [] || (|marks| == 1 && marks[0].Mark?)
    ensures var r := Exec([Check(healthy), Check(kept), WriteCurrent(record)] + marks, w, faults);
      r.outcome == Ok ==>
        && healthy && kept
        && r.w == w.(current := Some(record), active := if marks == [] then w.active else Some(Marker(marks[0].tx, marks[0].phase)))
  {
    var ops := [Check(healthy), Check(kept), WriteCurrent(record)];
    ExecConcat(ops, marks, w, faults);
    if Exec(ops + marks, w, faults).outcome == Ok {
      var p := Path(ops, w, faults);
      assert Do(ops[0], p[0]) == Some(p[1]) && Do(ops[1], p[1]) == Some(p[2]) && Do(ops[2], p[2]) == Some(p[3]);
      var v := Exec(ops, w, faults);
      if marks != [] {
        ExecSingle(marks[0], v.w, v.faults);
        assert marks == [marks[0]];
      }
    }
  }

  lemma SelectLeaves(r: Result, target: Release, tx: Tx)
    ensures var q := Then(r, SelectOps(target, tx));
      q.outcome == Ok ==>
        && r.outcome == Ok && Updatable(r.w, target.imageRef)
        && q.w == Serving(r.w, target.imageRef).(active := Some(Marker(tx, ApiUnitUpdated)))
  {
    if r.outcome == Ok { UnitLeaves(r.w, target.imageRef, tx, r.faults); }
  }

  lemma ExposeLeaves(r: Result, req: RollbackRequest, target: Release, tx: Tx)
    ensures var q := Then(r, ExposeOps(req, target, tx));
      q.outcome == Ok ==>
        && r.outcome == Ok && req.found.healthy && req.found.dataKept
        && q.w == r.w.(spa := target.spa, web := Service.Running(target.spa), active := Some(Marker(tx, SpaSwitched)),
                       current := Some(CurrentRecord(req.releaseId, target.imageRef, target.spa)))
  {
    var record := CurrentRecord(req.releaseId, target.imageRef, target.spa);
    var first := [SwitchSpa(target.spa), Mark(tx, SpaSwitched), RestartWeb];
    var last := [Check(req.found.healthy), Check(req.found.dataKept), WriteCurrent(record)];
    assert ExposeOps(req, target, tx) == first + last;
    if Then(r, ExposeOps(req, target, tx)).outcome == Ok {
      ExecConcat(first, last, r.w, r.faults);
      PointerLeaves(r.w, target.spa, tx, r.faults);
      var v := Exec(first, r.w, r.faults);
      ChecksLeave(v.w, req.found.healthy, req.found.dataKept, record, [], v.faults);
      assert last + [] == last;
    }
  }

  lemma ArchiveLeaves(r: Result, tx: Tx, s: Snapshot, phase: Phase)
    requires Guarded(r.w, tx, s)
    ensures var q := Then(r, ArchiveOps(tx, phase));
      q.outcome == Ok ==> r.outcome == Ok && q.w == r.w.(active := None, history := r.w.history[tx.id := Marker(tx, phase)])
  {
    if r.outcome == Ok { Archive(r.w, r.faults, tx, s, phase); }
  }

  // ---------- completed commands ----------

  /** Unit and copy name the image, the API runs that unit, and the web server runs on the pointer. */
  ghost predicate Runs(w: World, ref: string, spa: string) {
    && LoadImage(w.unit, API_NAME) == Some(ref) && w.copy == w.unit && w.spa == spa
    && w.loaded == w.unit && w.api == Service.Running(w.unit) && w.web == Service.Running(spa)
  }

  lemma ServingRuns(w: World, ref: string)
    requires LoadImage(w.unit, API_NAME).Some? && Updatable(w, ref)
    ensures LoadImage(Serving(w, ref).unit, API_NAME) == Some(ref)
  {
    ImmutableRefIsPlain(ref);
    PutGet(w.unit, ref, API_NAME);
  }

  lemma PreparedDeploy(w: World, req: DeployRequest, faults: seq<Fault>)
    requires Deployable(w) && PrepareDeploy(w, req, faults).outcome == Ok
    ensures var v := PrepareDeploy(w, req, faults).w; var tx := DeployTx(w, req);
      && req.found.admitted && req.txId !in w.snapshots
      && v == w.(snapshots := w.snapshots[req.txId := Snapshot(Some(w.unit), Some(w.copy), w.current)],
                 active := Some(Marker(tx, Prepared)), releases := v.releases)
      && v.releases.Keys == w.releases.Keys + {LegacyId(req.oldCommit)}
      && forall id :: id in w.releases ==> v.releases[id] == w.releases[id]
  {
    var tx := DeployTx(w, req);
    var legacy := Release(req.oldCommit, LoadImage(w.unit, API_NAME).value, w.spa);
    var ops := [Check(req.found.admitted), RetainLegacy(LegacyId(req.oldCommit), legacy)];
    var r := Exec(ops, w, faults);
    var p := Path(ops, w, faults);
    assert Do(ops[0], p[0]) == Some(p[1]) && Do(ops[1], p[1]) == Some(p[2]);
    assert SnapshotOps(w, tx) == SnapshotOps(r.w, tx);
    SnapshotLeaves(r.w, tx, r.faults);
  }

  /**
   * A deployment that completes, whatever faults there were, found every check passed. It runs the
   * requested image and web client, has them on record as current and as a release, has lost no
   * other record, and keeps the old state in its snapshot and itself in the history.
   */
  lemma CompletedDeploy(w: World, req: DeployRequest, faults: seq<Fault>)
    requires Deploy(w, req, faults).outcome == Ok
    ensures var v := Deploy(w, req, faults).w;
      && req.found == Findings(true, true, true, true, true, true) && IsImageId(req.imageRef)
      && w.active.None? && v.active.None? && Runs(v, req.imageRef, req.spa)
      && v.current == Some(CurrentRecord(req.releaseId, req.imageRef, req.spa))
      && v.releases.Keys == w.releases.Keys + {"legacy-" + req.oldCommit, req.releaseId}
      && v.releases[req.releaseId] == Release(req.commit, req.imageRef, req.spa)
      && (forall id :: id in w.releases ==> v.releases[id] == w.releases[id])
      && v.snapshots == w.snapshots[req.txId := Snapshot(Some(w.unit), Some(w.copy), w.current)] && req.txId !in w.snapshots
      && v.history == w.history[req.txId :=
           Marker(Tx(req.txId, true, "legacy-" + req.oldCommit, w.spa, req.txId, w.current.Some?), Complete)]
  {
    var tx := DeployTx(w, req);
    var r := PrepareDeploy(w, req, faults);
    UndoNeverOk(DeployBody(r, req, tx), tx, [Mark(tx, RollbackStarted)], RolledBack);
    PreparedDeploy(w, req, faults);
    var a := Then(r, StageOps(req, tx));
    StageLeaves(r, req, tx);
    var b := Then(a, ActivateOps(req, tx));
    ActivateLeaves(a, req, tx);
    PublishLeaves(b, req, tx);
    PrepareKeeps(w, req, faults);
    DeployMainKeeps(r, req, tx, SnapshotOf(w, tx));
    ArchiveLeaves(DeployMain(r, req, tx), tx, SnapshotOf(w, tx), Complete);
    ServingRuns(w, req.imageRef);
  }

  lemma PreparedSelect(w: World, req: RollbackRequest, faults: seq<Fault>)
    requires w.active.None?
    ensures var tx := RollbackTx(w, req); var r := Exec([Check(req.found.accepted)] + SnapshotOps(w, tx), w, faults);
      && r.outcome in {Ok, Raised, Crashed}
      && (r.outcome == Ok ==>
            && req.found.accepted && req.dir !in w.snapshots && Guarded(r.w, tx, SnapshotOf(w, tx))
            && r.w == w.(snapshots := w.snapshots[req.dir := Snapshot(Some(w.unit), Some(w.copy), w.current)],
                         active := Some(Marker(tx, Prepared))))
  {
    var tx := RollbackTx(w, req);
    var check := Check(req.found.accepted);
    ExecConcat([check], SnapshotOps(w, tx), w, faults);
    ExecSingle(check, w, faults);
    ExecOutcome([check] + SnapshotOps(w, tx), w, faults);
    SnapshotLeaves(w, tx, Later(faults));
  }

  /**
   * A selected rollback that completes found every check passed. It runs the retained release and
   * has it on record as current, under its own ID; what it replaced is in its snapshot, and the
   * history says which release that was.
   */
  lemma CompletedRollback(w: World, req: RollbackRequest, faults: seq<Fault>)
    requires w.active.None? && Rollback(w, req, faults).outcome == Ok
    ensures var v := Rollback(w, req, faults).w;
      && req.found == RollbackFindings(true, true, true)
      && req.releaseId in w.releases && ImmutableRef(w.releases[req.releaseId].imageRef) && v.releases == w.releases
      && v.active.None? && Runs(v, w.releases[req.releaseId].imageRef, w.releases[req.releaseId].spa)
      && v.current == Some(CurrentRecord(req.releaseId, w.releases[req.releaseId].imageRef, w.releases[req.releaseId].spa))
      && v.snapshots == w.snapshots[req.dir := Snapshot(Some(w.unit), Some(w.copy), w.current)] && req.dir !in w.snapshots
      && v.history == w.history[req.txId := Marker(SelectedTx(w, req), RollbackComplete)]
  {
    var tx := RollbackTx(w, req);
    var target := w.releases[req.releaseId];
    var r := Exec([Check(req.found.accepted)] + SnapshotOps(w, tx), w, faults);
    PreparedSelect(w, req, faults);
    var main := SelectMain(r, req, target, tx);
    UndoNeverOk(Then(main, ArchiveOps(tx, RollbackComplete)), tx, [], RollbackReverted);
    SelectLeaves(r, target, tx);
    ExposeLeaves(Then(r, SelectOps(target, tx)), req, target, tx);
    SelectMainKeeps(r, req, target, tx, SnapshotOf(w, tx));
    ArchiveLeaves(main, tx, SnapshotOf(w, tx), RollbackComplete);
    ServingRuns(w, target.imageRef);
  }

  /** The transaction of a selected rollback: it returns to what is on record as current, or to the legacy release. */
  ghost function SelectedTx(w: World, req: RollbackRequest): Tx {
    Tx(req.txId, false, if w.current.Some? then w.current.value.releaseId else "legacy-" + req.oldCommit,
       w.spa, req.dir, w.current.Some?)
  }

  /**
   * A rollback over an interrupted transaction that completes named its recorded release and gives
   * back the installation in its snapshot. That release is on record as current, the transaction is
   * in the history, and the services run what was restored wherever anything had to be.
   */
  lemma CompletedRecoveryRestores(w: World, req: RollbackRequest, faults: seq<Fault>, base: Triple)
    requires Recoverable(w, base) && w.active.Some? && Rollback(w, req, faults).outcome == Ok
    ensures var v := Rollback(w, req, faults).w; var tx := w.active.value.tx;
      && req.found.accepted && req.releaseId == tx.previousRelease
      && req.releaseId in w.releases && ImmutableRef(w.releases[req.releaseId].imageRef)
      && v.active.None? && TripleOf(v) == base
      && v.current == Some(CurrentRecord(req.releaseId, w.releases[req.releaseId].imageRef, w.releases[req.releaseId].spa))
      && v.history == w.history[tx.id := Marker(tx, InterruptedRollbackComplete)]
      && ServicesRestored(w, v, tx, w.snapshots[tx.dir])
  {
    var tx := w.active.value.tx;
    var s := w.snapshots[tx.dir];
    var target := w.releases[req.releaseId];
    var check := Check(req.found.accepted);
    ExecSingle(check, w, faults);
    var r := Exec([check], w, faults);
    RestoreGuards(w, tx);
    GuardedThen(r, RestoreOps(w, tx), tx, s);
    RestoreCompletes(w, r.faults, tx, s);
    var restored := Then(r, RestoreOps(w, tx));
    var write := WriteCurrent(CurrentRecord(req.releaseId, target.imageRef, target.spa));
    ExecSingle(write, restored.w, restored.faults);
    GuardedThen(restored, [write], tx, s);
    var written := Then(restored, [write]);
    ArchiveLeaves(written, tx, s, InterruptedRollbackComplete);
  }

  // ---------- a selected rollback that is reverted ----------

  /** Behind the marker the services are in step with the disk, or with what the rollback writes. */
  lemma SelectionInStep(r: Result, req: RollbackRequest, target: Release, tx: Tx)
    requires InStep(r.w)
    ensures var q := Then(SelectMain(r, req, target, tx), ArchiveOps(tx, RollbackComplete));
      var after := if Updatable(r.w, target.imageRef) then UpdateImage(r.w.unit, target.imageRef).value else r.w.unit;
      ApiInStep(q.w, r.w.unit, after) && WebInStep(q.w, r.w.spa, target.spa)
  {
    var after := if Updatable(r.w, target.imageRef) then UpdateImage(r.w.unit, target.imageRef).value else r.w.unit;
    var rest := [CopyUnit, Mark(tx, ApiUnitUpdated), Reload, RestartApi];
    assert SelectOps(target, tx) == [UpdateUnit(target.imageRef)] + rest;
    UpdateIsStable(r.w.unit, target.imageRef, after);
    ApiThroughActivation(r, target.imageRef, rest, r.w.unit, after);
    var a := Then(r, SelectOps(target, tx));
    ApiKept(a, ExposeOps(req, target, tx), r.w.unit, after);
    ApiKept(SelectMain(r, req, target, tx), ArchiveOps(tx, RollbackComplete), r.w.unit, after);
    WebKept(r, SelectOps(target, tx), r.w.spa, target.spa);
    var tail := [Mark(tx, SpaSwitched), RestartWeb, Check(req.found.healthy), Check(req.found.dataKept),
                 WriteCurrent(CurrentRecord(req.releaseId, target.imageRef, target.spa))];
    assert ExposeOps(req, target, tx) == [SwitchSpa(target.spa)] + tail;
    WebThroughPublication(a, target.spa, tail, r.w.spa);
    WebKept(SelectMain(r, req, target, tx), ArchiveOps(tx, RollbackComplete), r.w.spa, target.spa);
  }

  /** What reverting leaves, from a body that raised. */
  lemma RevertedBody(r: Result, req: RollbackRequest, target: Release, tx: Tx, s: Snapshot)
    requires r.outcome == Ok && Guarded(r.w, tx, s) && Whole(tx, s) && InStep(r.w)
    requires s.unit == Some(r.w.unit) && s.copy.value == r.w.unit && tx.previousSpa == r.w.spa
    ensures var body := Then(SelectMain(r, req, target, tx), ArchiveOps(tx, RollbackComplete));
      var q := Undo(body, tx, [], RollbackReverted);
      body.outcome == Raised && q.outcome == Restored ==>
        && RestoredTo(q.w, tx, s) && q.w.active.None?
        && tx.id in q.w.history && q.w.history[tx.id] == Marker(tx, RollbackReverted)
        && (ChangesUnit(r.w, target.imageRef) ==> q.w.api == Service.Running(r.w.unit) && q.w.loaded == r.w.unit)
        && (target.spa != r.w.spa ==> q.w.web == Service.Running(r.w.spa))
  {
    var main := SelectMain(r, req, target, tx);
    SelectMainKeeps(r, req, target, tx, s);
    ArchiveThen(main, tx, s, RollbackComplete);
    var body := Then(main, ArchiveOps(tx, RollbackComplete));
    if body.outcome == Raised {
      SelectionInStep(r, req, target, tx);
      UndoKeeps(body, tx, s, [], RollbackReverted);
      RestoredServices(Result(Ok, body.w, body.faults), tx, s, RollbackReverted);
    }
  }

  /**
   * Whichever step of a selected rollback raises, if reverting it completes then unit, copy, pointer
   * and current record are what they were, and the services run what the disk names wherever the
   * rollback would have changed it.
   */
  lemma FailedRollbackIsReverted(w: World, req: RollbackRequest, faults: seq<Fault>)
    requires w.active.None? && InStep(w)
    ensures var r := Rollback(w, req, faults);
      r.outcome == Restored ==>
        && TripleOf(r.w) == TripleOf(w) && r.w.current == w.current && r.w.active.None?
        && req.txId in r.w.history && r.w.history[req.txId] == Marker(SelectedTx(w, req), RollbackReverted)
        && req.releaseId in w.releases
        && (ChangesUnit(w, w.releases[req.releaseId].imageRef) ==>
              r.w.api == Service.Running(w.unit) && r.w.loaded == w.unit)
        && (w.releases[req.releaseId].spa != w.spa ==> r.w.web == Service.Running(w.spa))
  {
    if Selectable(w, req) {
      var tx := RollbackTx(w, req);
      var check := Check(req.found.accepted);
      ExecConcat([check], SnapshotOps(w, tx), w, faults);
      ExecSingle(check, w, faults);
      ExecOutcome([check] + SnapshotOps(w, tx), w, faults);
      var r := Exec([check] + SnapshotOps(w, tx), w, faults);
      if r.outcome == Ok {
        TakeSnapshot(w, tx, Later(faults));
        RevertedBody(r, req, w.releases[req.releaseId], tx, SnapshotOf(w, tx));
        SelectMainKeeps(r, req, w.releases[req.releaseId], tx, SnapshotOf(w, tx));
        ExecOutcome(ArchiveOps(tx, RollbackComplete), SelectMain(r, req, w.releases[req.releaseId], tx).w,
                    SelectMain(r, req, w.releases[req.releaseId], tx).faults);
      }
    }
  }

  // ---------- what a failed check leaves alone ----------

  /** Nothing of the running installation differs: files, pointer, current record, and what systemd loaded and runs. */
  ghost predicate RunningUntouched(w: World, v: World) {
    v == w.(active := v.active, history := v.history, snapshots := v.snapshots, releases := v.releases)
  }

  /** inv survives undoing: the marks, the archive step, and restoring from a state that meets it. */
  ghost predicate SurvivesUndoing(tx: Tx, s: Snapshot, inv: World -> bool) {
    (forall op: Op, v {:trigger Survives(op, v, inv)} :: inv(v) && (op.Mark? || op.Finish? || op.Retire?) ==> Survives(op, v, inv)) &&
    forall u, i, v {:trigger Survives(RestoreOps(u, tx)[i], v, inv)} ::
      inv(u) && Guarded(u, tx, s) && inv(v) && Guarded(v, tx, s) && 0 <= i < |RestoreOps(u, tx)| ==>
        Survives(RestoreOps(u, tx)[i], v, inv)
  }

  lemma MarksKeep(ops: seq<Op>, w: World, faults: seq<Fault>, tx: Tx, s: Snapshot, inv: World -> bool)
    requires SurvivesUndoing(tx, s, inv) && inv(w)
    requires forall i :: 0 <= i < |ops| ==> ops[i].Mark? || ops[i].Finish? || ops[i].Retire?
    ensures inv(Exec(ops, w, faults).w)
  {
    forall i, v | 0 <= i < |ops| && inv(v) ensures Survives(ops[i], v, inv) { assert ops[i].Mark? || ops[i].Finish? || ops[i].Retire?; }
    ExecKeeps(ops, w, faults, inv);
  }

  lemma RestoringKeeps(w: World, faults: seq<Fault>, tx: Tx, s: Snapshot, inv: World -> bool)
    requires SurvivesUndoing(tx, s, inv) && Guarded(w, tx, s) && inv(w)
    ensures inv(Exec(RestoreOps(w, tx), w, faults).w)
  {
    var both := (v: World) => inv(v) && Guarded(v, tx, s);
    var ops := RestoreOps(w, tx);
    RestoreGuards(w, tx);
    forall i, v | 0 <= i < |ops| && both(v) ensures Survives(ops[i], v, both) {
      assert Survives(RestoreOps(w, tx)[i], v, inv);
      GuardSurvives(ops[i], v, u => Guarded(u, tx, s), tx, s);
    }
    ExecKeeps(ops, w, faults, both);
  }

  lemma UndoPreserves(r: Result, tx: Tx, announce: seq<Op>, phase: Phase, s: Snapshot, inv: World -> bool)
    requires Guarded(r.w, tx, s) && inv(r.w) && SurvivesUndoing(tx, s, inv)
    requires forall i :: 0 <= i < |announce| ==> announce[i].Mark? && announce[i].tx == tx
    ensures inv(Undo(r, tx, announce, phase).w)
  {
    AnnouncementPreserves(announce, r, tx, s, inv);
    var started := Exec(announce, r.w, r.faults);
    if started.outcome == Ok { RestorationPreserves(started, tx, phase, s, inv); }
    UndoEnds(r, tx, announce, phase);
  }

  /** Where undoing can stop. */
  lemma UndoEnds(r: Result, tx: Tx, announce: seq<Op>, phase: Phase)
    ensures var started := Exec(announce, r.w, r.faults); var v := Undo(r, tx, announce, phase).w;
      v == started.w ||
      (started.outcome == Ok &&
       var restored := Exec(RestoreOps(started.w, tx), started.w, started.faults);
       v == restored.w || v == Exec(ArchiveOps(tx, phase), restored.w, restored.faults).w ||
       v == Exec([Mark(tx, RollbackFailed)], restored.w, restored.faults).w)
  {
  }

  lemma AnnouncementPreserves(announce: seq<Op>, r: Result, tx: Tx, s: Snapshot, inv: World -> bool)
    requires Guarded(r.w, tx, s) && inv(r.w) && SurvivesUndoing(tx, s, inv)
    requires forall i :: 0 <= i < |announce| ==> announce[i].Mark? && announce[i].tx == tx
    ensures var v := Exec(announce, r.w, r.faults).w; Guarded(v, tx, s) && inv(v)
  {
    GuardedThroughout(announce, r.w, r.faults, tx, s);
    MarksKeep(announce, r.w, r.faults, tx, s, inv);
  }

  lemma RestorationPreserves(started: Result, tx: Tx, phase: Phase, s: Snapshot, inv: World -> bool)
    requires Guarded(started.w, tx, s) && inv(started.w) && SurvivesUndoing(tx, s, inv)
    ensures var restored := Exec(RestoreOps(started.w, tx), started.w, started.faults);
      && inv(restored.w) && inv(Exec(ArchiveOps(tx, phase), restored.w, restored.faults).w)
      && inv(Exec([Mark(tx, RollbackFailed)], restored.w, restored.faults).w)
  {
    RestoringKeeps(started.w, started.faults, tx, s, inv);
    var restored := Exec(RestoreOps(started.w, tx), started.w, started.faults);
    MarksKeep(ArchiveOps(tx, phase), restored.w, restored.faults, tx, s, inv);
    MarksKeep([Mark(tx, RollbackFailed)], restored.w, restored.faults, tx, s, inv);
  }

  /** The operations of restoring from a state where the unit or the pointer may have changed. */
  predicate IsRestoring(op: Op, tx: Tx, unit: bool, web: bool) {
    || op == External || (unit && op in {RestoreUnit(tx.dir), RestoreCopy(tx.dir), Reload, RestartApi})
    || (web && op in {SwitchSpa(tx.previousSpa), RestartWeb}) || ((unit || web) && op == Healthy)
    || op == if tx.hadRecord then RestoreRecord(tx.dir) else RemoveRecord
  }

  lemma RestoringOps(u: World, tx: Tx, s: Snapshot, i: nat)
    requires Guarded(u, tx, s) && s.unit.Some? && s.copy.Some? && i < |RestoreOps(u, tx)|
    ensures IsRestoring(RestoreOps(u, tx)[i], tx, UnitDiffers(u, s), u.spa != tx.previousSpa)
  {
  }

  lemma UntouchedSurvives(op: Op, w: World, v: World, tx: Tx, s: Snapshot, inv: World -> bool)
    requires tx.hadRecord == w.current.Some? && s == SnapshotOf(w, tx) && inv(v) && Guarded(v, tx, s)
    requires IsRestoring(op, tx, false, false) && forall v :: inv(v) <==> RunningUntouched(w, v)
    ensures Survives(op, v, inv)
  {
  }

  lemma UntouchedSurvivesUndoing(w: World, tx: Tx, s: Snapshot, inv: World -> bool)
    requires tx.previousSpa == w.spa && tx.hadRecord == w.current.Some? && s == SnapshotOf(w, tx)
    requires forall v :: inv(v) <==> RunningUntouched(w, v)
    ensures SurvivesUndoing(tx, s, inv)
  {
    forall u, i, v | inv(u) && Guarded(u, tx, s) && inv(v) && Guarded(v, tx, s) && 0 <= i < |RestoreOps(u, tx)|
      ensures Survives(RestoreOps(u, tx)[i], v, inv)
    {
      RestoringOps(u, tx, s, i);
      UntouchedSurvives(RestoreOps(u, tx)[i], w, v, tx, s, inv);
    }
  }

  /**
   * A release that is not admitted, has no image ID, does not accept the database or does not unpack
   * changes nothing of the running installation, whatever else goes wrong.
   */
  lemma UnfitReleaseChangesNothing(w: World, req: DeployRequest, faults: seq<Fault>)
    requires !(req.found.admitted && IsImageId(req.imageRef) && req.found.schemaFits && req.found.archiveFits)
    ensures RunningUntouched(w, Deploy(w, req, faults).w)
  {
    if Deployable(w) {
      var tx := DeployTx(w, req);
      PrepareKeeps(w, req, faults);
      var r := PrepareDeploy(w, req, faults);
      if r.outcome == Ok {
        PreparedDeploy(w, req, faults);
        UnfitBody(w, r, req, tx, SnapshotOf(w, tx));
      }
    }
  }

  /** The body stops before it touches anything, and so does undoing it. */
  lemma UnfitBody(w: World, r: Result, req: DeployRequest, tx: Tx, s: Snapshot)
    requires r.outcome == Ok && RunningUntouched(w, r.w) && Guarded(r.w, tx, s) && s == SnapshotOf(w, tx)
    requires tx.previousSpa == w.spa && tx.hadRecord == w.current.Some?
    requires !(IsImageId(req.imageRef) && req.found.schemaFits && req.found.archiveFits)
    ensures var body := DeployBody(r, req, tx);
      && body.outcome in {Raised, Crashed} && RunningUntouched(w, body.w)
      && RunningUntouched(w, Undo(body, tx, [Mark(tx, RollbackStarted)], RolledBack).w)
  {
    var ops := StageOps(req, tx);
    StageLeaves(r, req, tx);
    StageUntouched(w, r, req, tx);
    ExecOutcome(ops, r.w, r.faults);
    var body := Then(r, ops);
    GuardedThen(r, ops, tx, s);
    var inv := v => RunningUntouched(w, v);
    UntouchedSurvivesUndoing(w, tx, s, inv);
    UndoPreserves(body, tx, [Mark(tx, RollbackStarted)], RolledBack, s, inv);
  }

  lemma StageUntouched(w: World, r: Result, req: DeployRequest, tx: Tx)
    requires RunningUntouched(w, r.w)
    ensures RunningUntouched(w, Then(r, StageOps(req, tx)).w)
  {
    if r.outcome == Ok { ExecKeeps(StageOps(req, tx), r.w, r.faults, v => RunningUntouched(w, v)); }
  }

  /** A rollback to a release that is no longer accepted changes nothing at all. */
  lemma UnacceptedRollbackChangesNothing(w: World, req: RollbackRequest, faults: seq<Fault>)
    requires !req.found.accepted
    ensures Rollback(w, req, faults).w == w
  {
    if Selectable(w, req) {
      var check := Check(req.found.accepted);
      ExecSingle(check, w, faults);
      if w.active.None? { ExecConcat([check], SnapshotOps(w, RollbackTx(w, req)), w, faults); }
    }
  }

  /** The web server and what users see are those of before, and so is the current record. */
  ghost predicate SameSite(w: World, v: World) {
    v.spa == w.spa && v.web == w.web && v.current == w.current
  }

  lemma SiteSurvives(op: Op, w: World, v: World, tx: Tx, s: Snapshot, unit: bool, inv: World -> bool)
    requires tx.hadRecord == w.current.Some? && s == SnapshotOf(w, tx) && inv(v) && Guarded(v, tx, s)
    requires IsRestoring(op, tx, unit, false) && forall v :: inv(v) <==> SameSite(w, v)
    ensures Survives(op, v, inv)
  {
  }

  lemma SiteSurvivesUndoing(w: World, tx: Tx, s: Snapshot, inv: World -> bool)
    requires tx.previousSpa == w.spa && tx.hadRecord == w.current.Some? && s == SnapshotOf(w, tx)
    requires forall v :: inv(v) <==> SameSite(w, v)
    ensures SurvivesUndoing(tx, s, inv)
  {
    forall u, i, v | inv(u) && Guarded(u, tx, s) && inv(v) && Guarded(v, tx, s) && 0 <= i < |RestoreOps(u, tx)|
      ensures Survives(RestoreOps(u, tx)[i], v, inv)
    {
      RestoringOps(u, tx, s, i);
      SiteSurvives(RestoreOps(u, tx)[i], w, v, tx, s, UnitDiffers(u, s), inv);
    }
  }

  lemma SiteKept(r: Result, ops: seq<Op>, w: World)
    requires SameSite(w, r.w)
    requires forall i :: 0 <= i < |ops| ==>
      !(ops[i].SwitchSpa? || ops[i].RestartWeb? || ops[i].WriteCurrent? || ops[i].RestoreRecord? || ops[i].RemoveRecord?)
    ensures SameSite(w, Then(r, ops).w)
  {
    if r.outcome == Ok { ExecKeeps(ops, r.w, r.faults, v => SameSite(w, v)); }
  }

  lemma CurrentKept(r: Result, ops: seq<Op>, c: Option<CurrentRecord>)
    requires r.w.current == c
    requires forall i :: 0 <= i < |ops| ==> !(ops[i].WriteCurrent? || ops[i].RestoreRecord? || ops[i].RemoveRecord?)
    ensures Then(r, ops).w.current == c
  {
    if r.outcome == Ok { ExecKeeps(ops, r.w, r.faults, (v: World) => v.current == c); }
  }

  lemma CurrentSurvives(op: Op, c: Option<CurrentRecord>, v: World, tx: Tx, s: Snapshot, unit: bool, web: bool, inv: World -> bool)
    requires tx.hadRecord == c.Some? && s.record == c && inv(v) && Guarded(v, tx, s)
    requires IsRestoring(op, tx, unit, web) && forall v: World :: inv(v) <==> v.current == c
    ensures Survives(op, v, inv)
  {
  }

  lemma CurrentSurvivesUndoing(c: Option<CurrentRecord>, tx: Tx, s: Snapshot, inv: World -> bool)
    requires tx.hadRecord == c.Some? && s.record == c && s.unit.Some? && s.copy.Some?
    requires forall v: World :: inv(v) <==> v.current == c
    ensures SurvivesUndoing(tx, s, inv)
  {
    forall u, i, v | inv(u) && Guarded(u, tx, s) && inv(v) && Guarded(v, tx, s) && 0 <= i < |RestoreOps(u, tx)|
      ensures Survives(RestoreOps(u, tx)[i], v, inv)
    {
      RestoringOps(u, tx, s, i);
      CurrentSurvives(RestoreOps(u, tx)[i], c, v, tx, s, UnitDiffers(u, s), u.spa != tx.previousSpa, inv);
    }
  }

  lemma GuardedBlock(r: Result, ops: seq<Op>, tx: Tx, s: Snapshot)
    requires AllGuard(ops, tx) && Guarded(r.w, tx, s) && r.outcome in {Ok, Raised, Crashed}
    ensures Guarded(Then(r, ops).w, tx, s) && Then(r, ops).outcome in {Ok, Raised, Crashed}
  {
    GuardedThen(r, ops, tx, s);
    ExecOutcome(ops, r.w, r.faults);
  }

  lemma BodyGuards(req: DeployRequest, tx: Tx)
    ensures AllGuard(StageOps(req, tx), tx) && AllGuard(ActivateOps(req, tx), tx) && AllGuard(PublishOps(req, tx), tx)
  {
  }

  /** The body of a deployment, block by block, with the snapshot guarded throughout. */
  lemma GuardedBlocks(r: Result, req: DeployRequest, tx: Tx, s: Snapshot)
    requires r.outcome == Ok && Guarded(r.w, tx, s)
    ensures var a := Then(r, StageOps(req, tx)); var b := Then(a, ActivateOps(req, tx)); var c := Then(b, PublishOps(req, tx));
      && Guarded(a.w, tx, s) && Guarded(b.w, tx, s) && Guarded(c.w, tx, s)
      && a.outcome in {Ok, Raised, Crashed} && b.outcome in {Ok, Raised, Crashed} && c.outcome in {Ok, Raised, Crashed}
  {
    BodyGuards(req, tx);
    var a := Then(r, StageOps(req, tx));
    GuardedBlock(r, StageOps(req, tx), tx, s);
    GuardedBlock(a, ActivateOps(req, tx), tx, s);
    GuardedBlock(Then(a, ActivateOps(req, tx)), PublishOps(req, tx), tx, s);
  }

  /** A deployment whose API does not answer never moves the pointer, whatever else goes wrong. */
  lemma UnansweredDeployKeepsSite(w: World, req: DeployRequest, faults: seq<Fault>)
    requires !req.found.answers
    ensures SameSite(w, Deploy(w, req, faults).w)
  {
    if Deployable(w) {
      var tx := DeployTx(w, req);
      var s := SnapshotOf(w, tx);
      PrepareKeeps(w, req, faults);
      var r := PrepareDeploy(w, req, faults);
      if r.outcome == Ok {
        UnansweredBody(w, r, req, tx, s);
      }
    }
  }

  lemma UnansweredBody(w: World, r: Result, req: DeployRequest, tx: Tx, s: Snapshot)
    requires r.outcome == Ok && SameSite(w, r.w) && Guarded(r.w, tx, s) && s == SnapshotOf(w, tx)
    requires tx.previousSpa == w.spa && tx.hadRecord == w.current.Some? && !req.found.answers
    ensures var body := DeployBody(r, req, tx);
      && body.outcome in {Raised, Crashed} && SameSite(w, body.w)
      && SameSite(w, Undo(body, tx, [Mark(tx, RollbackStarted)], RolledBack).w)
  {
    var a := Then(r, StageOps(req, tx));
    SiteKept(r, StageOps(req, tx), w);
    SiteKept(a, ActivateOps(req, tx), w);
    ActivateLeaves(a, req, tx);
    GuardedBlocks(r, req, tx, s);
    var inv := (v: World) => SameSite(w, v);
    SiteSurvivesUndoing(w, tx, s, inv);
    UndoPreserves(Then(a, ActivateOps(req, tx)), tx, [Mark(tx, RollbackStarted)], RolledBack, s, inv);
  }

  lemma {:induction false} FailedCheckStops(ops: seq<Op>, w: World, faults: seq<Fault>, i: nat)
    requires i < |ops| && ops[i] == Check(false)
    ensures Exec(ops, w, faults).outcome != Ok
  {
    var (outcome, v) := Attempt(ops[0], w, Next(faults));
    if i > 0 && outcome == Ok { FailedCheckStops(ops[1..], v, Later(faults), i - 1); }
  }

  /** Publication whose checks fail stops before the current record is written. */
  lemma PublicationStops(r: Result, head: seq<Op>, tail: seq<Op>, i: nat, c: Option<CurrentRecord>)
    requires i < |head| && head[i] == Check(false) && r.w.current == c
    requires forall k :: 0 <= k < |head| ==> !(head[k].WriteCurrent? || head[k].RestoreRecord? || head[k].RemoveRecord?)
    ensures Then(r, head + tail).outcome != Ok && Then(r, head + tail).w.current == c
  {
    if r.outcome == Ok {
      ExecConcat(head, tail, r.w, r.faults);
      CurrentKept(r, head, c);
      FailedCheckStops(head, r.w, r.faults, i);
    }
  }

  /** A deployment that is not healthy, or finds the database changed, is never recorded as current. */
  lemma UnhealthyDeployIsNotRecorded(w: World, req: DeployRequest, faults: seq<Fault>)
    requires !(req.found.healthy && req.found.dataKept)
    ensures Deploy(w, req, faults).w.current == w.current
  {
    if Deployable(w) {
      var tx := DeployTx(w, req);
      var s := SnapshotOf(w, tx);
      PrepareKeeps(w, req, faults);
      var r := PrepareDeploy(w, req, faults);
      if r.outcome == Ok {
        UnhealthyBody(w, r, req, tx, s);
      }
    }
  }

  lemma UnhealthyBody(w: World, r: Result, req: DeployRequest, tx: Tx, s: Snapshot)
    requires r.outcome == Ok && Guarded(r.w, tx, s) && r.w.current == w.current && !(req.found.healthy && req.found.dataKept)
    requires tx.hadRecord == w.current.Some? && s.record == w.current && s.unit.Some? && s.copy.Some?
    ensures var body := DeployBody(r, req, tx);
      && body.outcome in {Raised, Crashed} && body.w.current == w.current
      && Undo(body, tx, [Mark(tx, RollbackStarted)], RolledBack).w.current == w.current
  {
    GuardedBlocks(r, req, tx, s);
    UnpublishedKeepsCurrent(r, req, tx, w.current);
    var body := Then(Then(Then(r, StageOps(req, tx)), ActivateOps(req, tx)), PublishOps(req, tx));
    var inv := (v: World) => v.current == w.current;
    CurrentSurvivesUndoing(w.current, tx, s, inv);
    UndoPreserves(body, tx, [Mark(tx, RollbackStarted)], RolledBack, s, inv);
  }

  lemma UnpublishedKeepsCurrent(r: Result, req: DeployRequest, tx: Tx, c: Option<CurrentRecord>)
    requires r.w.current == c && !(req.found.healthy && req.found.dataKept)
    ensures var q := Then(Then(Then(r, StageOps(req, tx)), ActivateOps(req, tx)), PublishOps(req, tx));
      q.outcome != Ok && q.w.current == c
  {
    var a := Then(r, StageOps(req, tx));
    CurrentKept(r, StageOps(req, tx), c);
    CurrentKept(a, ActivateOps(req, tx), c);
    var head := [SwitchSpa(req.spa), Mark(tx, SpaSwitched), RestartWeb, Mark(tx, CaddyRestarted),
                 Check(req.found.healthy), Check(req.found.dataKept)];
    var tail := [WriteCurrent(CurrentRecord(req.releaseId, req.imageRef, req.spa)), Mark(tx, Complete)];
    assert PublishOps(req, tx) == head + tail;
    PublicationStops(Then(a, ActivateOps(req, tx)), head, tail, if req.found.healthy then 5 else 4, c);
  }

  /** Nor is a selected rollback. */
  lemma UnhealthyRollbackIsNotRecorded(w: World, req: RollbackRequest, faults: seq<Fault>)
    requires w.active.None? && !(req.found.healthy && req.found.dataKept)
    ensures Rollback(w, req, faults).w.current == w.current
  {
    if Selectable(w, req) {
      var tx := RollbackTx(w, req);
      var prepare := [Check(req.found.accepted)] + SnapshotOps(w, tx);
      ExecOutcome(prepare, w, faults);
      CheckedSnapshot(w, tx, req.found.accepted, faults);
      var r := Exec(prepare, w, faults);
      if r.outcome == Ok { UnhealthySelection(w, r, req, tx, SnapshotOf(w, tx)); }
    }
  }

  lemma CheckedSnapshot(w: World, tx: Tx, accepted: bool, faults: seq<Fault>)
    requires w.active.None? && !tx.deploys && tx.hadRecord == w.current.Some?
    ensures var r := Exec([Check(accepted)] + SnapshotOps(w, tx), w, faults);
      && r.w.current == w.current
      && (r.outcome == Ok ==> Guarded(r.w, tx, SnapshotOf(w, tx)))
  {
    ExecConcat([Check(accepted)], SnapshotOps(w, tx), w, faults);
    ExecSingle(Check(accepted), w, faults);
    TakeSnapshot(w, tx, Later(faults));
  }

  lemma UnhealthySelection(w: World, r: Result, req: RollbackRequest, tx: Tx, s: Snapshot)
    requires req.releaseId in w.releases && !(req.found.healthy && req.found.dataKept)
    requires r.outcome == Ok && Guarded(r.w, tx, s) && r.w.current == w.current
    requires tx.hadRecord == w.current.Some? && s.record == w.current && s.unit.Some? && s.copy.Some?
    ensures var body := Then(SelectMain(r, req, w.releases[req.releaseId], tx), ArchiveOps(tx, RollbackComplete));
      && body.outcome in {Raised, Crashed} && body.w.current == w.current
      && Undo(body, tx, [], RollbackReverted).w.current == w.current
  {
    var target := w.releases[req.releaseId];
    var a := Then(r, SelectOps(target, tx));
    CurrentKept(r, SelectOps(target, tx), w.current);
    var head := [SwitchSpa(target.spa), Mark(tx, SpaSwitched), RestartWeb, Check(req.found.healthy), Check(req.found.dataKept)];
    var tail := [WriteCurrent(CurrentRecord(req.releaseId, target.imageRef, target.spa))];
    assert ExposeOps(req, target, tx) == head + tail;
    PublicationStops(a, head, tail, if req.found.healthy then 4 else 3, w.current);
    SelectMainKeeps(r, req, target, tx, s);
    var inv := (v: World) => v.current == w.current;
    CurrentSurvivesUndoing(w.current, tx, s, inv);
    UndoPreserves(SelectMain(r, req, target, tx), tx, [], RollbackReverted, s, inv);
  }
}
