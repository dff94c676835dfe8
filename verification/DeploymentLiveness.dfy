/** When a deployment in which nothing goes wrong completes. */
module DeploymentLiveness {
  import opened Wrappers
  import opened UnitText
  import opened Deployment
  import opened DeploymentSafety
  import opened DeploymentTheorems

  /** Operations that apply in every state. */
  predicate Total(op: Op) {
    op.RetainLegacy? || op.Mark? || op.CopyUnit? || op.Reload? || op.RestartApi? ||
    op.SwitchSpa? || op.RestartWeb? || op.WriteCurrent?
  }

  lemma TotalSucceeds(ops: seq<Op>, w: World)
    requires forall i :: 0 <= i < |ops| ==> Total(ops[i])
    ensures Exec(ops, w, []).outcome == Ok && Exec(ops, w, []).faults == []
  {
    var anything := (v: World) => true;
    forall i, v {:trigger Do(ops[i], v)} | 0 <= i < |ops| && anything(v) ensures Do(ops[i], v).Some? { assert Total(ops[i]); }
    ExecSucceeds(ops, w, anything);
  }

  /** A list whose first operation decides whether it completes. */
  lemma FirstDecides(op: Op, rest: seq<Op>, w: World)
    requires Do(op, w).Some? ==> Exec(rest, Do(op, w).value, []).outcome == Ok
    ensures Exec([op] + rest, w, []).outcome == Ok <==> Do(op, w).Some?
  {
    ExecConcat([op], rest, w, []);
    ExecSingle(op, w, []);
  }

  /** A list that completes exactly when its checks pass, its other operations applying in every state. */
  lemma {:induction false} ChecksDecide(ops: seq<Op>, w: World, passes: bool)
    requires forall i :: 0 <= i < |ops| ==> Total(ops[i]) || ops[i].Check?
    requires passes <==> forall i :: 0 <= i < |ops| && ops[i].Check? ==> ops[i].passes
    ensures Exec(ops, w, []).outcome == Ok <==> passes
  {
    if ops != [] {
      var rest := ops[1..];
      assert forall i :: 0 <= i < |rest| ==> rest[i] == ops[i + 1];
      assert Total(ops[0]) || ops[0].Check?;
      if Do(ops[0], w).Some? {
        ChecksDecide(rest, Do(ops[0], w).value, forall i :: 0 <= i < |rest| && rest[i].Check? ==> rest[i].passes);
        if forall i :: 0 <= i < |rest| && rest[i].Check? ==> rest[i].passes {
          forall i | 0 <= i < |ops| && ops[i].Check? ensures ops[i].passes { if i > 0 { assert rest[i - 1] == ops[i]; } }
        }
      }
    }
  }

  // ----- Before the marker -----

  function LegacyOf(w: World, req: DeployRequest): Release
    requires Deployable(w)
  {
    Release(req.oldCommit, LoadImage(w.unit, API_NAME).value, w.spa)
  }

  /** The retained records once the old release is among them. */
  function RecordsOf(w: World, req: DeployRequest): map<string, Release>
    requires Deployable(w)
  {
    if LegacyId(req.oldCommit) in w.releases then w.releases else w.releases[LegacyId(req.oldCommit) := LegacyOf(w, req)]
  }

  predicate Saves(op: Op, tx: Tx) {
    op == SnapUnit(tx.dir) || op == SnapCopy(tx.dir) || (tx.hadRecord && op == SnapRecord(tx.dir)) || op.Mark?
  }

  ghost predicate CanSave(w: World, tx: Tx) {
    tx.dir in w.snapshots && (tx.hadRecord ==> w.current.Some?)
  }

  lemma SavingSucceeds(ops: seq<Op>, w: World, tx: Tx)
    requires CanSave(w, tx) && forall i :: 0 <= i < |ops| ==> Saves(ops[i], tx)
    ensures Exec(ops, w, []).outcome == Ok
  {
    var inv := (v: World) => CanSave(v, tx);
    forall i, v {:trigger Do(ops[i], v)} | 0 <= i < |ops| && inv(v) ensures Do(ops[i], v).Some? { assert Saves(ops[i], tx); }
    ExecSucceeds(ops, w, inv);
  }

  lemma SnapshotCompletesIff(w: World, tx: Tx)
    requires tx.hadRecord == w.current.Some?
    ensures Exec(SnapshotOps(w, tx), w, []).outcome == Ok <==> tx.dir !in w.snapshots
  {
    var rest := [SnapUnit(tx.dir), SnapCopy(tx.dir)] + (if tx.hadRecord then [SnapRecord(tx.dir)] else []) + [Mark(tx, Prepared)];
    assert SnapshotOps(w, tx) == [MakeDir(tx.dir)] + rest;
    if tx.dir !in w.snapshots { SavingSucceeds(rest, Do(MakeDir(tx.dir), w).value, tx); }
    FirstDecides(MakeDir(tx.dir), rest, w);
  }

  lemma RecordsKept(ops: seq<Op>, w: World, releases: map<string, Release>)
    requires w.releases == releases && forall i :: 0 <= i < |ops| ==> !ops[i].RetainLegacy? && !ops[i].WriteRelease?
    ensures Exec(ops, w, []).w.releases == releases
  {
    ExecKeeps(ops, w, [], (v: World) => v.releases == releases);
  }

  lemma PrepareCompletesIff(w: World, req: DeployRequest)
    requires Deployable(w)
    ensures var r := PrepareDeploy(w, req, []);
      && (r.outcome == Ok <==> req.txId !in w.snapshots && req.found.admitted)
      && r.faults == []
      && (r.outcome == Ok ==> TripleOf(r.w) == TripleOf(w) && r.w.releases == RecordsOf(w, req))
  {
    var tx := DeployTx(w, req);
    var retain := RetainLegacy(LegacyId(req.oldCommit), LegacyOf(w, req));
    var ops := [Check(req.found.admitted), retain];
    NoFaultsLeft(ops, w);
    if req.found.admitted {
      ChecksDecide(ops, w, true);
      var p := Path(ops, w, []);
      assert Do(ops[0], p[0]) == Some(p[1]) && Do(ops[1], p[1]) == Some(p[2]);
      var v := Exec(ops, w, []).w;
      assert v == w.(releases := RecordsOf(w, req));
      SnapshotCompletesIff(v, tx);
      assert SnapshotOps(v, tx) == SnapshotOps(w, tx);
      NoFaultsLeft(SnapshotOps(w, tx), v);
      RecordsKept(SnapshotOps(w, tx), v, v.releases);
      PrepareKeeps(w, req, []);
    }
  }

  // ----- Behind the marker -----

  /** The record to be written is new, or already there as it would be written. */
  predicate Recordable(releases: map<string, Release>, req: DeployRequest) {
    req.releaseId in releases ==> releases[req.releaseId] == Release(req.commit, req.imageRef, req.spa)
  }

  lemma StageCompletesIff(w: World, req: DeployRequest, tx: Tx)
    ensures Exec(StageOps(req, tx), w, []).outcome == Ok <==>
      IsImageId(req.imageRef) && req.found.schemaFits && req.found.archiveFits && Recordable(w.releases, req)
    ensures TripleOf(Exec(StageOps(req, tx), w, []).w) == TripleOf(w)
  {
    var middle := [Mark(tx, ImageImported), Check(req.found.schemaFits), Mark(tx, SchemaCompatible),
                   Check(req.found.archiveFits), Mark(tx, SpaStaged)];
    var last := WriteRelease(req.releaseId, Release(req.commit, req.imageRef, req.spa));
    assert StageOps(req, tx) == [Import(req.imageRef)] + (middle + [last]);
    TripleThroughout(StageOps(req, tx), w, []);
    assert middle[1] == Check(req.found.schemaFits) && middle[3] == Check(req.found.archiveFits);
    assert forall i :: 0 <= i < |middle| && i != 1 && i != 3 ==> !middle[i].Check?;
    ChecksDecide(middle, w, req.found.schemaFits && req.found.archiveFits);
    NoFaultsLeft(middle, w);
    RecordsKept(middle, w, w.releases);
    ExecConcat(middle, [last], w, []);
    ExecSingle(last, Exec(middle, w, []).w, []);
    ExecConcat([Import(req.imageRef)], middle + [last], w, []);
    ExecSingle(Import(req.imageRef), w, []);
  }

  lemma ActivateCompletesIff(w: World, req: DeployRequest, tx: Tx)
    ensures Exec(ActivateOps(req, tx), w, []).outcome == Ok <==> Updatable(w, req.imageRef) && req.found.answers
  {
    var rest := [CopyUnit, Mark(tx, ApiUnitUpdated), Reload, RestartApi, Mark(tx, ApiRestarted), Check(req.found.answers)];
    assert ActivateOps(req, tx) == [UpdateUnit(req.imageRef)] + rest;
    ExecConcat([UpdateUnit(req.imageRef)], rest, w, []);
    ExecSingle(UpdateUnit(req.imageRef), w, []);
    if Updatable(w, req.imageRef) {
      assert rest[5].Check? && forall i :: 0 <= i < 5 ==> !rest[i].Check?;
      ChecksDecide(rest, Do(UpdateUnit(req.imageRef), w).value, req.found.answers);
    }
  }

  lemma PublishCompletesIff(w: World, req: DeployRequest, tx: Tx)
    ensures Exec(PublishOps(req, tx), w, []).outcome == Ok <==> req.found.healthy && req.found.dataKept
  {
    var ops := PublishOps(req, tx);
    assert ops[4] == Check(req.found.healthy) && ops[5] == Check(req.found.dataKept);
    assert forall i :: 0 <= i < |ops| && i != 4 && i != 5 ==> !ops[i].Check?;
    ChecksDecide(ops, w, req.found.healthy && req.found.dataKept);
  }

  /** Everything that a deployment will find behind its marker is as it should be. */
  predicate Passes(found: Findings) {
    found.schemaFits && found.archiveFits && found.answers && found.healthy && found.dataKept
  }

  lemma BodyCompletesIff(r: Result, req: DeployRequest, tx: Tx, s: Snapshot)
    requires r.outcome == Ok && r.faults == [] && Guarded(r.w, tx, s)
    ensures DeployBody(r, req, tx).outcome == Ok <==>
      IsImageId(req.imageRef) && Recordable(r.w.releases, req) && Updatable(r.w, req.imageRef) && Passes(req.found)
  {
    StageCompletesIff(r.w, req, tx);
    NoFaultsLeft(StageOps(req, tx), r.w);
    var a := Then(r, StageOps(req, tx));
    if a.outcome == Ok {
      ActivateCompletesIff(a.w, req, tx);
      NoFaultsLeft(ActivateOps(req, tx), a.w);
      var b := Then(a, ActivateOps(req, tx));
      if b.outcome == Ok {
        PublishCompletesIff(b.w, req, tx);
        NoFaultsLeft(PublishOps(req, tx), b.w);
        DeployMainKeeps(r, req, tx, s);
        ArchiveSucceeds(DeployMain(r, req, tx).w, tx, s, Complete);
      }
    }
  }

  /**
   * Undisturbed, a deployment completes exactly when the installation is at rest and consistent,
   * the transaction is new, the image has an ID, the unit has one Image setting, the release is
   * not on record as something else, and every check passes.
   */
  lemma DeployCompletesIff(w: World, req: DeployRequest)
    ensures Deploy(w, req, []).outcome == Ok <==>
      && w.active.None? && w.unit == w.copy && LoadImage(w.unit, API_NAME).Some?
      && req.txId !in w.snapshots && req.found.admitted && Passes(req.found)
      && IsImageId(req.imageRef) && Updatable(w, req.imageRef) && Recordable(RecordsOf(w, req), req)
  {
    if Deployable(w) {
      var tx := DeployTx(w, req);
      PrepareCompletesIff(w, req);
      PrepareKeeps(w, req, []);
      var prepared := PrepareDeploy(w, req, []);
      if prepared.outcome == Ok {
        BodyCompletesIff(prepared, req, tx, SnapshotOf(w, tx));
        UndoNeverOk(DeployBody(prepared, req, tx), tx, [Mark(tx, RollbackStarted)], RolledBack);
      }
    }
  }

  // ----- Rolling back -----

  lemma ExposeCompletesIff(w: World, req: RollbackRequest, target: Release, tx: Tx)
    ensures Exec(ExposeOps(req, target, tx), w, []).outcome == Ok <==> req.found.healthy && req.found.dataKept
  {
    var ops := ExposeOps(req, target, tx);
    assert ops[3] == Check(req.found.healthy) && ops[4] == Check(req.found.dataKept);
    assert forall i :: 0 <= i < |ops| && i != 3 && i != 4 ==> !ops[i].Check?;
    ChecksDecide(ops, w, req.found.healthy && req.found.dataKept);
  }

  lemma SelectBodyCompletesIff(r: Result, req: RollbackRequest, target: Release, tx: Tx, s: Snapshot)
    requires r.outcome == Ok && r.faults == [] && Guarded(r.w, tx, s)
    ensures Then(SelectMain(r, req, target, tx), ArchiveOps(tx, RollbackComplete)).outcome == Ok <==>
      Updatable(r.w, target.imageRef) && req.found.healthy && req.found.dataKept
  {
    var rest := [CopyUnit, Mark(tx, ApiUnitUpdated), Reload, RestartApi];
    assert SelectOps(target, tx) == [UpdateUnit(target.imageRef)] + rest;
    if Updatable(r.w, target.imageRef) { TotalSucceeds(rest, Do(UpdateUnit(target.imageRef), r.w).value); }
    FirstDecides(UpdateUnit(target.imageRef), rest, r.w);
    NoFaultsLeft(SelectOps(target, tx), r.w);
    var a := Then(r, SelectOps(target, tx));
    if a.outcome == Ok {
      ExposeCompletesIff(a.w, req, target, tx);
      NoFaultsLeft(ExposeOps(req, target, tx), a.w);
      SelectMainKeeps(r, req, target, tx, s);
      ArchiveSucceeds(SelectMain(r, req, target, tx).w, tx, s, RollbackComplete);
    }
  }

  lemma SelectPreparesIff(w: World, req: RollbackRequest)
    requires w.active.None?
    ensures var tx := RollbackTx(w, req); var r := Exec([Check(req.found.accepted)] + SnapshotOps(w, tx), w, []);
      && (r.outcome == Ok <==> req.dir !in w.snapshots && req.found.accepted)
      && r.faults == []
      && (r.outcome == Ok ==> Guarded(r.w, tx, SnapshotOf(w, tx)) && TripleOf(r.w) == TripleOf(w))
  {
    var tx := RollbackTx(w, req);
    ExecConcat([Check(req.found.accepted)], SnapshotOps(w, tx), w, []);
    ExecSingle(Check(req.found.accepted), w, []);
    SnapshotCompletesIff(w, tx);
    NoFaultsLeft([Check(req.found.accepted)] + SnapshotOps(w, tx), w);
    TakeSnapshot(w, tx, []);
  }

  /**
   * Undisturbed, a selected rollback completes exactly when the release is retained under an
   * immutable reference, the installation is consistent, its directory is new, the unit has one
   * Image setting, and every check passes.
   */
  lemma RollbackCompletesIff(w: World, req: RollbackRequest)
    requires w.active.None?
    ensures Rollback(w, req, []).outcome == Ok <==>

      && req.releaseId in w.releases && ImmutableRef(w.releases[req.releaseId].imageRef)
      && w.unit == w.copy && LoadImage(w.unit, API_NAME).Some?
      && req.dir !in w.snapshots && Updatable(w, w.releases[req.releaseId].imageRef)
      && req.found == RollbackFindings(true, true, true)
  {
    if Selectable(w, req) {
      var tx := RollbackTx(w, req);
      SelectPreparesIff(w, req);
      var prepared := Exec([Check(req.found.accepted)] + SnapshotOps(w, tx), w, []);
      if prepared.outcome == Ok {
        var target := w.releases[req.releaseId];
        SelectBodyCompletesIff(prepared, req, target, tx, SnapshotOf(w, tx));
        var main := SelectMain(prepared, req, target, tx);
        UndoNeverOk(Then(main, ArchiveOps(tx, RollbackComplete)), tx, [], RollbackReverted);
      }
    }
  }

  /**
   * What a deployment replaced can be rolled back to, when nothing goes wrong, exactly when it was
   * named by an immutable reference.
   */
  lemma DeployedCanBeUndoneIff(w: World, req: DeployRequest, faults: seq<Fault>, back: RollbackRequest)
    requires w.active.None? && LegacyId(req.oldCommit) !in w.releases
    requires Deploy(w, req, faults).outcome == Ok && back.releaseId == LegacyId(req.oldCommit)
    requires back.dir !in Deploy(w, req, faults).w.snapshots && back.found == RollbackFindings(true, true, true)
    ensures Rollback(Deploy(w, req, faults).w, back, []).outcome == Ok <==> ImmutableRef(LoadImage(w.unit, API_NAME).value)
  {
    var m := Deploy(w, req, faults).w;
    var ref := LoadImage(w.unit, API_NAME).value;
    DeployKeepsRecoverable(w, req, faults, TripleOf(w));
    DeployRetainsLegacy(w, req, faults);
    RollbackCompletesIff(m, back);
    if ImmutableRef(ref) {
      ImmutableRefIsPlain(ref);
      ImmutableRefIsPlain(req.imageRef);
      PutPut(w.unit, req.imageRef, ref);
      PutGet(w.unit, req.imageRef, API_NAME);
    }
  }

  // ----- Which commands can strand an installation -----

  /** If a transaction is active, it can be rolled back. */
  predicate WayBack(w: World) {
    w.active.Some? ==> RecoveryAllowed(w)
  }

  /** The record a transaction rolls back to is retained as `release`, and no other transaction is active. */
  ghost predicate Bound(w: World, tx: Tx, release: Release) {
    tx.previousRelease in w.releases && w.releases[tx.previousRelease] == release && (w.active.Some? ==> w.active.value.tx == tx)
  }

  /** Operations that mark no other transaction. */
  predicate MarksOnly(ops: seq<Op>, tx: Tx) {
    forall i :: 0 <= i < |ops| ==> ops[i].Mark? ==> ops[i].tx == tx
  }

  lemma BoundSurvives(op: Op, w: World, inv: World -> bool, tx: Tx, release: Release)
    requires (op.Mark? ==> op.tx == tx) && inv(w) && forall v :: inv(v) <==> Bound(v, tx, release)
    ensures Survives(op, w, inv)
  {
  }

  lemma BoundThroughout(ops: seq<Op>, w: World, faults: seq<Fault>, tx: Tx, release: Release)
    requires Bound(w, tx, release) && MarksOnly(ops, tx)
    ensures Bound(Exec(ops, w, faults).w, tx, release)
  {
    var inv := v => Bound(v, tx, release);
    forall i, v | 0 <= i < |ops| && inv(v) ensures Survives(ops[i], v, inv) { BoundSurvives(ops[i], v, inv, tx, release); }
    ExecKeeps(ops, w, faults, inv);
  }

  lemma BoundThen(r: Result, ops: seq<Op>, tx: Tx, release: Release)
    requires Bound(r.w, tx, release) && MarksOnly(ops, tx)
    ensures Bound(Then(r, ops).w, tx, release)
  {
    if r.outcome == Ok { BoundThroughout(ops, r.w, r.faults, tx, release); }
  }

  lemma BoundUndo(r: Result, tx: Tx, announce: seq<Op>, phase: Phase, release: Release)
    requires Bound(r.w, tx, release) && MarksOnly(announce, tx)
    ensures Bound(Undo(r, tx, announce, phase).w, tx, release)
  {
    BoundThroughout(announce, r.w, r.faults, tx, release);
    var started := Exec(announce, r.w, r.faults);
    if started.outcome == Ok {
      BoundThroughout(RestoreOps(started.w, tx), started.w, started.faults, tx, release);
      var restored := Exec(RestoreOps(started.w, tx), started.w, started.faults);
      BoundThroughout(ArchiveOps(tx, phase), restored.w, restored.faults, tx, release);
      BoundThroughout([Mark(tx, RollbackFailed)], restored.w, restored.faults, tx, release);
    }
  }

  lemma BoundDeploy(r: Result, req: DeployRequest, tx: Tx, release: Release)
    requires Bound(r.w, tx, release)
    ensures Bound(DeployBody(r, req, tx).w, tx, release)
    ensures Bound(Undo(DeployBody(r, req, tx), tx, [Mark(tx, RollbackStarted)], RolledBack).w, tx, release)
  {
    var a := Then(r, StageOps(req, tx));
    BoundThen(r, StageOps(req, tx), tx, release);
    var b := Then(a, ActivateOps(req, tx));
    BoundThen(a, ActivateOps(req, tx), tx, release);
    BoundThen(b, PublishOps(req, tx), tx, release);
    BoundThen(Then(b, PublishOps(req, tx)), ArchiveOps(tx, Complete), tx, release);
    BoundUndo(DeployBody(r, req, tx), tx, [Mark(tx, RollbackStarted)], RolledBack, release);
  }

  lemma NoMarkerIfDirectoryExists(w: World, tx: Tx, faults: seq<Fault>)
    requires tx.dir in w.snapshots && w.active.None?
    ensures var r := Exec(SnapshotOps(w, tx), w, faults); r.outcome != Ok && r.w.active.None?
  {
    assert SnapshotOps(w, tx)[0] == MakeDir(tx.dir);
  }

  /** Once the old release is retained, no fault changes what the transaction rolls back to. */
  lemma RetainedIsBound(w: World, req: DeployRequest, faults: seq<Fault>)
    requires Deployable(w)
    ensures var r := Exec([Check(req.found.admitted), RetainLegacy(LegacyId(req.oldCommit), LegacyOf(w, req))], w, faults);
      r.outcome == Ok ==> Bound(r.w, DeployTx(w, req), RecordsOf(w, req)[LegacyId(req.oldCommit)])
  {
    var ops := [Check(req.found.admitted), RetainLegacy(LegacyId(req.oldCommit), LegacyOf(w, req))];
    if Exec(ops, w, faults).outcome == Ok {
      var p := Path(ops, w, faults);
      assert Do(ops[0], p[0]) == Some(p[1]) && Do(ops[1], p[1]) == Some(p[2]);
    }
  }

  lemma DeployKeepsRecord(w: World, req: DeployRequest, faults: seq<Fault>)
    requires Deployable(w)
    ensures var v := Deploy(w, req, faults).w;
      v.active.Some? ==> req.txId !in w.snapshots && Bound(v, DeployTx(w, req), RecordsOf(w, req)[LegacyId(req.oldCommit)])
  {
    var tx, release := DeployTx(w, req), RecordsOf(w, req)[LegacyId(req.oldCommit)];
    var ops := [Check(req.found.admitted), RetainLegacy(LegacyId(req.oldCommit), LegacyOf(w, req))];
    ExecKeeps(ops, w, faults, (v: World) => v.active.None? && v.snapshots == w.snapshots && v.current == w.current);
    var r := Exec(ops, w, faults);
    if r.outcome == Ok {
      RetainedIsBound(w, req, faults);
      assert SnapshotOps(w, tx) == SnapshotOps(r.w, tx);
      if req.txId in w.snapshots {
        NoMarkerIfDirectoryExists(r.w, tx, r.faults);
      } else {
        BoundThroughout(SnapshotOps(w, tx), r.w, r.faults, tx, release);
        BoundDeploy(PrepareDeploy(w, req, faults), req, tx, release);
      }
    }
  }

  /** A deployment that dies just behind its marker. */
  lemma DeployDiesAtMarker(w: World, req: DeployRequest) returns (faults: seq<Fault>)
    requires Deployable(w) && req.txId !in w.snapshots && req.found.admitted
    ensures var v := Deploy(w, req, faults).w;
      v.active.Some? && v.active.value.tx == DeployTx(w, req) && v.releases == RecordsOf(w, req)
  {
    faults := Undisturbed(PrepareLength(w, req)) + [CrashBefore];
    PrepareCompletesIff(w, req);
    PrepareKeeps(w, req, []);
    PrepareUndisturbed(w, req, [CrashBefore]);
    var prepared := PrepareDeploy(w, req, []).w;
    assert Deploy(w, req, faults).w == prepared;
  }

  /**
   * Whatever goes wrong, a deployment leaves a way back exactly when it cannot start, or the record
   * it would roll back to is, or will be, retained under an immutable reference.
   */
  lemma DeployStrandsIff(w: World, req: DeployRequest)
    requires w.active.None?
    ensures (forall faults :: WayBack(Deploy(w, req, faults).w)) <==>
      !Deployable(w) || !req.found.admitted || req.txId in w.snapshots || ImmutableRef(RecordsOf(w, req)[LegacyId(req.oldCommit)].imageRef)
  {
    if Deployable(w) {
      if req.found.admitted && req.txId !in w.snapshots && !ImmutableRef(RecordsOf(w, req)[LegacyId(req.oldCommit)].imageRef) {
        var faults := DeployDiesAtMarker(w, req);
        assert !WayBack(Deploy(w, req, faults).w);
      } else {
        forall faults ensures WayBack(Deploy(w, req, faults).w) { DeployKeepsRecord(w, req, faults); }
      }
    }
  }

  lemma SelectKeepsRecord(w: World, req: RollbackRequest, faults: seq<Fault>)
    requires w.active.None? && req.releaseId in w.releases && RollbackTx(w, req).previousRelease in w.releases
    ensures var tx := RollbackTx(w, req); Bound(Select(w, req, faults).w, tx, w.releases[tx.previousRelease])
  {
    var tx := RollbackTx(w, req);
    var release, target := w.releases[tx.previousRelease], w.releases[req.releaseId];
    BoundThroughout([Check(req.found.accepted)] + SnapshotOps(w, tx), w, faults, tx, release);
    var a := Exec([Check(req.found.accepted)] + SnapshotOps(w, tx), w, faults);
    BoundThen(a, SelectOps(target, tx), tx, release);
    var b := Then(a, SelectOps(target, tx));
    BoundThen(b, ExposeOps(req, target, tx), tx, release);
    var c := Then(b, ExposeOps(req, target, tx));
    BoundThen(c, ArchiveOps(tx, RollbackComplete), tx, release);
    BoundUndo(Then(c, ArchiveOps(tx, RollbackComplete)), tx, [], RollbackReverted, release);
  }

  lemma SelectNeedsDirectory(w: World, req: RollbackRequest, faults: seq<Fault>)
    requires w.active.None? && req.releaseId in w.releases && (req.dir in w.snapshots || !req.found.accepted)
    ensures Select(w, req, faults).w.active.None?
  {
    var tx := RollbackTx(w, req);
    var check := Check(req.found.accepted);
    ExecConcat([check], SnapshotOps(w, tx), w, faults);
    ExecSingle(check, w, faults);
    if Exec([check], w, faults).outcome == Ok { NoMarkerIfDirectoryExists(w, tx, Later(faults)); }
  }

  lemma SelectDiesAtMarker(w: World, req: RollbackRequest) returns (faults: seq<Fault>)
    requires w.active.None? && req.releaseId in w.releases && req.dir !in w.snapshots && req.found.accepted
    ensures var v := Select(w, req, faults).w;
      v.active.Some? && v.active.value.tx == RollbackTx(w, req) && v.releases == w.releases
  {
    var tx := RollbackTx(w, req);
    var ops := [Check(req.found.accepted)] + SnapshotOps(w, tx);
    faults := Undisturbed(|ops|) + [CrashBefore];
    SelectPreparesIff(w, req);
    ExecThenDisturb(ops, w, [CrashBefore]);
    RecordsKept(ops, w, w.releases);
  }

  /**
   * Whatever goes wrong, a selected rollback leaves a way back exactly when it cannot start, or what
   * it would return to is retained under an immutable reference.
   */
  lemma RollbackStrandsIff(w: World, req: RollbackRequest)
    requires w.active.None?
    ensures var previous := RollbackTx(w, req).previousRelease;
      (forall faults :: WayBack(Rollback(w, req, faults).w)) <==>
        !Selectable(w, req) || !req.found.accepted || req.dir in w.snapshots ||
        (previous in w.releases && ImmutableRef(w.releases[previous].imageRef))
  {
    var previous := RollbackTx(w, req).previousRelease;
    if Selectable(w, req) {
      if req.dir in w.snapshots || !req.found.accepted {
        forall faults ensures WayBack(Rollback(w, req, faults).w) { SelectNeedsDirectory(w, req, faults); }
      } else if previous in w.releases && ImmutableRef(w.releases[previous].imageRef) {
        forall faults ensures WayBack(Rollback(w, req, faults).w) { SelectKeepsRecord(w, req, faults); }
      } else {
        var faults := SelectDiesAtMarker(w, req);
        assert !WayBack(Rollback(w, req, faults).w);
      }
    }
  }

  // ----- A failed restart of the web server -----

  /** Redeploying the same unit and pointer, with the web server's restart failing. */
  lemma RedeployCanLeaveWebStopped(w: World, req: DeployRequest) returns (faults: seq<Fault>)
    requires Deploy(w, req, []).outcome == Ok && !ChangesUnit(w, req.imageRef) && req.spa == w.spa
    ensures Deploy(w, req, faults).outcome == Restored && Deploy(w, req, faults).w.web == Stopped
  {
    PrepareKeeps(w, req, []);
    PrepareUndisturbed(w, req, []);
    var rest := WebRestartFails(PrepareDeploy(w, req, []).w, req, DeployTx(w, req));
    faults := RaisedAtRest(w, req, rest);
  }

  lemma WebRestartFails(w: World, req: DeployRequest, tx: Tx) returns (rest: seq<Fault>)
    requires DeployBody(Result(Ok, w, []), req, tx).outcome == Ok
    ensures var body := DeployBody(Result(Ok, w, rest), req, tx);
      && body.outcome == Raised && body.faults == [] && body.w.web == Stopped && Updatable(w, req.imageRef)
      && TripleOf(body.w) == Selected(w, req.imageRef, req.spa)
  {
    var stage, activate := StageOps(req, tx), ActivateOps(req, tx);
    var last := Undisturbed(2) + [RaiseHalted];
    var middle := Undisturbed(|activate|) + last;
    rest := Undisturbed(|stage|) + middle;
    NoFaultsLeft(stage, w);
    ExecThenDisturb(stage, w, middle);
    var a := Exec(stage, w, []).w;
    NoFaultsLeft(activate, a);
    ExecThenDisturb(activate, a, last);
    ActivatedTriple(w, req, tx);
    PublicationHalts(Exec(activate, a, []).w, req, tx);
    BodyStopsInPublication(Result(Ok, w, rest), req, tx, Exec(PublishOps(req, tx), Exec(activate, a, []).w, last));
  }

  lemma ActivatedTriple(w: World, req: DeployRequest, tx: Tx)
    ensures var v := Exec(StageOps(req, tx), w, []).w; var r := Exec(ActivateOps(req, tx), v, []);
      r.outcome == Ok ==> Updatable(w, req.imageRef) && TripleOf(r.w) == Selected(w, req.imageRef, w.spa)
  {
    var rest := [Mark(tx, ApiUnitUpdated), Reload, RestartApi, Mark(tx, ApiRestarted), Check(req.found.answers)];
    TripleThroughout(StageOps(req, tx), w, []);
    ActivateTriple(Exec(StageOps(req, tx), w, []).w, [], req.imageRef, rest);
    assert ActivateOps(req, tx) == [UpdateUnit(req.imageRef), CopyUnit] + rest;
  }

  lemma BodyStopsInPublication(r: Result, req: DeployRequest, tx: Tx, q: Result)
    requires q == Then(Then(Then(r, StageOps(req, tx)), ActivateOps(req, tx)), PublishOps(req, tx)) && q.outcome != Ok
    ensures DeployBody(r, req, tx) == q
  {
  }

  lemma PublicationHalts(v: World, req: DeployRequest, tx: Tx)
    requires Exec(PublishOps(req, tx), v, []).outcome == Ok
    ensures var q := Exec(PublishOps(req, tx), v, Undisturbed(2) + [RaiseHalted]);
      q.outcome == Raised && q.faults == [] && q.w.web == Stopped && TripleOf(q.w) == TripleOf(v).(spa := req.spa)
  {
    var head := [SwitchSpa(req.spa), Mark(tx, SpaSwitched)];
    var write := WriteCurrent(CurrentRecord(req.releaseId, req.imageRef, req.spa));
    var tail := [Mark(tx, CaddyRestarted), Check(req.found.healthy), Check(req.found.dataKept), write, Mark(tx, Complete)];
    assert PublishOps(req, tx) == head + ([RestartWeb] + tail);
    HaltAt(head, RestartWeb, tail, v);
    PublishTriple(v, [], req.spa, [Mark(tx, SpaSwitched)]);
    assert head == [SwitchSpa(req.spa)] + [Mark(tx, SpaSwitched)];
  }

  /** The pointer stays; the web server runs on it, or was stopped once the unit had changed. */
  ghost predicate WebOrUnit(w: World, spa: string, after: string) {
    w.spa == spa && (w.web == Running(spa) || (w.web == Stopped && w.unit == after))
  }

  lemma WebUntouched(r: Result, ops: seq<Op>, spa: string)
    requires r.w.spa == spa && r.w.web == Running(spa) && forall i :: 0 <= i < |ops| ==> !ops[i].SwitchSpa? && !ops[i].RestartWeb?
    ensures Then(r, ops).w.spa == spa && Then(r, ops).w.web == Running(spa)
  {
    if r.outcome == Ok { ExecKeeps(ops, r.w, r.faults, (v: World) => v.spa == spa && v.web == Running(spa)); }
  }

  lemma WebOrUnitSurvives(op: Op, w: World, inv: World -> bool, spa: string, after: string)
    requires !op.UpdateUnit? && !op.RestoreUnit? && (op.SwitchSpa? ==> op.spa == spa)
    requires inv(w) && forall v: World :: inv(v) <==> v.unit == after && WebOrUnit(v, spa, after)
    ensures Survives(op, w, inv)
  {
  }

  lemma WebAfterUnit(r: Result, ops: seq<Op>, spa: string, after: string)
    requires r.w.unit == after && WebOrUnit(r.w, spa, after)
    requires forall i :: 0 <= i < |ops| ==>
      !ops[i].UpdateUnit? && !ops[i].RestoreUnit? && (ops[i].SwitchSpa? ==> ops[i].spa == spa)
    ensures Then(r, ops).w.unit == after && WebOrUnit(Then(r, ops).w, spa, after)
  {
    if r.outcome == Ok {
      var inv := (v: World) => v.unit == after && WebOrUnit(v, spa, after);
      forall i, v | 0 <= i < |ops| && inv(v) ensures Survives(ops[i], v, inv) { WebOrUnitSurvives(ops[i], v, inv, spa, after); }
      ExecKeeps(ops, r.w, r.faults, inv);
    }
  }

  /** When the pointer stays, the web server is stopped only once the unit has changed. */
  lemma BodyKeepsPointer(r: Result, req: DeployRequest, tx: Tx, spa: string)
    requires r.outcome == Ok && req.spa == spa == r.w.spa && r.w.web == Running(spa) && Updatable(r.w, req.imageRef)
    ensures WebOrUnit(DeployBody(r, req, tx).w, spa, UpdateImage(r.w.unit, req.imageRef).value)
  {
    var after := UpdateImage(r.w.unit, req.imageRef).value;
    UntilActivated(r, req, tx, spa);
    var b := Then(Then(r, StageOps(req, tx)), ActivateOps(req, tx));
    if b.outcome == Ok {
      WebAfterUnit(b, PublishOps(req, tx), spa, after);
      WebAfterUnit(Then(b, PublishOps(req, tx)), ArchiveOps(tx, Complete), spa, after);
    }
  }

  lemma UntilActivated(r: Result, req: DeployRequest, tx: Tx, spa: string)
    requires r.outcome == Ok && r.w.spa == spa && r.w.web == Running(spa)
    ensures var b := Then(Then(r, StageOps(req, tx)), ActivateOps(req, tx));
      && b.w.spa == spa && b.w.web == Running(spa)
      && (b.outcome == Ok ==> Updatable(r.w, req.imageRef) && b.w.unit == UpdateImage(r.w.unit, req.imageRef).value)
  {
    var a := Then(r, StageOps(req, tx));
    WebUntouched(r, StageOps(req, tx), spa);
    WebUntouched(a, ActivateOps(req, tx), spa);
    TripleThroughout(StageOps(req, tx), r.w, r.faults);
    if a.outcome == Ok {
      var rest := [Mark(tx, ApiUnitUpdated), Reload, RestartApi, Mark(tx, ApiRestarted), Check(req.found.answers)];
      assert ActivateOps(req, tx) == [UpdateUnit(req.imageRef), CopyUnit] + rest;
      ActivateTriple(a.w, a.faults, req.imageRef, rest);
    }
  }

  /** A deployment of another unit under the same pointer that is restored leaves the web server running. */
  lemma ChangedUnitKeepsWeb(w: World, req: DeployRequest, faults: seq<Fault>)
    requires InStep(w) && Deployable(w) && ChangesUnit(w, req.imageRef) && req.spa == w.spa
    requires Deploy(w, req, faults).outcome == Restored
    ensures Deploy(w, req, faults).w.web == Running(w.spa)
  {
    var tx := DeployTx(w, req);
    var s := SnapshotOf(w, tx);
    PrepareKeeps(w, req, faults);
    var prepared := PrepareDeploy(w, req, faults);
    var body := DeployBody(prepared, req, tx);
    BodyKeepsPointer(prepared, req, tx, w.spa);
    BodyIsGuarded(prepared, req, tx, s);
    assert body.outcome == Raised;
    UndoneWeb(body, tx, s, w.spa, UpdateImage(w.unit, req.imageRef).value);
  }

  lemma BodyIsGuarded(r: Result, req: DeployRequest, tx: Tx, s: Snapshot)
    requires r.outcome == Ok && Guarded(r.w, tx, s)
    ensures var body := DeployBody(r, req, tx);
      body.outcome in {Ok, Raised, Crashed} && (body.outcome == Raised ==> Guarded(body.w, tx, s))
  {
    DeployMainKeeps(r, req, tx, s);
    var main := DeployMain(r, req, tx);
    ArchiveThen(main, tx, s, Complete);
    ExecOutcome(ArchiveOps(tx, Complete), main.w, main.faults);
    assert DeployBody(r, req, tx) == Then(DeployMain(r, req, tx), ArchiveOps(tx, Complete));
  }

  lemma UndoneWeb(body: Result, tx: Tx, s: Snapshot, spa: string, after: string)
    requires Guarded(body.w, tx, s) && Whole(tx, s) && tx.previousSpa == spa && s.unit.value != after &&
      WebOrUnit(body.w, spa, after)
    ensures var q := Undo(body, tx, [Mark(tx, RollbackStarted)], RolledBack); q.outcome == Restored ==> q.w.web == Running(spa)
  {
    UndoServices(body, tx, s, RolledBack);
  }

  /**
   * The web server is certain to run on the restored pointer exactly when the deployment would
   * change the unit's bytes or move the pointer.
   */
  lemma RestoredWebRunsIff(w: World, req: DeployRequest)
    requires InStep(w) && Deploy(w, req, []).outcome == Ok
    ensures (forall faults :: Deploy(w, req, faults).outcome == Restored ==> Deploy(w, req, faults).w.web == Running(w.spa))
      <==> ChangesUnit(w, req.imageRef) || req.spa != w.spa
  {
    if req.spa != w.spa {
      forall faults | Deploy(w, req, faults).outcome == Restored ensures Deploy(w, req, faults).w.web == Running(w.spa) {
        FailedDeployIsUndone(w, req, faults);
      }
    } else if ChangesUnit(w, req.imageRef) {
      forall faults | Deploy(w, req, faults).outcome == Restored ensures Deploy(w, req, faults).w.web == Running(w.spa) {
        ChangedUnitKeepsWeb(w, req, faults);
      }
    } else {
      var faults := RedeployCanLeaveWebStopped(w, req);
      assert Deploy(w, req, faults).outcome == Restored;
    }
  }
}
