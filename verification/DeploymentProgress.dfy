/** What the marker of a deployment that stopped, for whatever reason, says about how far it got. */
module DeploymentProgress {
  import opened Wrappers
  import opened UnitText
  import opened Deployment
  import opened DeploymentSafety
  import opened DeploymentTheorems
  import opened DeploymentOutcomes

  /** Where a list of operations stopped, and the states before that. */
  lemma {:induction false} StoppedAt(ops: seq<Op>, w: World, faults: seq<Fault>) returns (k: nat, path: seq<World>)
    requires Exec(ops, w, faults).outcome != Ok
    ensures k < |ops| && |path| == k + 1 && path[0] == w
    ensures forall i :: 0 <= i < k ==> Do(ops[i], path[i]) == Some(path[i + 1])
    ensures Leaves(ops[k], path[k], Exec(ops, w, faults).w)
  {
    var (outcome, v) := Attempt(ops[0], w, Next(faults));
    if outcome != Ok {
      k, path := 0, [w];
    } else {
      var j, rest := StoppedAt(ops[1..], v, Later(faults));
      k, path := j + 1, [w] + rest;
      forall i | 0 <= i < k ensures Do(ops[i], path[i]) == Some(path[i + 1]) {
        if i > 0 { assert ops[i] == ops[1..][i - 1] && path[i] == rest[i - 1]; }
      }
    }
  }

  /** The state after an operation that did not go through, or did but was the last. */
  ghost predicate Leaves(op: Op, w: World, v: World) {
    v == w || v == Halted(op, w) || Do(op, w) == Some(v)
  }

  /** The new unit, where the old one can be rewritten. */
  ghost function NewUnit(w: World, req: DeployRequest): string {
    if Updatable(w, req.imageRef) then UpdateImage(w.unit, req.imageRef).value else w.unit
  }

  /** What systemd has loaded and runs, and the current record, are those of before. */
  ghost predicate ServicesUntouched(w: World, v: World) {
    SameSite(w, v) && v.loaded == w.loaded && v.api == w.api
  }

  ghost predicate UnitInstalled(w: World, req: DeployRequest, v: World) {
    Updatable(w, req.imageRef) && v.unit == NewUnit(w, req) && v.copy == NewUnit(w, req)
  }

  ghost predicate ApiStarted(w: World, req: DeployRequest, v: World) {
    UnitInstalled(w, req, v) && v.loaded == v.unit && v.api == Service.Running(v.unit)
  }

  /** What a phase says of a state reached from w. The phases of handlers and rollbacks say nothing here. */
  ghost predicate Progress(w: World, req: DeployRequest, v: World, phase: Phase) {
    match phase
    case Prepared => RunningUntouched(w, v)
    case ImageImported => RunningUntouched(w, v) && IsImageId(req.imageRef)
    case SchemaCompatible => RunningUntouched(w, v) && IsImageId(req.imageRef) && req.found.schemaFits
    case SpaStaged =>
      && ServicesUntouched(w, v) && req.found.schemaFits && req.found.archiveFits
      && v.unit in {w.unit, NewUnit(w, req)} && v.copy in {w.copy, v.unit}
    case ApiUnitUpdated => UnitInstalled(w, req, v) && SameSite(w, v)
    case ApiRestarted =>
      ApiStarted(w, req, v) && v.web == w.web && v.current == w.current && (v.spa == w.spa || (v.spa == req.spa && req.found.answers))
    case SpaSwitched => ApiStarted(w, req, v) && v.spa == req.spa && v.current == w.current && req.found.answers
    case CaddyRestarted =>
      && ApiStarted(w, req, v) && v.spa == req.spa && v.web == Service.Running(req.spa)
      && (v.current == w.current ||
          (v.current == Some(CurrentRecord(req.releaseId, req.imageRef, req.spa)) && req.found.healthy && req.found.dataKept))
    case Complete =>
      && ApiStarted(w, req, v) && v.spa == req.spa && v.web == Service.Running(req.spa)
      && v.current == Some(CurrentRecord(req.releaseId, req.imageRef, req.spa)) && req.found.healthy && req.found.dataKept
    case _ => true
  }

  /** The marker is one of this transaction, and its phase says what is so. */
  ghost predicate Marked(w: World, req: DeployRequest, v: World) {
    v.active.Some? && Progress(w, req, v, v.active.value.phase)
  }

  lemma StagingStops(w: World, r: World, req: DeployRequest, tx: Tx, faults: seq<Fault>)
    requires RunningUntouched(w, r) && r.active == Some(Marker(tx, Prepared))
    ensures Exec(StageOps(req, tx), r, faults).outcome != Ok ==> Marked(w, req, Exec(StageOps(req, tx), r, faults).w)
  {
    var ops := StageOps(req, tx);
    if Exec(ops, r, faults).outcome != Ok {
      var k, p := StoppedAt(ops, r, faults);
      assert k > 0 ==> Do(ops[0], p[0]) == Some(p[1]);
      assert k > 1 ==> Do(ops[1], p[1]) == Some(p[2]);
      assert k > 2 ==> Do(ops[2], p[2]) == Some(p[3]);
      assert k > 3 ==> Do(ops[3], p[3]) == Some(p[4]);
      assert k > 4 ==> Do(ops[4], p[4]) == Some(p[5]);
      assert k > 5 ==> Do(ops[5], p[5]) == Some(p[6]);
    }
  }

  /** A list in two parts stopped in the first or in the second. */
  lemma StopsInPart(first: seq<Op>, last: seq<Op>, w: World, faults: seq<Fault>)
    ensures var r := Exec(first, w, faults);
      Exec(first + last, w, faults) == if r.outcome == Ok then Exec(last, r.w, r.faults) else r
  {
    ExecConcat(first, last, w, faults);
  }

  lemma FilesStop(w: World, r: World, req: DeployRequest, tx: Tx, faults: seq<Fault>)
    requires RunningUntouched(w, r) && r.active == Some(Marker(tx, SpaStaged)) && req.found.schemaFits && req.found.archiveFits
    ensures var q := Exec([UpdateUnit(req.imageRef), CopyUnit, Mark(tx, ApiUnitUpdated)], r, faults);
      q.outcome != Ok ==> Marked(w, req, q.w)
  {
    var ops := [UpdateUnit(req.imageRef), CopyUnit, Mark(tx, ApiUnitUpdated)];
    if Exec(ops, r, faults).outcome != Ok {
      var k, p := StoppedAt(ops, r, faults);
      assert k > 0 ==> Do(ops[0], p[0]) == Some(p[1]);
      assert k > 1 ==> Do(ops[1], p[1]) == Some(p[2]);
    }
  }

  lemma StartStops(w: World, r: World, req: DeployRequest, tx: Tx, faults: seq<Fault>)
    requires UnitInstalled(w, req, r) && SameSite(w, r) && r.active == Some(Marker(tx, ApiUnitUpdated))
    ensures var q := Exec([Reload, RestartApi, Mark(tx, ApiRestarted), Check(req.found.answers)], r, faults);
      q.outcome != Ok ==> Marked(w, req, q.w)
  {
    var ops := [Reload, RestartApi, Mark(tx, ApiRestarted), Check(req.found.answers)];
    if Exec(ops, r, faults).outcome != Ok {
      var k, p := StoppedAt(ops, r, faults);
      assert k > 0 ==> Do(ops[0], p[0]) == Some(p[1]);
      assert k > 1 ==> Do(ops[1], p[1]) == Some(p[2]);
      assert k > 2 ==> Do(ops[2], p[2]) == Some(p[3]);
    }
  }

  lemma ActivationStops(w: World, r: World, req: DeployRequest, tx: Tx, faults: seq<Fault>)
    requires RunningUntouched(w, r) && r.active == Some(Marker(tx, SpaStaged)) && req.found.schemaFits && req.found.archiveFits
    ensures Exec(ActivateOps(req, tx), r, faults).outcome != Ok ==> Marked(w, req, Exec(ActivateOps(req, tx), r, faults).w)
  {
    var first := [UpdateUnit(req.imageRef), CopyUnit, Mark(tx, ApiUnitUpdated)];
    var last := [Reload, RestartApi, Mark(tx, ApiRestarted), Check(req.found.answers)];
    assert ActivateOps(req, tx) == first + last;
    StopsInPart(first, last, r, faults);
    FilesStop(w, r, req, tx, faults);
    FilesLeave(r, req.imageRef, tx, faults);
    var v := Exec(first, r, faults);
    if v.outcome == Ok { StartStops(w, v.w, req, tx, v.faults); }
  }

  lemma PointerStops(w: World, r: World, req: DeployRequest, tx: Tx, faults: seq<Fault>)
    requires ApiStarted(w, req, r) && SameSite(w, r) && req.found.answers && r.active == Some(Marker(tx, ApiRestarted))
    ensures var q := Exec([SwitchSpa(req.spa), Mark(tx, SpaSwitched), RestartWeb], r, faults);
      q.outcome != Ok ==> Marked(w, req, q.w)
  {
    var ops := [SwitchSpa(req.spa), Mark(tx, SpaSwitched), RestartWeb];
    if Exec(ops, r, faults).outcome != Ok {
      var k, p := StoppedAt(ops, r, faults);
      assert k > 0 ==> Do(ops[0], p[0]) == Some(p[1]);
      assert k > 1 ==> Do(ops[1], p[1]) == Some(p[2]);
    }
  }

  lemma RecordWriteStops(w: World, r: World, req: DeployRequest, tx: Tx, faults: seq<Fault>)
    requires ApiStarted(w, req, r) && req.found.healthy && req.found.dataKept && r.active == Some(Marker(tx, CaddyRestarted))
    requires r.spa == req.spa && r.web == Service.Running(req.spa) && r.current == w.current
    ensures var q := Exec([WriteCurrent(CurrentRecord(req.releaseId, req.imageRef, req.spa)), Mark(tx, Complete)], r, faults);
      q.outcome != Ok ==> Marked(w, req, q.w)
  {
    var ops := [WriteCurrent(CurrentRecord(req.releaseId, req.imageRef, req.spa)), Mark(tx, Complete)];
    if Exec(ops, r, faults).outcome != Ok {
      var k, p := StoppedAt(ops, r, faults);
      assert k > 0 ==> Do(ops[0], p[0]) == Some(p[1]);
    }
  }

  lemma RecordStops(w: World, r: World, req: DeployRequest, tx: Tx, faults: seq<Fault>)
    requires ApiStarted(w, req, r) && req.found.answers && r.active == Some(Marker(tx, SpaSwitched))
    requires r.spa == req.spa && r.web == Service.Running(req.spa) && r.current == w.current
    ensures var q := Exec(LastOps(req, tx), r, faults); q.outcome != Ok ==> Marked(w, req, q.w)
  {
    var record := CurrentRecord(req.releaseId, req.imageRef, req.spa);
    var first := [Mark(tx, CaddyRestarted), Check(req.found.healthy), Check(req.found.dataKept)];
    var last := [WriteCurrent(record), Mark(tx, Complete)];
    assert LastOps(req, tx) == first + last;
    StopsInPart(first, last, r, faults);
    var v := Exec(first, r, faults);
    if v.outcome != Ok {
      var k, p := StoppedAt(first, r, faults);
      assert k > 0 ==> Do(first[0], p[0]) == Some(p[1]);
      assert k > 1 ==> Do(first[1], p[1]) == Some(p[2]);
    } else {
      var q := Path(first, r, faults);
      assert Do(first[0], q[0]) == Some(q[1]) && Do(first[1], q[1]) == Some(q[2]) && Do(first[2], q[2]) == Some(q[3]);
      RecordWriteStops(w, v.w, req, tx, v.faults);
    }
  }

  ghost function LastOps(req: DeployRequest, tx: Tx): seq<Op> {
    [Mark(tx, CaddyRestarted), Check(req.found.healthy), Check(req.found.dataKept),
     WriteCurrent(CurrentRecord(req.releaseId, req.imageRef, req.spa)), Mark(tx, Complete)]
  }

  lemma PublicationStopsAt(w: World, r: World, req: DeployRequest, tx: Tx, faults: seq<Fault>)
    requires Updatable(w, req.imageRef) && req.found.answers && r.active == Some(Marker(tx, ApiRestarted))
    requires RunningUntouched(Serving(w, req.imageRef), r)
    ensures Exec(PublishOps(req, tx), r, faults).outcome != Ok ==> Marked(w, req, Exec(PublishOps(req, tx), r, faults).w)
  {
    var first := [SwitchSpa(req.spa), Mark(tx, SpaSwitched), RestartWeb];
    assert PublishOps(req, tx) == first + LastOps(req, tx);
    StopsInPart(first, LastOps(req, tx), r, faults);
    PointerStops(w, r, req, tx, faults);
    PointerLeaves(r, req.spa, tx, faults);
    var v := Exec(first, r, faults);
    if v.outcome == Ok { RecordStops(w, v.w, req, tx, v.faults); }
  }

  /** Archiving a transaction that is marked complete either moves the marker or changes nothing. */
  lemma ArchivingStops(r: World, tx: Tx, faults: seq<Fault>)
    requires r.active == Some(Marker(tx, Complete))
    ensures var v := Exec(ArchiveOps(tx, Complete), r, faults).w; v.active.Some? ==> v == r
  {
    StopsInPart([Finish(tx, Complete)], [Retire(tx)], r, faults);
    assert ArchiveOps(tx, Complete) == [Finish(tx, Complete)] + [Retire(tx)];
    ExecSingle(Finish(tx, Complete), r, faults);
    assert Do(Finish(tx, Complete), r) == Some(r);
    ExecSingle(Retire(tx), r, Later(faults));
  }

  /** Wherever the body stops, with the marker still there. */
  lemma BodyProgress(w: World, r: Result, req: DeployRequest, tx: Tx, s: Snapshot)
    requires r.outcome == Ok && RunningUntouched(w, r.w) && r.w.active == Some(Marker(tx, Prepared)) && Guarded(r.w, tx, s)
    ensures var v := DeployBody(r, req, tx).w; v.active.Some? ==> Marked(w, req, v)
  {
    var a := Then(r, StageOps(req, tx));
    StagingStops(w, r.w, req, tx, r.faults);
    StageLeaves(r, req, tx);
    if a.outcome == Ok {
      var b := Then(a, ActivateOps(req, tx));
      ActivationStops(w, a.w, req, tx, a.faults);
      ActivateLeaves(a, req, tx);
      if b.outcome == Ok {
        var c := Then(b, PublishOps(req, tx));
        PublicationStopsAt(w, b.w, req, tx, b.faults);
        PublishLeaves(b, req, tx);
        if c.outcome == Ok { ArchivingStops(c.w, tx, c.faults); }
      }
    }
  }

  /** The phases that the handler leaves. */
  predicate Handled(phase: Phase) {
    phase in {RollbackStarted, RollbackFailed, RolledBack}
  }

  /** Once the handler has made its mark, the marker shows only its own phases. */
  lemma HandlerMarks(r: Result, tx: Tx, s: Snapshot)
    requires Guarded(r.w, tx, s)
    ensures var v := Undo(r, tx, [Mark(tx, RollbackStarted)], RolledBack).w;
      v == r.w || (v.active.Some? ==> Handled(v.active.value.phase))
  {
    ExecSingle(Mark(tx, RollbackStarted), r.w, r.faults);
    var started := Exec([Mark(tx, RollbackStarted)], r.w, r.faults);
    if started.outcome == Ok {
      var inv := (v: World) => v.active.Some? ==> Handled(v.active.value.phase);
      HandledKept(RestoreOps(started.w, tx), started.w, started.faults, inv);
      var restored := Exec(RestoreOps(started.w, tx), started.w, started.faults);
      HandledKept(ArchiveOps(tx, RolledBack), restored.w, restored.faults, inv);
      HandledKept([Mark(tx, RollbackFailed)], restored.w, restored.faults, inv);
    }
  }

  lemma HandledSurvives(op: Op, v: World, inv: World -> bool)
    requires (op.Mark? || op.Finish? ==> Handled(op.phase)) && inv(v)
    requires forall u: World :: inv(u) <==> (u.active.Some? ==> Handled(u.active.value.phase))
    ensures Survives(op, v, inv)
  {
  }

  lemma HandledKept(ops: seq<Op>, w: World, faults: seq<Fault>, inv: World -> bool)
    requires inv(w) && forall v: World :: inv(v) <==> (v.active.Some? ==> Handled(v.active.value.phase))
    requires forall i :: 0 <= i < |ops| ==> (ops[i].Mark? || ops[i].Finish? ==> Handled(ops[i].phase))
    ensures inv(Exec(ops, w, faults).w)
  {
    forall i, v | 0 <= i < |ops| && inv(v) ensures Survives(ops[i], v, inv) { HandledSurvives(ops[i], v, inv); }
    ExecKeeps(ops, w, faults, inv);
  }

  /**
   * Whatever stopped a deployment, the phase its marker shows says what had been checked and done:
   * which files are new, what runs, and what is on record as current.
   */
  lemma MarkerTellsProgress(w: World, req: DeployRequest, faults: seq<Fault>)
    requires w.active.None?
    ensures var v := Deploy(w, req, faults).w;
      v.active.Some? ==> v.active.value.tx.id == req.txId && Progress(w, req, v, v.active.value.phase)
  {
    if Deployable(w) {
      var tx := DeployTx(w, req);
      var s := SnapshotOf(w, tx);
      PrepareKeeps(w, req, faults);
      var r := PrepareDeploy(w, req, faults);
      PreparationMarks(w, req, faults);
      if r.outcome == Ok {
        PreparedDeploy(w, req, faults);
        BodyProgress(w, r, req, tx, s);
        DeployKeepsTx(w, req, faults);
        var body := DeployBody(r, req, tx);
        if body.outcome == Raised {
          DeployMainKeeps(r, req, tx, s);
          ArchiveThen(DeployMain(r, req, tx), tx, s, Complete);
          HandlerMarks(body, tx, s);
        }
      }
    }
  }

  /** The marker is that of the transaction. */
  lemma DeployKeepsTx(w: World, req: DeployRequest, faults: seq<Fault>)
    requires Deployable(w) && PrepareDeploy(w, req, faults).outcome == Ok
    ensures var v := Deploy(w, req, faults).w; v.active.Some? ==> v.active.value.tx == DeployTx(w, req)
  {
    var tx := DeployTx(w, req);
    PrepareKeeps(w, req, faults);
    var r := PrepareDeploy(w, req, faults);
    DeployMainKeeps(r, req, tx, SnapshotOf(w, tx));
    CloseOrUndo(DeployMain(r, req, tx), tx, SnapshotOf(w, tx), Complete, [Mark(tx, RollbackStarted)], RolledBack);
  }

  lemma PreparationMarks(w: World, req: DeployRequest, faults: seq<Fault>)
    requires Deployable(w)
    ensures var v := PrepareDeploy(w, req, faults).w; v.active.Some? ==> v.active == Some(Marker(DeployTx(w, req), Prepared))
  {
    var tx := DeployTx(w, req);
    var legacy := Release(req.oldCommit, LoadImage(w.unit, API_NAME).value, w.spa);
    var ops := [Check(req.found.admitted), RetainLegacy(LegacyId(req.oldCommit), legacy)];
    PreparedKept(ops, w, faults, tx);
    var r := Exec(ops, w, faults);
    if r.outcome == Ok { PreparedKept(SnapshotOps(w, tx), r.w, r.faults, tx); }
  }

  lemma PreparedSurvives(op: Op, v: World, inv: World -> bool, tx: Tx)
    requires (op.Mark? ==> op == Mark(tx, Prepared)) && !op.Finish?
    requires inv(v) && forall u: World :: inv(u) <==> u.active in {None, Some(Marker(tx, Prepared))}
    ensures Survives(op, v, inv)
  {
  }

  lemma PreparedKept(ops: seq<Op>, w: World, faults: seq<Fault>, tx: Tx)
    requires w.active in {None, Some(Marker(tx, Prepared))}
    requires forall i :: 0 <= i < |ops| ==> (ops[i].Mark? ==> ops[i] == Mark(tx, Prepared)) && !ops[i].Finish?
    ensures Exec(ops, w, faults).w.active in {None, Some(Marker(tx, Prepared))}
  {
    var inv := (v: World) => v.active in {None, Some(Marker(tx, Prepared))};
    forall i, v | 0 <= i < |ops| && inv(v) ensures Survives(ops[i], v, inv) { PreparedSurvives(ops[i], v, inv, tx); }
    ExecKeeps(ops, w, faults, inv);
  }

  // ---------- every phase is shown ----------

  /** A list that dies just after its operation at i. */
  lemma DiesAfter(ops: seq<Op>, i: nat, w: World)
    requires Exec(ops, w, []).outcome == Ok && i < |ops| && ops[i].Mark?
    ensures var r := Exec(ops, w, Undisturbed(i) + [CrashAfter]);
      r.outcome == Crashed && r.w.active == Some(Marker(ops[i].tx, ops[i].phase))
  {
    var head, tail := ops[..i], ops[i..];
    assert ops == head + tail;
    ExecConcat(head, tail, w, []);
    ExecConcat(head, tail, w, Undisturbed(i) + [CrashAfter]);
    ExecThenDisturb(head, w, [CrashAfter]);
    assert tail[0] == ops[i];
  }

  /** A mark of the staging, the activation or the publication of a deployment. */
  ghost predicate IsMark(req: DeployRequest, tx: Tx, block: nat, i: nat, phase: Phase) {
    var ops := if block == 0 then StageOps(req, tx) else if block == 1 then ActivateOps(req, tx) else PublishOps(req, tx);
    i < |ops| && ops[i] == Mark(tx, phase)
  }

  lemma StageDies(r: Result, req: DeployRequest, tx: Tx, i: nat, phase: Phase) returns (rest: seq<Fault>)
    requires r.outcome == Ok && r.faults == [] && DeployBody(r, req, tx).outcome == Ok && IsMark(req, tx, 0, i, phase)
    ensures var body := DeployBody(Result(Ok, r.w, rest), req, tx); body.outcome == Crashed && body.w.active == Some(Marker(tx, phase))
  {
    rest := Undisturbed(i) + [CrashAfter];
    DiesAfter(StageOps(req, tx), i, r.w);
  }

  lemma ActivationDies(r: Result, req: DeployRequest, tx: Tx, i: nat, phase: Phase) returns (rest: seq<Fault>)
    requires r.outcome == Ok && r.faults == [] && DeployBody(r, req, tx).outcome == Ok && IsMark(req, tx, 1, i, phase)
    ensures var body := DeployBody(Result(Ok, r.w, rest), req, tx); body.outcome == Crashed && body.w.active == Some(Marker(tx, phase))
  {
    var last := Undisturbed(i) + [CrashAfter];
    rest := Undisturbed(|StageOps(req, tx)|) + last;
    NoFaultsLeft(StageOps(req, tx), r.w);
    ExecThenDisturb(StageOps(req, tx), r.w, last);
    DiesAfter(ActivateOps(req, tx), i, Exec(StageOps(req, tx), r.w, []).w);
  }

  lemma PublicationDies(r: Result, req: DeployRequest, tx: Tx, i: nat, phase: Phase) returns (rest: seq<Fault>)
    requires r.outcome == Ok && r.faults == [] && DeployBody(r, req, tx).outcome == Ok && IsMark(req, tx, 2, i, phase)
    ensures var body := DeployBody(Result(Ok, r.w, rest), req, tx); body.outcome == Crashed && body.w.active == Some(Marker(tx, phase))
  {
    var last := Undisturbed(i) + [CrashAfter];
    var middle := Undisturbed(|ActivateOps(req, tx)|) + last;
    rest := Undisturbed(|StageOps(req, tx)|) + middle;
    NoFaultsLeft(StageOps(req, tx), r.w);
    ExecThenDisturb(StageOps(req, tx), r.w, middle);
    var a := Exec(StageOps(req, tx), r.w, []).w;
    NoFaultsLeft(ActivateOps(req, tx), a);
    ExecThenDisturb(ActivateOps(req, tx), a, last);
    DiesAfter(PublishOps(req, tx), i, Exec(ActivateOps(req, tx), a, []).w);
  }

  /** Where a deployment marks a phase. */
  lemma MarkOf(req: DeployRequest, tx: Tx, phase: Phase) returns (block: nat, i: nat)
    requires phase in {ImageImported, SchemaCompatible, SpaStaged, ApiUnitUpdated, ApiRestarted, SpaSwitched, CaddyRestarted, Complete}
    ensures block < 3 && IsMark(req, tx, block, i, phase)
  {
    block := if phase in {ImageImported, SchemaCompatible, SpaStaged} then 0 else if phase in {ApiUnitUpdated, ApiRestarted} then 1 else 2;
    i := if phase in {ImageImported, SpaSwitched} then 1 else if phase == ApiUnitUpdated then 2
         else if phase in {SchemaCompatible, CaddyRestarted} then 3 else if phase in {SpaStaged, ApiRestarted} then 5 else 7;
  }

  lemma BodyDies(r: Result, req: DeployRequest, tx: Tx, phase: Phase) returns (rest: seq<Fault>)
    requires r.outcome == Ok && r.faults == [] && DeployBody(r, req, tx).outcome == Ok
    requires phase in {ImageImported, SchemaCompatible, SpaStaged, ApiUnitUpdated, ApiRestarted, SpaSwitched, CaddyRestarted, Complete}
    ensures var body := DeployBody(Result(Ok, r.w, rest), req, tx); body.outcome == Crashed && body.w.active == Some(Marker(tx, phase))
  {
    var block, i := MarkOf(req, tx, phase);
    if block == 0 { rest := StageDies(r, req, tx, i, phase); }
    else if block == 1 { rest := ActivationDies(r, req, tx, i, phase); }
    else { rest := PublicationDies(r, req, tx, i, phase); }
  }

  /** A deployment whose preparation is undisturbed. */
  lemma AfterPreparation(w: World, req: DeployRequest, rest: seq<Fault>) returns (faults: seq<Fault>)
    requires Deployable(w) && PrepareDeploy(w, req, []).outcome == Ok
    requires DeployBody(Result(Ok, PrepareDeploy(w, req, []).w, rest), req, DeployTx(w, req)).outcome == Crashed
    ensures Deploy(w, req, faults).w == DeployBody(Result(Ok, PrepareDeploy(w, req, []).w, rest), req, DeployTx(w, req)).w
  {
    PrepareUndisturbed(w, req, rest);
    faults := Undisturbed(PrepareLength(w, req)) + rest;
  }

  /** Each of its phases is what some death of a deployment leaves in its marker. */
  lemma EveryPhaseIsShown(w: World, req: DeployRequest, phase: Phase) returns (faults: seq<Fault>)
    requires Deploy(w, req, []).outcome == Ok
    requires phase in {Prepared, ImageImported, SchemaCompatible, SpaStaged, ApiUnitUpdated, ApiRestarted,
                       SpaSwitched, CaddyRestarted, Complete}
    ensures var v := Deploy(w, req, faults).w; v.active.Some? && v.active.value.tx.id == req.txId && v.active.value.phase == phase
  {
    var tx := DeployTx(w, req);
    UndisturbedStages(w, req);
    var r := PrepareDeploy(w, req, []);
    PrepareUndisturbed(w, req, []);
    var rest := [CrashBefore];
    if phase == Prepared {
      PreparationMarks(w, req, []);
      PrepareKeeps(w, req, []);
      assert DeployBody(Result(Ok, r.w, rest), req, tx).w == r.w;
    } else {
      UndoNeverOk(DeployBody(r, req, tx), tx, [Mark(tx, RollbackStarted)], RolledBack);
      rest := BodyDies(r, req, tx, phase);
    }
    faults := AfterPreparation(w, req, rest);
  }
}
