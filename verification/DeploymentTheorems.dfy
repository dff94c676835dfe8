/** The promises of the deployment protocol, over every request, every fault plan and every session. */
module DeploymentTheorems {
  import opened Wrappers
  import opened UnitText
  import opened Deployment
  import opened DeploymentSafety

  // ---------- sessions ----------

  datatype Command = DeployCommand(deploy: DeployRequest) | RollbackCommand(rollback: RollbackRequest)

  /** One invocation of the tool and everything that goes wrong during it. */
  datatype Invocation = Invocation(command: Command, faults: seq<Fault>)

  function Issue(w: World, i: Invocation): Result {
    match i.command
    case DeployCommand(req) => Deploy(w, req, i.faults)
    case RollbackCommand(req) => Rollback(w, req, i.faults)
  }

  function Session(w: World, invocations: seq<Invocation>): World
    decreases |invocations|
  {
    if invocations == [] then w else Session(Issue(w, invocations[0]).w, invocations[1..])
  }

  /** The new installation a command asks for, when it asks for one. */
  ghost function Target(w: World, command: Command): set<Triple> {
    match command
    case DeployCommand(req) => if Updatable(w, req.imageRef) then {Selected(w, req.imageRef, req.spa)} else {}
    case RollbackCommand(req) =>
      if req.releaseId in w.releases && Updatable(w, w.releases[req.releaseId].imageRef)
      then {Selected(w, w.releases[req.releaseId].imageRef, w.releases[req.releaseId].spa)} else {}
  }

  ghost function Targets(w: World, invocations: seq<Invocation>): set<Triple>
    decreases |invocations|
  {
    if invocations == [] then {}
    else Target(w, invocations[0].command) + Targets(Issue(w, invocations[0]).w, invocations[1..])
  }

  /** One command, one fault plan: the old installation stays recoverable, or the new one is wholly there. */
  lemma CommandIsAtomic(w: World, i: Invocation, base: Triple)
    requires Recoverable(w, base)
    ensures var r := Issue(w, i);
            Recoverable(r.w, base) || (r.w.active.None? && TripleOf(r.w) in Target(w, i.command))
  {
    match i.command
    case DeployCommand(req) => DeployKeepsRecoverable(w, req, i.faults, base);
    case RollbackCommand(req) =>
      if Selectable(w, req) {
        if w.active.Some? { RecoverKeepsRecoverable(w, req, i.faults, base); }
        else { SelectKeepsRecoverable(w, req, i.faults, base); }
      }
  }

  /**
   * After any number of commands, each failing or dying anywhere: one installation, the first
   * or one that some command asked for, is either wholly in place or intact behind the marker.
   */
  lemma {:induction false} EveryRunIsRecoverable(w: World, base: Triple, invocations: seq<Invocation>)
    requires Recoverable(w, base)
    ensures exists b :: b in {base} + Targets(w, invocations) && Recoverable(Session(w, invocations), b)
    decreases |invocations|
  {
    if invocations == [] {
      assert base in {base} + Targets(w, invocations) && Recoverable(Session(w, invocations), base);
    } else {
      CommandIsAtomic(w, invocations[0], base);
      var v := Issue(w, invocations[0]).w;
      var next := if Recoverable(v, base) then base else TripleOf(v);
      EveryRunIsRecoverable(v, next, invocations[1..]);
      var b :| b in {next} + Targets(v, invocations[1..]) && Recoverable(Session(v, invocations[1..]), b);
      assert b in {base} + Targets(w, invocations) && Recoverable(Session(w, invocations), b);
    }
  }

  // ---------- recovery ----------

  ghost predicate Applies(ops: seq<Op>, inv: World -> bool) {
    forall i, w {:trigger Do(ops[i], w)} | 0 <= i < |ops| && inv(w) :: Do(ops[i], w).Some?
  }

  lemma AppliesTail(ops: seq<Op>, inv: World -> bool)
    requires ops != [] && Applies(ops, inv)
    ensures Applies(ops[1..], inv)
  {
    forall i, w | 0 <= i < |ops[1..]| && inv(w)
      ensures Do(ops[1..][i], w).Some?
    {
      assert ops[1..][i] == ops[i + 1];
    }
  }

  lemma HeadApplies(ops: seq<Op>, w: World, inv: World -> bool)
    requires ops != [] && inv(w) && Closed(ops, inv) && Applies(ops, inv)
    ensures Do(ops[0], w).Some? && inv(Do(ops[0], w).value)
  {
    assert Survives(ops[0], w, inv);
  }

  /** Without faults a list succeeds when every operation applies throughout. */
  lemma {:induction false} ExecSucceeds(ops: seq<Op>, w: World, inv: World -> bool)
    requires inv(w) && Closed(ops, inv) && Applies(ops, inv)
    ensures Exec(ops, w, []).outcome == Ok && Exec(ops, w, []).faults == []
  {
    if ops != [] {
      HeadApplies(ops, w, inv);
      ClosedTail(ops, inv);
      AppliesTail(ops, inv);
      ExecSucceeds(ops[1..], Do(ops[0], w).value, inv);
    }
  }

  predicate Restores(op: Op, tx: Tx) {
    match op
    case External => true
    case RestoreUnit(d) => d == tx.dir
    case RestoreCopy(d) => d == tx.dir
    case RestoreRecord(d) => d == tx.dir && tx.hadRecord
    case _ => op.Reload? || op.RestartApi? || op.SwitchSpa? || op.RestartWeb? || op.RemoveRecord?
  }

  lemma RestoreApplies(ops: seq<Op>, tx: Tx, s: Snapshot)
    requires Whole(tx, s) && forall i :: 0 <= i < |ops| ==> Restores(ops[i], tx)
    ensures Closed(ops, v => Guarded(v, tx, s)) && Applies(ops, v => Guarded(v, tx, s))
  {
  }

  lemma PartSucceeds(r: Result, ops: seq<Op>, tx: Tx, s: Snapshot)
    requires r.outcome == Ok && r.faults == [] && Guarded(r.w, tx, s) && Whole(tx, s)
    requires forall i :: 0 <= i < |ops| ==> Restores(ops[i], tx)
    ensures Then(r, ops).outcome == Ok && Then(r, ops).faults == [] && Guarded(Then(r, ops).w, tx, s)
  {
    RestoreApplies(ops, tx, s);
    ExecSucceeds(ops, r.w, v => Guarded(v, tx, s));
    ExecKeeps(ops, r.w, [], v => Guarded(v, tx, s));
  }

  /** If restoring has to change anything, the service it does not restart is running. */
  ghost predicate Restorable(w: World, tx: Tx, s: Snapshot)
    requires Whole(tx, s)
  {
    UnitDiffers(w, s) || w.spa != tx.previousSpa ==>
      (UnitDiffers(w, s) || w.api.Running?) && (w.spa != tx.previousSpa || w.web.Running?)
  }

  /** Restoring up to the health check. */
  lemma FilesRestored(w: World, tx: Tx, s: Snapshot) returns (r: Result)
    requires Guarded(w, tx, s) && Whole(tx, s)
    ensures r.outcome == Ok && r.faults == [] && Guarded(r.w, tx, s)
    ensures r == Then(Then(Exec([External], w, []),
                           if UnitDiffers(w, s) then [RestoreUnit(tx.dir), RestoreCopy(tx.dir), Reload, RestartApi] else []),
                      if w.spa != tx.previousSpa then [SwitchSpa(tx.previousSpa), RestartWeb] else [])
    ensures TripleOf(r.w) == Saved(tx, s) && r.w.releases == w.releases
    ensures r.w.api.Running? <==> UnitDiffers(w, s) || w.api.Running?
    ensures r.w.web.Running? <==> w.spa != tx.previousSpa || w.web.Running?
  {
    var b := if UnitDiffers(w, s) then [RestoreUnit(tx.dir), RestoreCopy(tx.dir), Reload, RestartApi] else [];
    var c := if w.spa != tx.previousSpa then [SwitchSpa(tx.previousSpa), RestartWeb] else [];
    ExecSingle(External, w, []);
    var ra := Exec([External], w, []);
    PartSucceeds(ra, b, tx, s);
    PartSucceeds(Then(ra, b), c, tx, s);
    RestoreUnits(ra, UnitDiffers(w, s), tx, s);
    RestoreWeb(Then(ra, b), w.spa != tx.previousSpa, tx.previousSpa);
    r := Then(Then(ra, b), c);
  }

  lemma RestoreIs(w: World, tx: Tx, s: Snapshot, r: Result)
    requires Guarded(w, tx, s) && Whole(tx, s)
    requires r == Then(Then(Exec([External], w, []),
                            if UnitDiffers(w, s) then [RestoreUnit(tx.dir), RestoreCopy(tx.dir), Reload, RestartApi] else []),
                       if w.spa != tx.previousSpa then [SwitchSpa(tx.previousSpa), RestartWeb] else [])
    ensures Exec(RestoreOps(w, tx), w, []) ==
      Then(Then(r, if UnitDiffers(w, s) || w.spa != tx.previousSpa then [Healthy] else []),
           [if tx.hadRecord then RestoreRecord(tx.dir) else RemoveRecord])
  {
    FiveParts([External],
              if UnitDiffers(w, s) then [RestoreUnit(tx.dir), RestoreCopy(tx.dir), Reload, RestartApi] else [],
              if w.spa != tx.previousSpa then [SwitchSpa(tx.previousSpa), RestartWeb] else [],
              if UnitDiffers(w, s) || w.spa != tx.previousSpa then [Healthy] else [],
              [if tx.hadRecord then RestoreRecord(tx.dir) else RemoveRecord], w, []);
  }

  /** Undisturbed, restoring completes exactly when its health check does; either way the files and the pointer are back. */
  lemma RestoreSucceedsIff(w: World, tx: Tx, s: Snapshot)
    requires Guarded(w, tx, s) && Whole(tx, s)
    ensures var r := Exec(RestoreOps(w, tx), w, []);
            && r.faults == [] && Guarded(r.w, tx, s) && TripleOf(r.w) == Saved(tx, s) && r.w.releases == w.releases
            && r.outcome in {Ok, Raised} && (r.outcome == Ok <==> Restorable(w, tx, s))
            && (r.outcome == Ok ==> RestoredTo(r.w, tx, s))
  {
    var r := FilesRestored(w, tx, s);
    RestoreIs(w, tx, s, r);
    var needed := UnitDiffers(w, s) || w.spa != tx.previousSpa;
    ExecSingle(Healthy, r.w, []);
    var h := Then(r, if needed then [Healthy] else []);
    assert h.w == r.w && h.faults == [] && h.outcome in {Ok, Raised} && (h.outcome == Ok <==> Restorable(w, tx, s));
    ExecSingle(if tx.hadRecord then RestoreRecord(tx.dir) else RemoveRecord, h.w, []);
    RestoreCompletes(w, [], tx, s);
  }

  lemma ArchiveSucceeds(w: World, tx: Tx, s: Snapshot, phase: Phase)
    requires Guarded(w, tx, s)
    ensures Exec(ArchiveOps(tx, phase), w, []).outcome == Ok
  {
    ExecConcat([Finish(tx, phase)], [Retire(tx)], w, []);
    assert ArchiveOps(tx, phase) == [Finish(tx, phase)] + [Retire(tx)];
    ExecSingle(Finish(tx, phase), w, []);
    ExecSingle(Retire(tx), Exec([Finish(tx, phase)], w, []).w, []);
  }

  /** The record that an interrupted transaction must be rolled back to is there and accepted. */
  predicate RecoveryAllowed(w: World)
    requires w.active.Some?
  {
    var previous := w.active.value.tx.previousRelease;
    previous in w.releases && ImmutableRef(w.releases[previous].imageRef)
  }

  /** The recovery of an active transaction has nothing to change, or the service it does not restart is running. */
  ghost predicate RecoveryHealthy(w: World)
    requires w.active.Some? && w.active.value.tx.dir in w.snapshots &&
      Whole(w.active.value.tx, w.snapshots[w.active.value.tx.dir])
  {
    Restorable(w, w.active.value.tx, w.snapshots[w.active.value.tx.dir])
  }

  /**
   * Recovery with nothing going wrong completes exactly when the recorded release is retained under
   * an immutable reference and still accepted, and the health check can pass.
   */
  lemma RecoveryCompletesIff(w: World, req: RollbackRequest, base: Triple)
    requires Recoverable(w, base) && w.active.Some? && req.releaseId == w.active.value.tx.previousRelease
    ensures Rollback(w, req, []).outcome == Ok <==> RecoveryAllowed(w) && RecoveryHealthy(w) && req.found.accepted
  {
    if RecoveryAllowed(w) {
      var tx := w.active.value.tx;
      var s := w.snapshots[tx.dir];
      var target := w.releases[req.releaseId];
      ExecSingle(Check(req.found.accepted), w, []);
      RestoreSucceedsIff(w, tx, s);
      var restored := Exec(RestoreOps(w, tx), w, []);
      var write := WriteCurrent(CurrentRecord(req.releaseId, target.imageRef, target.spa));
      ExecSingle(write, restored.w, []);
      GuardedThen(restored, [write], tx, s);
      ArchiveSucceeds(Then(restored, [write]).w, tx, s, InterruptedRollbackComplete);
    }
  }

  /** A recovery that only its health check stopped has put the files back, so the next one completes. */
  lemma SecondRecoveryCompletes(w: World, req: RollbackRequest, base: Triple)
    requires Recoverable(w, base) && w.active.Some? && req.releaseId == w.active.value.tx.previousRelease
    requires RecoveryAllowed(w) && req.found.accepted && Rollback(w, req, []).outcome != Ok
    ensures var v := Rollback(w, req, []).w;
      && v.active == Some(Marker(w.active.value.tx, RollbackFailed)) && TripleOf(v) == base
      && Rollback(v, req, []).outcome == Ok
  {
    var tx := w.active.value.tx;
    var s := w.snapshots[tx.dir];
    RecoveryCompletesIff(w, req, base);
    ExecSingle(Check(req.found.accepted), w, []);
    RestoreSucceedsIff(w, tx, s);
    var restored := Exec(RestoreOps(w, tx), w, []);
    ExecSingle(Mark(tx, RollbackFailed), restored.w, []);
    var v := Rollback(w, req, []).w;
    assert v == restored.w.(active := Some(Marker(tx, RollbackFailed)));
    RecoverKeepsRecoverable(w, req, [], base);
    RecoveryCompletesIff(v, req, base);
  }

  /** Otherwise the installation is stranded: no session of commands changes anything any more. */
  lemma {:induction false} StrandedForever(w: World, invocations: seq<Invocation>)
    requires w.active.Some? && !RecoveryAllowed(w)
    ensures Session(w, invocations) == w
    decreases |invocations|
  {
    if invocations != [] {
      assert Issue(w, invocations[0]).w == w;
      StrandedForever(w, invocations[1..]);
    }
  }

  // ---------- undisturbed runs ----------

  function Undisturbed(n: nat): seq<Fault> {
    seq(n, _ => Proceed)
  }

  lemma {:induction false} ExecAlong(ops: seq<Op>, path: seq<World>, faults: seq<Fault>)
    requires |path| == |ops| + 1
    requires forall i :: 0 <= i < |ops| ==> Do(ops[i], path[i]) == Some(path[i + 1])
    ensures Exec(ops, path[0], Undisturbed(|ops|) + faults) == Result(Ok, path[|ops|], faults)
  {
    var plan := Undisturbed(|ops|) + faults;
    if ops == [] {
      assert plan == faults;
    } else {
      assert Later(plan) == Undisturbed(|ops[1..]|) + faults;
      assert Do(ops[0], path[0]) == Some(path[1]);
      forall i | 0 <= i < |ops[1..]| ensures Do(ops[1..][i], path[1..][i]) == Some(path[1..][i + 1]) {
        assert ops[1..][i] == ops[i + 1];
      }
      ExecAlong(ops[1..], path[1..], faults);
    }
  }

  /** If a list would succeed alone, it succeeds the same way with a plan that disturbs only what follows. */
  lemma ExecThenDisturb(ops: seq<Op>, w: World, faults: seq<Fault>)
    requires Exec(ops, w, []).outcome == Ok
    ensures Exec(ops, w, Undisturbed(|ops|) + faults) == Result(Ok, Exec(ops, w, []).w, faults)
  {
    var path := Path(ops, w, []);
    ExecAlong(ops, path, faults);
  }

  // ---------- failed deployments ----------

  /** Operations that concern neither the unit nor the API service. */
  predicate LeavesApi(op: Op) {
    !(op.UpdateUnit? || op.Reload? || op.RestartApi? || op.RestoreUnit?)
  }

  /** The API runs the unit on disk, or the unit is the new one. */
  ghost predicate ApiInStep(w: World, before: string, after: string) {
    (w.unit == before && w.api == Running(before) && w.loaded == before) || w.unit == after
  }

  ghost predicate WebInStep(w: World, before: string, after: string) {
    (w.spa == before && w.web == Running(before)) || w.spa == after
  }

  lemma ApiSurvives(op: Op, w: World, inv: World -> bool, before: string, after: string)
    requires LeavesApi(op) && inv(w) && forall v :: inv(v) <==> ApiInStep(v, before, after)
    ensures Survives(op, w, inv)
  {
  }

  lemma ApiKept(r: Result, ops: seq<Op>, before: string, after: string)
    requires ApiInStep(r.w, before, after) && forall i :: 0 <= i < |ops| ==> LeavesApi(ops[i])
    ensures ApiInStep(Then(r, ops).w, before, after)
  {
    if r.outcome == Ok {
      var inv := (v: World) => ApiInStep(v, before, after);
      forall i, v | 0 <= i < |ops| && inv(v) ensures Survives(ops[i], v, inv) { ApiSurvives(ops[i], v, inv, before, after); }
      ExecKeeps(ops, r.w, r.faults, inv);
    }
  }

  lemma UnitKept(r: Result, ops: seq<Op>, unit: string)
    requires r.w.unit == unit && forall i :: 0 <= i < |ops| ==> !ops[i].UpdateUnit? && !ops[i].RestoreUnit?
    ensures Then(r, ops).w.unit == unit
  {
    if r.outcome == Ok { ExecKeeps(ops, r.w, r.faults, (v: World) => v.unit == unit); }
  }

  /** Through activation the service is touched only once the unit differs. */
  lemma ApiThroughActivation(r: Result, ref: string, rest: seq<Op>, before: string, after: string)
    requires ApiInStep(r.w, before, after)
    requires forall v: World ::
      (v.unit == before || v.unit == after) && Do(UpdateUnit(ref), v).Some? ==>
        Do(UpdateUnit(ref), v).value == v.(unit := after)
    requires forall i :: 0 <= i < |rest| ==> !rest[i].UpdateUnit? && !rest[i].RestoreUnit?
    ensures ApiInStep(Then(r, [UpdateUnit(ref)] + rest).w, before, after)
  {
    if r.outcome == Ok {
      ExecConcat([UpdateUnit(ref)], rest, r.w, r.faults);
      ExecSingle(UpdateUnit(ref), r.w, r.faults);
      var head := Exec([UpdateUnit(ref)], r.w, r.faults);
      if head.outcome == Ok { UnitKept(head, rest, after); }
    }
  }

  /** Rewriting the old unit or the rewritten one gives the same unit. */
  lemma UpdateIsStable(before: string, ref: string, after: string)
    requires after == if ImmutableRef(ref) && '\\' !in ref && UpdateImage(before, ref).Some?
      then UpdateImage(before, ref).value else before
    ensures forall v: World ::
      (v.unit == before || v.unit == after) && Do(UpdateUnit(ref), v).Some? ==>
        Do(UpdateUnit(ref), v).value == v.(unit := after)
  {
    if ImmutableRef(ref) {
      ImmutableRefIsPlain(ref);
      if UpdateImage(before, ref).Some? { PutPut(before, ref, ref); }
    }
  }

  lemma WebSurvives(op: Op, w: World, inv: World -> bool, before: string, after: string)
    requires !op.SwitchSpa? && !op.RestartWeb? && inv(w) && forall v :: inv(v) <==> WebInStep(v, before, after)
    ensures Survives(op, w, inv)
  {
  }

  lemma WebKept(r: Result, ops: seq<Op>, before: string, after: string)
    requires WebInStep(r.w, before, after) && forall i :: 0 <= i < |ops| ==> !ops[i].SwitchSpa? && !ops[i].RestartWeb?
    ensures WebInStep(Then(r, ops).w, before, after)
  {
    if r.outcome == Ok {
      var inv := (v: World) => WebInStep(v, before, after);
      forall i, v | 0 <= i < |ops| && inv(v) ensures Survives(ops[i], v, inv) { WebSurvives(ops[i], v, inv, before, after); }
      ExecKeeps(ops, r.w, r.faults, inv);
    }
  }

  lemma SpaKept(r: Result, ops: seq<Op>, spa: string)
    requires r.w.spa == spa && forall i :: 0 <= i < |ops| ==> !ops[i].SwitchSpa?
    ensures Then(r, ops).w.spa == spa
  {
    if r.outcome == Ok { ExecKeeps(ops, r.w, r.faults, (v: World) => v.spa == spa); }
  }

  lemma WebThroughPublication(r: Result, after: string, rest: seq<Op>, before: string)
    requires WebInStep(r.w, before, after)
    requires forall i :: 0 <= i < |rest| ==> !rest[i].SwitchSpa?
    ensures WebInStep(Then(r, [SwitchSpa(after)] + rest).w, before, after)
  {
    if r.outcome == Ok {
      ExecConcat([SwitchSpa(after)], rest, r.w, r.faults);
      ExecSingle(SwitchSpa(after), r.w, r.faults);
      var head := Exec([SwitchSpa(after)], r.w, r.faults);
      if head.outcome == Ok { SpaKept(head, rest, after); }
    }
  }

  /** Both services are in step with the disk when the installation is: what verify_quadlet_service observes. */
  ghost predicate InStep(w: World) {
    w.loaded == w.unit && w.api == Running(w.unit) && w.web == Running(w.spa)
  }

  lemma BodyInStep(r: Result, req: DeployRequest, tx: Tx, unit: string, spa: string, s: Snapshot)
    requires r.outcome == Ok && Guarded(r.w, tx, s) && r.w.unit == unit && r.w.spa == spa && InStep(r.w)
    ensures var q := DeployBody(r, req, tx);
            var after := if Updatable(r.w, req.imageRef) then UpdateImage(unit, req.imageRef).value else unit;
            ApiInStep(q.w, unit, after) && WebInStep(q.w, spa, req.spa)
  {
    BodyKeepsApi(r, req, tx, unit);
    BodyKeepsWeb(r, req, tx, spa);
  }

  lemma BodyKeepsApi(r: Result, req: DeployRequest, tx: Tx, unit: string)
    requires r.w.unit == unit && InStep(r.w)
    ensures var after := if Updatable(r.w, req.imageRef) then UpdateImage(unit, req.imageRef).value else unit;
            ApiInStep(DeployBody(r, req, tx).w, unit, after)
  {
    var after := if Updatable(r.w, req.imageRef) then UpdateImage(unit, req.imageRef).value else unit;
    var a := Then(r, StageOps(req, tx));
    ApiKept(r, StageOps(req, tx), unit, after);
    var rest := [CopyUnit, Mark(tx, ApiUnitUpdated), Reload, RestartApi, Mark(tx, ApiRestarted), Check(req.found.answers)];
    assert ActivateOps(req, tx) == [UpdateUnit(req.imageRef)] + rest;
    UpdateIsStable(unit, req.imageRef, after);
    ApiThroughActivation(a, req.imageRef, rest, unit, after);
    var b := Then(a, ActivateOps(req, tx));
    ApiKept(b, PublishOps(req, tx), unit, after);
    ApiKept(Then(b, PublishOps(req, tx)), ArchiveOps(tx, Complete), unit, after);
  }

  lemma BodyKeepsWeb(r: Result, req: DeployRequest, tx: Tx, spa: string)
    requires r.w.spa == spa && InStep(r.w)
    ensures WebInStep(DeployBody(r, req, tx).w, spa, req.spa)
  {
    var a := Then(r, StageOps(req, tx));
    WebKept(r, StageOps(req, tx), spa, req.spa);
    var b := Then(a, ActivateOps(req, tx));
    WebKept(a, ActivateOps(req, tx), spa, req.spa);
    var tail := [Mark(tx, SpaSwitched), RestartWeb, Mark(tx, CaddyRestarted), Check(req.found.healthy), Check(req.found.dataKept),
                 WriteCurrent(CurrentRecord(req.releaseId, req.imageRef, req.spa)), Mark(tx, Complete)];
    assert PublishOps(req, tx) == [SwitchSpa(req.spa)] + tail;
    WebThroughPublication(b, req.spa, tail, spa);
    WebKept(Then(b, PublishOps(req, tx)), ArchiveOps(tx, Complete), spa, req.spa);
  }

  /** What an undone transaction leaves running. */
  lemma UndoServices(r: Result, tx: Tx, s: Snapshot, phase: Phase)
    requires Guarded(r.w, tx, s) && Whole(tx, s)
    ensures var q := Undo(r, tx, [Mark(tx, RollbackStarted)], phase);
            q.outcome == Restored ==> ServicesRestored(r.w, q.w, tx, s)
  {
    ExecSingle(Mark(tx, RollbackStarted), r.w, r.faults);
    var started := Exec([Mark(tx, RollbackStarted)], r.w, r.faults);
    if started.outcome == Ok { RestoredServices(started, tx, s, phase); }
  }

  /** What restoring from one state does to the services. */
  ghost predicate ServicesRestored(before: World, after: World, tx: Tx, s: Snapshot)
    requires Whole(tx, s)
  {
    (if UnitDiffers(before, s)
     then after.api == Running(s.unit.value) && after.loaded == s.unit.value
     else after.api == before.api && after.loaded == before.loaded)
    && after.web == (if before.spa != tx.previousSpa then Running(tx.previousSpa) else before.web)
    && (UnitDiffers(before, s) || before.spa != tx.previousSpa ==> after.api.Running? && after.web.Running?)
  }

  lemma RestoredServices(started: Result, tx: Tx, s: Snapshot, phase: Phase)
    requires Guarded(started.w, tx, s) && Whole(tx, s)
    ensures var restored := Exec(RestoreOps(started.w, tx), started.w, started.faults);
      restored.outcome in {Ok, Raised, Crashed} &&
      (restored.outcome == Ok ==> ServicesRestored(started.w, Exec(ArchiveOps(tx, phase), restored.w, restored.faults).w, tx, s))
  {
    ExecOutcome(RestoreOps(started.w, tx), started.w, started.faults);
    RestoreGuards(started.w, tx);
    GuardedThroughout(RestoreOps(started.w, tx), started.w, started.faults, tx, s);
    RestoreCompletes(started.w, started.faults, tx, s);
    var restored := Exec(RestoreOps(started.w, tx), started.w, started.faults);
    if restored.outcome == Ok { Archive(restored.w, restored.faults, tx, s, phase); }
  }

  /** Deploying this reference would change the unit's bytes. */
  predicate ChangesUnit(w: World, ref: string) {
    ImmutableRef(ref) && '\\' !in ref && UpdateImage(w.unit, ref).Some? && UpdateImage(w.unit, ref).value != w.unit
  }

  /**
   * Whichever step of a deployment raises, if its restoration completes then unit, copy, pointer
   * and current record are what they were and the transaction is in the history. The services
   * run what the disk names wherever the deployment had changed the disk.
   */
  lemma FailedDeployIsUndone(w: World, req: DeployRequest, faults: seq<Fault>)
    requires w.active.None? && InStep(w)
    ensures var r := Deploy(w, req, faults);
            r.outcome == Restored ==>
              && TripleOf(r.w) == TripleOf(w) && r.w.current == w.current && r.w.active.None?
              && req.txId in r.w.history && r.w.history[req.txId] == Marker(DeployTx(w, req), RolledBack)
              && (ChangesUnit(w, req.imageRef) ==> r.w.api == Running(w.unit) && r.w.loaded == w.unit)
              && (req.spa != w.spa ==> r.w.web == Running(w.spa))
  {
    if Deployable(w) {
      var tx := DeployTx(w, req);
      var s := SnapshotOf(w, tx);
      PrepareKeeps(w, req, faults);
      var prepared := PrepareDeploy(w, req, faults);
      if prepared.outcome == Ok {
        assert prepared.w.unit == w.unit && prepared.w.spa == w.spa && InStep(prepared.w);
        BodyUndone(prepared, req, tx, w.unit, w.spa, s);
      }
    }
  }

  lemma BodyUndone(r: Result, req: DeployRequest, tx: Tx, unit: string, spa: string, s: Snapshot)
    requires r.outcome == Ok && Guarded(r.w, tx, s) && r.w.unit == unit && r.w.spa == spa && InStep(r.w)
    requires Whole(tx, s) && s.unit == Some(unit) && s.copy.value == unit && tx.previousSpa == spa
    ensures var body := DeployBody(r, req, tx);
            body.outcome in {Ok, Raised, Crashed}
    ensures var q := Undo(DeployBody(r, req, tx), tx, [Mark(tx, RollbackStarted)], RolledBack);
            DeployBody(r, req, tx).outcome == Raised && q.outcome == Restored ==>
              && RestoredTo(q.w, tx, s) && q.w.active.None?
              && tx.id in q.w.history && q.w.history[tx.id] == Marker(tx, RolledBack)
              && (ChangesUnit(r.w, req.imageRef) ==> q.w.api == Running(unit) && q.w.loaded == unit)
              && (req.spa != spa ==> q.w.web == Running(spa))
  {
    DeployMainKeeps(r, req, tx, s);
    var main := DeployMain(r, req, tx);
    ArchiveThen(main, tx, s, Complete);
    var body := DeployBody(r, req, tx);
    assert body == Then(main, ArchiveOps(tx, Complete));
    ExecOutcome(ArchiveOps(tx, Complete), main.w, main.faults);
    if body.outcome == Raised {
      BodyInStep(r, req, tx, unit, spa, s);
      UndoKeeps(body, tx, s, [Mark(tx, RollbackStarted)], RolledBack);
      UndoServices(body, tx, s, RolledBack);
    }
  }

  // ---------- when the guarantees fail ----------

  lemma {:induction false} NoFaultsLeft(ops: seq<Op>, w: World)
    ensures Exec(ops, w, []).faults == []
  {
    if ops != [] && Do(ops[0], w).Some? { NoFaultsLeft(ops[1..], Do(ops[0], w).value); }
  }

  lemma SplitPlan(a: nat, b: nat, rest: seq<Fault>)
    ensures Undisturbed(a + b) + rest == Undisturbed(a) + (Undisturbed(b) + rest)
  {
  }

  /** Operations before the marker exists. */
  ghost function PrepareLength(w: World, req: DeployRequest): nat {
    2 + |SnapshotOps(w, DeployTx(w, req))|
  }

  lemma PrepareUndisturbed(w: World, req: DeployRequest, rest: seq<Fault>)
    requires Deployable(w) && PrepareDeploy(w, req, []).outcome == Ok
    ensures PrepareDeploy(w, req, Undisturbed(PrepareLength(w, req)) + rest) == Result(Ok, PrepareDeploy(w, req, []).w, rest)
    ensures PrepareDeploy(w, req, []).faults == []
  {
    var tx := DeployTx(w, req);
    var legacy := Release(req.oldCommit, LoadImage(w.unit, API_NAME).value, w.spa);
    var ops := [Check(req.found.admitted), RetainLegacy(LegacyId(req.oldCommit), legacy)];
    TwoPartsUndisturbed(ops, SnapshotOps(w, tx), w, rest);
  }

  /** Two lists, one after the other, that complete by themselves. */
  lemma TwoPartsUndisturbed(a: seq<Op>, b: seq<Op>, w: World, rest: seq<Fault>)
    requires Then(Exec(a, w, []), b).outcome == Ok
    ensures Then(Exec(a, w, Undisturbed(|a| + |b|) + rest), b) == Result(Ok, Then(Exec(a, w, []), b).w, rest)
    ensures Then(Exec(a, w, []), b).faults == []
  {
    SplitPlan(|a|, |b|, rest);
    NoFaultsLeft(a, w);
    ExecThenDisturb(a, w, Undisturbed(|b|) + rest);
    var v := Exec(a, w, []).w;
    NoFaultsLeft(b, v);
    ExecThenDisturb(b, v, rest);
  }

  /** A deployment that is undisturbed until a restart of the API fails and leaves it stopped. */
  lemma RestartFails(w: World, req: DeployRequest, tx: Tx)
    requires Exec(StageOps(req, tx), w, []).outcome == Ok
    requires Exec(ActivateOps(req, tx), Exec(StageOps(req, tx), w, []).w, []).outcome == Ok
    ensures var body := DeployBody(Result(Ok, w, Undisturbed(|StageOps(req, tx)| + 4) + [RaiseHalted]), req, tx);
            body.outcome == Raised && body.faults == [] && body.w.api == Stopped &&
            Updatable(w, req.imageRef) && body.w.spa == w.spa &&
            body.w.unit == body.w.copy == UpdateImage(w.unit, req.imageRef).value
  {
    var stage := StageOps(req, tx);
    var rest := Undisturbed(4) + [RaiseHalted];
    SplitPlan(|stage|, 4, [RaiseHalted]);
    ExecThenDisturb(stage, w, rest);
    TripleThroughout(stage, w, []);
    var v := Exec(stage, w, []).w;
    ActivationHalts(v, req, tx);
    BodyStopsInActivation(Result(Ok, w, Undisturbed(|stage| + 4) + [RaiseHalted]), req, tx, Exec(ActivateOps(req, tx), v, rest));
  }

  lemma BodyStopsInActivation(r: Result, req: DeployRequest, tx: Tx, q: Result)
    requires q == Then(Then(r, StageOps(req, tx)), ActivateOps(req, tx)) && q.outcome != Ok
    ensures DeployBody(r, req, tx) == q
  {
  }

  lemma ActivationHalts(v: World, req: DeployRequest, tx: Tx)
    requires Exec(ActivateOps(req, tx), v, []).outcome == Ok
    ensures var q := Exec(ActivateOps(req, tx), v, Undisturbed(4) + [RaiseHalted]);
            q.outcome == Raised && q.faults == [] && q.w.api == Stopped &&
            Updatable(v, req.imageRef) && TripleOf(q.w) == Selected(v, req.imageRef, v.spa)
  {
    var head := [UpdateUnit(req.imageRef), CopyUnit] + [Mark(tx, ApiUnitUpdated), Reload];
    var tail := [Mark(tx, ApiRestarted), Check(req.found.answers)];
    assert ActivateOps(req, tx) == head + ([RestartApi] + tail);
    HaltAt(head, RestartApi, tail, v);
    ActivateTriple(v, [], req.imageRef, [Mark(tx, ApiUnitUpdated), Reload]);
  }

  lemma HaltAt(head: seq<Op>, op: Op, tail: seq<Op>, w: World)
    requires Exec(head + ([op] + tail), w, []).outcome == Ok
    ensures Exec(head, w, []).outcome == Ok
    ensures Exec(head + ([op] + tail), w, Undisturbed(|head|) + [RaiseHalted]) ==
      Result(Raised, Halted(op, Exec(head, w, []).w), [])
  {
    ExecConcat(head, [op] + tail, w, []);
    ExecConcat(head, [op] + tail, w, Undisturbed(|head|) + [RaiseHalted]);
    ExecThenDisturb(head, w, [RaiseHalted]);
    HaltFirst(op, tail, Exec(head, w, []).w);
  }

  lemma HaltFirst(op: Op, tail: seq<Op>, v: World)
    ensures Exec([op] + tail, v, [RaiseHalted]) == Result(Raised, Halted(op, v), [])
  {
  }

  /** Undoing without further faults completes if the health check can pass. */
  lemma UndoSucceeds(r: Result, tx: Tx, s: Snapshot)
    requires r.faults == [] && Guarded(r.w, tx, s) && Whole(tx, s) && Restorable(r.w, tx, s)
    ensures Undo(r, tx, [Mark(tx, RollbackStarted)], RolledBack).outcome == Restored
  {
    ExecSingle(Mark(tx, RollbackStarted), r.w, []);
    var started := Exec([Mark(tx, RollbackStarted)], r.w, []);
    RestoreSucceedsIff(started.w, tx, s);
    ArchiveSucceeds(Exec(RestoreOps(started.w, tx), started.w, []).w, tx, s, RolledBack);
  }

  /** Undoing a body that raised without having changed unit, copy or pointer leaves the services as they were. */
  lemma UndoChangesNothing(body: Result, tx: Tx, s: Snapshot)
    requires body.faults == [] && Guarded(body.w, tx, s) && Whole(tx, s)
    requires !UnitDiffers(body.w, s) && body.w.spa == tx.previousSpa
    ensures var q := Undo(body, tx, [Mark(tx, RollbackStarted)], RolledBack);
      q.outcome == Restored && q.w.api == body.w.api && q.w.web == body.w.web
  {
    UndoSucceeds(body, tx, s);
    UndoServices(body, tx, s, RolledBack);
  }

  /** Behind the marker, with the API's restart failing. */
  lemma RedeployBodyHalts(w: World, req: DeployRequest) returns (rest: seq<Fault>)
    requires Deploy(w, req, []).outcome == Ok && !ChangesUnit(w, req.imageRef)
    ensures PrepareDeploy(w, req, []).outcome == Ok
    ensures var tx := DeployTx(w, req); var body := DeployBody(Result(Ok, PrepareDeploy(w, req, []).w, rest), req, tx);
      && body.outcome == Raised && body.faults == [] && body.w.api == Stopped
      && body.w.unit == body.w.copy == w.unit && body.w.spa == w.spa
  {
    var tx := DeployTx(w, req);
    rest := Undisturbed(|StageOps(req, tx)| + 4) + [RaiseHalted];
    UndisturbedStages(w, req);
    RestartFails(PrepareDeploy(w, req, []).w, req, tx);
  }

  /** A deployment that completes gets through each of its stages. */
  lemma UndisturbedStages(w: World, req: DeployRequest)
    requires Deploy(w, req, []).outcome == Ok
    ensures var tx := DeployTx(w, req); var p := PrepareDeploy(w, req, []);
      && Deployable(w) && p.outcome == Ok && p.w.unit == w.unit && p.w.spa == w.spa
      && Exec(StageOps(req, tx), p.w, []).outcome == Ok
      && Exec(ActivateOps(req, tx), Exec(StageOps(req, tx), p.w, []).w, []).outcome == Ok
  {
    var tx := DeployTx(w, req);
    PrepareKeeps(w, req, []);
    PrepareUndisturbed(w, req, []);
    var p := PrepareDeploy(w, req, []);
    NoFaultsLeft(StageOps(req, tx), p.w);
    UndoNeverOk(DeployBody(p, req, tx), tx, [Mark(tx, RollbackStarted)], RolledBack);
  }

  /** A deployment whose preparation is undisturbed and whose body raises at rest is restored as it was. */
  lemma RaisedAtRest(w: World, req: DeployRequest, rest: seq<Fault>) returns (faults: seq<Fault>)
    requires Deployable(w) && PrepareDeploy(w, req, []).outcome == Ok
    requires var body := DeployBody(Result(Ok, PrepareDeploy(w, req, []).w, rest), req, DeployTx(w, req));
      body.outcome == Raised && body.faults == [] && body.w.unit == body.w.copy == w.unit && body.w.spa == w.spa
    ensures var body := DeployBody(Result(Ok, PrepareDeploy(w, req, []).w, rest), req, DeployTx(w, req));
      var q := Deploy(w, req, faults);
      q.outcome == Restored && q.w.api == body.w.api && q.w.web == body.w.web
  {
    var tx := DeployTx(w, req);
    var s := SnapshotOf(w, tx);
    faults := Undisturbed(PrepareLength(w, req)) + rest;
    PrepareKeeps(w, req, []);
    PrepareUndisturbed(w, req, rest);
    var r := Result(Ok, PrepareDeploy(w, req, []).w, rest);
    var body := DeployBody(r, req, tx);
    DeployMainKeeps(r, req, tx, s);
    ArchiveThen(DeployMain(r, req, tx), tx, s, Complete);
    assert body == Then(DeployMain(r, req, tx), ArchiveOps(tx, Complete));
    UndoChangesNothing(body, tx, s);
  }

  lemma RedeployCanLeaveApiStopped(w: World, req: DeployRequest) returns (faults: seq<Fault>)
    requires Deploy(w, req, []).outcome == Ok && !ChangesUnit(w, req.imageRef)
    ensures Deploy(w, req, faults).outcome == Restored && Deploy(w, req, faults).w.api == Stopped
  {
    var rest := RedeployBodyHalts(w, req);
    faults := RaisedAtRest(w, req, rest);
  }

  /**
   * The restored installation is certain to be running exactly when the deployment would change
   * the unit's bytes: redeploying what the unit already names can end "restored" with the API stopped.
   */
  lemma RestoredApiRunsIff(w: World, req: DeployRequest)
    requires InStep(w) && Deploy(w, req, []).outcome == Ok
    ensures (forall faults :: Deploy(w, req, faults).outcome == Restored ==> Deploy(w, req, faults).w.api == Running(w.unit))
      <==> ChangesUnit(w, req.imageRef)
  {
    if ChangesUnit(w, req.imageRef) {
      forall faults | Deploy(w, req, faults).outcome == Restored
        ensures Deploy(w, req, faults).w.api == Running(w.unit)
      {
        FailedDeployIsUndone(w, req, faults);
      }
    } else {
      var faults := RedeployCanLeaveApiStopped(w, req);
      assert Deploy(w, req, faults).outcome == Restored;
    }
  }

  /** Records once retained never change. */
  lemma ReleaseKept(r: Result, ops: seq<Op>, id: string, release: Release)
    requires id in r.w.releases && r.w.releases[id] == release
    ensures var q := Then(r, ops); id in q.w.releases && q.w.releases[id] == release
  {
    if r.outcome == Ok { ExecKeeps(ops, r.w, r.faults, (v: World) => id in v.releases && v.releases[id] == release); }
  }

  lemma LegacyRetained(w: World, req: DeployRequest, faults: seq<Fault>)
    requires Deployable(w) && LegacyId(req.oldCommit) !in w.releases && PrepareDeploy(w, req, faults).outcome == Ok
    ensures var r := PrepareDeploy(w, req, faults);
            LegacyId(req.oldCommit) in r.w.releases &&
            r.w.releases[LegacyId(req.oldCommit)] == Release(req.oldCommit, LoadImage(w.unit, API_NAME).value, w.spa)
  {
    var legacy := Release(req.oldCommit, LoadImage(w.unit, API_NAME).value, w.spa);
    var ops := [Check(req.found.admitted), RetainLegacy(LegacyId(req.oldCommit), legacy)];
    var r := Exec(ops, w, faults);
    var p := Path(ops, w, faults);
    assert Do(ops[0], p[0]) == Some(p[1]) && Do(ops[1], p[1]) == Some(p[2]);
    ReleaseKept(r, SnapshotOps(w, DeployTx(w, req)), LegacyId(req.oldCommit), legacy);
  }

  // ---------- deploy, then roll back ----------

  lemma DeployRetainsLegacy(w: World, req: DeployRequest, faults: seq<Fault>)
    requires LegacyId(req.oldCommit) !in w.releases && Deploy(w, req, faults).outcome == Ok
    ensures var v := Deploy(w, req, faults).w;
            LegacyId(req.oldCommit) in v.releases &&
            v.releases[LegacyId(req.oldCommit)] == Release(req.oldCommit, LoadImage(w.unit, API_NAME).value, w.spa)
  {
    var tx := DeployTx(w, req);
    var id := LegacyId(req.oldCommit);
    var legacy := Release(req.oldCommit, LoadImage(w.unit, API_NAME).value, w.spa);
    PrepareKeeps(w, req, faults);
    LegacyRetained(w, req, faults);
    var r := PrepareDeploy(w, req, faults);
    var a := Then(r, StageOps(req, tx));
    ReleaseKept(r, StageOps(req, tx), id, legacy);
    var b := Then(a, ActivateOps(req, tx));
    ReleaseKept(a, ActivateOps(req, tx), id, legacy);
    var c := Then(b, PublishOps(req, tx));
    ReleaseKept(b, PublishOps(req, tx), id, legacy);
    ReleaseKept(c, ArchiveOps(tx, Complete), id, legacy);
    UndoNeverOk(DeployBody(r, req, tx), tx, [Mark(tx, RollbackStarted)], RolledBack);
  }

  lemma UndoNeverOk(r: Result, tx: Tx, announce: seq<Op>, phase: Phase)
    ensures Undo(r, tx, announce, phase).outcome != Ok
  {
  }

  /**
   * Deploying over an installation and then rolling back to the legacy record of that deployment
   * gives back the pointer, and the unit byte for byte exactly when it held no CR and its Image
   * value no surrounding blanks; otherwise unit and copy still agree and name the same image.
   */
  lemma DeployThenRollback(w: World, req: DeployRequest, faults: seq<Fault>, back: RollbackRequest, later: seq<Fault>)
    requires w.active.None? && LegacyId(req.oldCommit) !in w.releases
    requires Deploy(w, req, faults).outcome == Ok && back.releaseId == LegacyId(req.oldCommit)
    requires Rollback(Deploy(w, req, faults).w, back, later).outcome == Ok
    ensures var v := Rollback(Deploy(w, req, faults).w, back, later).w;
            && v.active.None? && v.spa == w.spa && v.unit == v.copy
            && LoadImage(v.unit, API_NAME) == LoadImage(w.unit, API_NAME)
            && (v.unit == w.unit <==> '\r' !in w.unit && UnpaddedImage(w.unit))
  {
    var base := TripleOf(w);
    DeployKeepsRecoverable(w, req, faults, base);
    DeployRetainsLegacy(w, req, faults);
    var m := Deploy(w, req, faults).w;
    SelectKeepsRecoverable(m, back, later, TripleOf(m));
    var ref := LoadImage(w.unit, API_NAME).value;
    ImmutableRefIsPlain(ref);
    ImmutableRefIsPlain(req.imageRef);
    PutPut(w.unit, req.imageRef, ref);
    PutGet(w.unit, ref, API_NAME);
    GetPut(w.unit, API_NAME);
  }
}
