/**
 * The commands of scripts/operatoros_deploy.py as they run: each statement writes the disk in
 * place and may not return. Every command is proved equal to its specification in Deployment.
 */
module DeploymentHost {
  import opened Wrappers
  import opened UnitText
  import opened Deployment
  import opened DeploymentSafety

  class Host {
    /** Everything the commands read and write: files, and what systemd has loaded and is running. */
    var disk: World

    /** What will still go wrong. */
    var faults: seq<Fault>

    ghost function Running(o: Outcome): Result
      reads this
    {
      Result(o, disk, faults)
    }

    constructor (w: World, plan: seq<Fault>)
      ensures disk == w && faults == plan
    {
      disk, faults := w, plan;
    }

    /** Carries out one operation that nothing disturbs; false when it raises by itself. */
    method Write(op: Op) returns (done: bool)
      modifies this`disk
      ensures done == Do(op, old(disk)).Some?
      ensures disk == if done then Do(op, old(disk)).value else old(disk)
    {
      done := true;
      match op
      case External =>
      case Refuse => done := false;
      case Check(passes) => done := passes;
      case Healthy => done := disk.api.Running? && disk.web.Running?;
      case Import(ref) => done := IsImageId(ref);
      case RetainLegacy(id, r) =>
        if id !in disk.releases { disk := disk.(releases := disk.releases[id := r]); }
      case WriteRelease(id, r) =>
        done := id !in disk.releases || disk.releases[id] == r;
        if done { disk := disk.(releases := disk.releases[id := r]); }
      case MakeDir(dir) =>
        done := dir !in disk.snapshots;
        if done { disk := disk.(snapshots := disk.snapshots[dir := Snapshot(None, None, None)]); }
      case SnapUnit(dir) => done := Save(op);
      case SnapCopy(dir) => done := Save(op);
      case SnapRecord(dir) => done := Save(op);
      case Mark(tx, phase) => disk := disk.(active := Some(Marker(tx, phase)));
      case UpdateUnit(ref) =>
        done := ImmutableRef(ref) && '\\' !in ref && UpdateImage(disk.unit, ref).Some?;
        if done { disk := disk.(unit := UpdateImage(disk.unit, ref).value); }
      case CopyUnit => disk := disk.(copy := disk.unit);
      case Reload => disk := disk.(loaded := disk.unit);
      case RestartApi => disk := disk.(api := Service.Running(disk.loaded));
      case SwitchSpa(spa) => disk := disk.(spa := spa);
      case RestartWeb => disk := disk.(web := Service.Running(disk.spa));
      case WriteCurrent(record) => disk := disk.(current := Some(record));
      case RestoreUnit(dir) => done := Restore(op);
      case RestoreCopy(dir) => done := Restore(op);
      case RestoreRecord(dir) => done := Restore(op);
      case RemoveRecord => disk := disk.(current := None);
      case Finish(tx, phase) =>
        done := disk.active.Some? && disk.active.value.tx.id == tx.id;
        if done { disk := disk.(active := Some(disk.active.value.(phase := phase))); }
      case Retire(tx) =>
        done := disk.active.Some?;
        if done { disk := disk.(history := disk.history[tx.id := disk.active.value], active := None); }
    }

    /** Writes one file of a snapshot. */
    method Save(op: Op) returns (done: bool)
      requires op.SnapUnit? || op.SnapCopy? || op.SnapRecord?
      modifies this`disk
      ensures done == Do(op, old(disk)).Some?
      ensures disk == if done then Do(op, old(disk)).value else old(disk)
    {
      match op {
        case SnapUnit(dir) =>
          done := dir in disk.snapshots;
          if done { SaveSnapshot(dir, disk.snapshots[dir].(unit := Some(disk.unit))); }
        case SnapCopy(dir) =>
          done := dir in disk.snapshots;
          if done { SaveSnapshot(dir, disk.snapshots[dir].(copy := Some(disk.copy))); }
        case SnapRecord(dir) =>
          done := dir in disk.snapshots && disk.current.Some?;
          if done { SaveSnapshot(dir, disk.snapshots[dir].(record := disk.current)); }
      }
    }

    /** Puts one file of a snapshot back. */
    method Restore(op: Op) returns (done: bool)
      requires op.RestoreUnit? || op.RestoreCopy? || op.RestoreRecord?
      modifies this`disk
      ensures done == Do(op, old(disk)).Some?
      ensures disk == if done then Do(op, old(disk)).value else old(disk)
    {
      match op {
        case RestoreUnit(dir) =>
          done := dir in disk.snapshots && disk.snapshots[dir].unit.Some?;
          if done { disk := disk.(unit := disk.snapshots[dir].unit.value); }
        case RestoreCopy(dir) =>
          done := dir in disk.snapshots && disk.snapshots[dir].copy.Some?;
          if done { disk := disk.(copy := disk.snapshots[dir].copy.value); }
        case RestoreRecord(dir) =>
          done := dir in disk.snapshots && disk.snapshots[dir].record.Some?;
          if done { disk := disk.(current := disk.snapshots[dir].record); }
      }
    }

    method SaveSnapshot(dir: string, s: Snapshot)
      modifies this`disk
      ensures disk == old(disk).(snapshots := old(disk).snapshots[dir := s])
    {
      disk := disk.(snapshots := disk.snapshots[dir := s]);
    }

    /** One statement of a command: the operation at index `at` of its program, under the next fault. */
    method Step(op: Op, ghost program: seq<Op>, ghost at: nat) returns (o: Outcome)
      requires at < |program| && program[at] == op
      modifies this
      ensures o == Ok ==> Exec(program[at..], old(disk), old(faults)) == Exec(program[at + 1..], disk, faults)
      ensures o != Ok ==> Exec(program[at..], old(disk), old(faults)) == Running(o)
      ensures o in {Ok, Raised, Crashed}
    {
      var fault := if faults == [] then Proceed else faults[0];
      if faults != [] { faults := faults[1..]; }
      ghost var before := disk;
      assert program[at..][0] == op && program[at..][1..] == program[at + 1..];
      match fault
      case CrashBefore => return Crashed;
      case RaiseBefore => return Raised;
      case RaiseHalted =>
        if op.RestartApi? { disk := disk.(api := Stopped); }
        if op.RestartWeb? { disk := disk.(web := Stopped); }
        return Raised;
      case _ =>
        if op.Retire? && fault == RaiseAfter { return Raised; }
        var done := Write(op);
        if !done { return Raised; }
        return if fault == Proceed then Ok else if fault == CrashAfter then Crashed else Raised;
    }

    /** snapshot_state; a rollback takes its snapshot with the same statements. */
    method SnapshotState(tx: Tx) returns (o: Outcome)
      requires tx.hadRecord == disk.current.Some?
      modifies this
      ensures Running(o) == Exec(SnapshotOps(old(disk), tx), old(disk), old(faults))
    {
      ghost var p := SnapshotOps(disk, tx);
      assert p[0..] == p;
      :- Step(MakeDir(tx.dir), p, 0);
      :- Step(SnapUnit(tx.dir), p, 1);
      :- Step(SnapCopy(tx.dir), p, 2);
      if tx.hadRecord {
        :- Step(SnapRecord(tx.dir), p, 3);
      }
      :- Step(Mark(tx, Prepared), p, |p| - 1);
      return Ok;
    }

    method StageImage(ref: string, fits: bool, tx: Tx) returns (o: Outcome)
      modifies this
      ensures Running(o) == Exec([Import(ref), Mark(tx, ImageImported), Check(fits), Mark(tx, SchemaCompatible)],
        old(disk), old(faults))
    {
      ghost var p := [Import(ref), Mark(tx, ImageImported), Check(fits), Mark(tx, SchemaCompatible)];
      assert p[0..] == p;
      :- Step(Import(ref), p, 0);
      :- Step(Mark(tx, ImageImported), p, 1);
      :- Step(Check(fits), p, 2);
      :- Step(Mark(tx, SchemaCompatible), p, 3);
      return Ok;
    }

    method Stage(req: DeployRequest, tx: Tx) returns (o: Outcome)
      modifies this
      ensures Running(o) == Exec(StageOps(req, tx), old(disk), old(faults))
    {
      var release := Release(req.commit, req.imageRef, req.spa);
      ghost var q := [Import(req.imageRef), Mark(tx, ImageImported), Check(req.found.schemaFits), Mark(tx, SchemaCompatible)];
      ghost var p := [Check(req.found.archiveFits), Mark(tx, SpaStaged), WriteRelease(req.releaseId, release)];
      assert p[0..] == p;
      ExecConcat(q, p, disk, faults);
      assert StageOps(req, tx) == q + p;
      :- StageImage(req.imageRef, req.found.schemaFits, tx);
      :- Step(Check(req.found.archiveFits), p, 0);
      :- Step(Mark(tx, SpaStaged), p, 1);
      :- Step(WriteRelease(req.releaseId, release), p, 2);
      return Ok;
    }

    method WriteUnits(ref: string, tx: Tx) returns (o: Outcome)
      modifies this
      ensures Running(o) == Exec([UpdateUnit(ref), CopyUnit, Mark(tx, ApiUnitUpdated)], old(disk), old(faults))
    {
      ghost var p := [UpdateUnit(ref), CopyUnit, Mark(tx, ApiUnitUpdated)];
      assert p[0..] == p;
      :- Step(UpdateUnit(ref), p, 0);
      :- Step(CopyUnit, p, 1);
      :- Step(Mark(tx, ApiUnitUpdated), p, 2);
      return Ok;
    }

    method StartApi(answers: bool, tx: Tx) returns (o: Outcome)
      modifies this
      ensures Running(o) == Exec([Reload, RestartApi, Mark(tx, ApiRestarted), Check(answers)], old(disk), old(faults))
    {
      ghost var p := [Reload, RestartApi, Mark(tx, ApiRestarted), Check(answers)];
      assert p[0..] == p;
      :- Step(Reload, p, 0);
      :- Step(RestartApi, p, 1);
      :- Step(Mark(tx, ApiRestarted), p, 2);
      :- Step(Check(answers), p, 3);
      return Ok;
    }

    method Activate(req: DeployRequest, tx: Tx) returns (o: Outcome)
      modifies this
      ensures Running(o) == Exec(ActivateOps(req, tx), old(disk), old(faults))
    {
      ghost var p := [Reload, RestartApi, Mark(tx, ApiRestarted), Check(req.found.answers)];
      ExecConcat([UpdateUnit(req.imageRef), CopyUnit, Mark(tx, ApiUnitUpdated)], p, disk, faults);
      assert ActivateOps(req, tx) == [UpdateUnit(req.imageRef), CopyUnit, Mark(tx, ApiUnitUpdated)] + p;
      :- WriteUnits(req.imageRef, tx);
      o := StartApi(req.found.answers, tx);
    }

    method PublishPointer(spa: string, tx: Tx) returns (o: Outcome)
      modifies this
      ensures Running(o) == Exec([SwitchSpa(spa), Mark(tx, SpaSwitched), RestartWeb], old(disk), old(faults))
    {
      ghost var p := [SwitchSpa(spa), Mark(tx, SpaSwitched), RestartWeb];
      assert p[0..] == p;
      :- Step(SwitchSpa(spa), p, 0);
      :- Step(Mark(tx, SpaSwitched), p, 1);
      :- Step(RestartWeb, p, 2);
      return Ok;
    }

    /** What is checked and written once the web server runs. */
    ghost function RecordOps(record: CurrentRecord, found: Findings, tx: Tx): seq<Op> {
      [Mark(tx, CaddyRestarted), Check(found.healthy), Check(found.dataKept), WriteCurrent(record), Mark(tx, Complete)]
    }

    method RecordRelease(record: CurrentRecord, found: Findings, tx: Tx) returns (o: Outcome)
      modifies this
      ensures Running(o) == Exec(RecordOps(record, found, tx), old(disk), old(faults))
    {
      ghost var p := RecordOps(record, found, tx);
      assert p[0..] == p;
      :- Step(Mark(tx, CaddyRestarted), p, 0);
      :- Step(Check(found.healthy), p, 1);
      :- Step(Check(found.dataKept), p, 2);
      :- Step(WriteCurrent(record), p, 3);
      :- Step(Mark(tx, Complete), p, 4);
      return Ok;
    }

    method Publish(req: DeployRequest, tx: Tx) returns (o: Outcome)
      modifies this
      ensures Running(o) == Exec(PublishOps(req, tx), old(disk), old(faults))
    {
      var record := CurrentRecord(req.releaseId, req.imageRef, req.spa);
      ghost var p := RecordOps(record, req.found, tx);
      ExecConcat([SwitchSpa(req.spa), Mark(tx, SpaSwitched), RestartWeb], p, disk, faults);
      assert PublishOps(req, tx) == [SwitchSpa(req.spa), Mark(tx, SpaSwitched), RestartWeb] + p;
      :- PublishPointer(req.spa, tx);
      o := RecordRelease(record, req.found, tx);
    }

    method ArchiveTransaction(tx: Tx, result: Phase) returns (o: Outcome)
      modifies this
      ensures Running(o) == Exec(ArchiveOps(tx, result), old(disk), old(faults))
    {
      ghost var p := ArchiveOps(tx, result);
      assert p[0..] == p;
      :- Step(Finish(tx, result), p, 0);
      :- Step(Retire(tx), p, 1);
      return Ok;
    }

    method RestoreUnitFiles(tx: Tx) returns (o: Outcome)
      modifies this
      ensures Running(o) == Exec([RestoreUnit(tx.dir), RestoreCopy(tx.dir), Reload, RestartApi], old(disk), old(faults))
    {
      ghost var p := [RestoreUnit(tx.dir), RestoreCopy(tx.dir), Reload, RestartApi];
      assert p[0..] == p;
      :- Step(RestoreUnit(tx.dir), p, 0);
      :- Step(RestoreCopy(tx.dir), p, 1);
      :- Step(Reload, p, 2);
      :- Step(RestartApi, p, 3);
      return Ok;
    }

    method RestorePointer(spa: string) returns (o: Outcome)
      modifies this
      ensures Running(o) == Exec([SwitchSpa(spa), RestartWeb], old(disk), old(faults))
    {
      ghost var p := [SwitchSpa(spa), RestartWeb];
      assert p[0..] == p;
      :- Step(SwitchSpa(spa), p, 0);
      :- Step(RestartWeb, p, 1);
      return Ok;
    }

    /** A list of one operation. */
    method Single(op: Op) returns (o: Outcome)
      modifies this
      ensures Running(o) == Exec([op], old(disk), old(faults))
    {
      ghost var p := [op];
      assert p[0..] == p;
      o := Step(op, p, 0);
    }

    method RestoreSnapshot(tx: Tx) returns (o: Outcome)
      modifies this
      ensures Running(o) == Exec(RestoreOps(old(disk), tx), old(disk), old(faults))
    {
      if tx.dir !in disk.snapshots || disk.snapshots[tx.dir].unit.None? || disk.snapshots[tx.dir].copy.None? {
        o := Single(Refuse);
        return;
      }
      var saved := disk.snapshots[tx.dir];
      var unitChanged := disk.unit != saved.unit.value || disk.copy != saved.copy.value;
      var webChanged := disk.spa != tx.previousSpa;
      FiveParts([External],
                if unitChanged then [RestoreUnit(tx.dir), RestoreCopy(tx.dir), Reload, RestartApi] else [],
                if webChanged then [SwitchSpa(tx.previousSpa), RestartWeb] else [],
                if unitChanged || webChanged then [Healthy] else [],
                [if tx.hadRecord then RestoreRecord(tx.dir) else RemoveRecord], disk, faults);
      :- Single(External);
      if unitChanged {
        :- RestoreUnitFiles(tx);
      }
      if webChanged {
        :- RestorePointer(tx.previousSpa);
      }
      if unitChanged || webChanged {
        :- Single(Healthy);
      }
      if tx.hadRecord {
        o := Single(RestoreRecord(tx.dir));
      } else {
        o := Single(RemoveRecord);
      }
    }

    method DeployTry(req: DeployRequest, tx: Tx) returns (o: Outcome)
      modifies this
      ensures Running(o) == DeployBody(old(Running(Ok)), req, tx)
    {
      o := Stage(req, tx);
      if o != Ok { return; }
      :- Activate(req, tx);
      :- Publish(req, tx);
      :- ArchiveTransaction(tx, Complete);
      return Ok;
    }

    /** The exception handler of a deployment or, without an announcement, of a selected rollback. */
    method HandleFailure(tx: Tx, announced: bool, result: Phase) returns (o: Outcome)
      modifies this
      ensures Running(o) == Undo(old(Running(Raised)), tx, if announced then [Mark(tx, RollbackStarted)] else [], result)
    {
      if announced {
        var marked := Single(Mark(tx, RollbackStarted));
        if marked != Ok { return if marked == Raised then Failed else marked; }
      }
      o := RestoreSnapshot(tx);
      if o == Raised {
        o := KeepMarker(tx);
      } else if o == Ok {
        o := ArchiveTransaction(tx, result);
        o := if o == Ok then Restored else if o == Raised then Failed else o;
      }
    }

    method KeepMarker(tx: Tx) returns (o: Outcome)
      modifies this
      ensures Running(o) == Surrender(old(Running(Raised)), tx)
    {
      o := Single(Mark(tx, RollbackFailed));
      if o != Crashed { o := Failed; }
    }

    method PrepareRelease(req: DeployRequest) returns (o: Outcome)
      requires Deployable(disk)
      modifies this
      ensures Running(o) == PrepareDeploy(old(disk), req, old(faults))
    {
      var legacy := Release(req.oldCommit, LoadImage(disk.unit, API_NAME).value, disk.spa);
      var tx := Tx(req.txId, true, LegacyId(req.oldCommit), disk.spa, req.txId, disk.current.Some?);
      ghost var w0 := disk;
      :- RetainOld(req.found.admitted, req.oldCommit, legacy);
      assert SnapshotOps(disk, tx) == SnapshotOps(w0, tx);
      o := SnapshotState(tx);
    }

    /** The checks, and the record of what is replaced. */
    method RetainOld(admitted: bool, oldCommit: string, legacy: Release) returns (o: Outcome)
      modifies this
      ensures Running(o) == Exec([Check(admitted), RetainLegacy(LegacyId(oldCommit), legacy)], old(disk), old(faults))
      ensures Untouched(old(disk), disk)
    {
      ghost var w0, f0 := disk, faults;
      ghost var p := [Check(admitted), RetainLegacy(LegacyId(oldCommit), legacy)];
      assert p[0..] == p;
      ExecKeeps(p, w0, f0, v => Untouched(w0, v));
      :- Step(Check(admitted), p, 0);
      :- Step(RetainLegacy(LegacyId(oldCommit), legacy), p, 1);
      return Ok;
    }

    method DeployRelease(req: DeployRequest) returns (o: Outcome)
      modifies this
      ensures Running(o) == Deploy(old(disk), req, old(faults))
    {
      if disk.active.Some? || LoadImage(disk.unit, API_NAME).None? || disk.unit != disk.copy { return Failed; }
      var tx := Tx(req.txId, true, LegacyId(req.oldCommit), disk.spa, req.txId, disk.current.Some?);
      o := PrepareRelease(req);
      if o == Raised { return Failed; }
      if o != Ok { return; }
      o := DeployTry(req, tx);
      if o == Raised { o := HandleFailure(tx, true, RolledBack); }
    }

    method RecoverInterrupted(req: RollbackRequest) returns (o: Outcome)
      requires disk.active.Some? && req.releaseId in disk.releases
      modifies this
      ensures Running(o) == Recover(old(disk), req, old(faults))
    {
      var tx := disk.active.value.tx;
      var target := disk.releases[req.releaseId];
      ghost var w0 := disk;
      ExecSingle(Check(req.found.accepted), disk, faults);
      o := Single(Check(req.found.accepted));
      if o != Ok { return if o == Raised then Failed else o; }
      assert disk == w0;
      o := RestoreSnapshot(tx);
      if o == Ok {
        o := Single(WriteCurrent(CurrentRecord(req.releaseId, target.imageRef, target.spa)));
        if o == Ok { o := ArchiveTransaction(tx, InterruptedRollbackComplete); }
      }
      if o == Raised { o := KeepMarker(tx); }
    }

    method SelectUnit(target: Release, tx: Tx) returns (o: Outcome)
      modifies this
      ensures Running(o) == Exec(SelectOps(target, tx), old(disk), old(faults))
    {
      ghost var p := [Reload, RestartApi];
      assert p[0..] == p;
      ExecConcat([UpdateUnit(target.imageRef), CopyUnit, Mark(tx, ApiUnitUpdated)], p, disk, faults);
      assert SelectOps(target, tx) == [UpdateUnit(target.imageRef), CopyUnit, Mark(tx, ApiUnitUpdated)] + p;
      :- WriteUnits(target.imageRef, tx);
      :- Step(Reload, p, 0);
      :- Step(RestartApi, p, 1);
      return Ok;
    }

    method Expose(req: RollbackRequest, target: Release, tx: Tx) returns (o: Outcome)
      modifies this
      ensures Running(o) == Exec(ExposeOps(req, target, tx), old(disk), old(faults))
    {
      var record := CurrentRecord(req.releaseId, target.imageRef, target.spa);
      ghost var p := [Check(req.found.healthy), Check(req.found.dataKept), WriteCurrent(record)];
      assert p[0..] == p;
      ExecConcat([SwitchSpa(target.spa), Mark(tx, SpaSwitched), RestartWeb], p, disk, faults);
      assert ExposeOps(req, target, tx) == [SwitchSpa(target.spa), Mark(tx, SpaSwitched), RestartWeb] + p;
      :- PublishPointer(target.spa, tx);
      :- Step(Check(req.found.healthy), p, 0);
      :- Step(Check(req.found.dataKept), p, 1);
      :- Step(WriteCurrent(record), p, 2);
      return Ok;
    }

    method SelectTry(req: RollbackRequest, target: Release, tx: Tx) returns (o: Outcome)
      modifies this
      ensures Running(o) == Then(Then(Then(old(Running(Ok)), SelectOps(target, tx)), ExposeOps(req, target, tx)),
                                 ArchiveOps(tx, RollbackComplete))
    {
      o := SelectUnit(target, tx);
      if o != Ok { return; }
      :- Expose(req, target, tx);
      :- ArchiveTransaction(tx, RollbackComplete);
      return Ok;
    }

    method SelectRelease(req: RollbackRequest) returns (o: Outcome)
      requires disk.active.None? && req.releaseId in disk.releases
      modifies this
      ensures Running(o) == Select(old(disk), req, old(faults))
    {
      var previous := if disk.current.Some? then disk.current.value.releaseId else LegacyId(req.oldCommit);
      var tx := Tx(req.txId, false, previous, disk.spa, req.dir, disk.current.Some?);
      var target := disk.releases[req.releaseId];
      ghost var w0 := disk;
      ExecConcat([Check(req.found.accepted)], SnapshotOps(w0, tx), w0, faults);
      ExecSingle(Check(req.found.accepted), w0, faults);
      o := Single(Check(req.found.accepted));
      if o == Ok {
        assert disk == w0;
        o := SnapshotState(tx);
      }
      if o == Raised { return Failed; }
      if o != Ok { return; }
      o := SelectTry(req, target, tx);
      if o == Raised { o := HandleFailure(tx, false, RollbackReverted); }
    }

    method RollbackRelease(req: RollbackRequest) returns (o: Outcome)
      modifies this
      ensures Running(o) == Rollback(old(disk), req, old(faults))
    {
      if disk.active.Some? && req.releaseId != disk.active.value.tx.previousRelease { return Failed; }
      if req.releaseId !in disk.releases || !ImmutableRef(disk.releases[req.releaseId].imageRef) { return Failed; }
      if disk.active.Some? {
        o := RecoverInterrupted(req);
      } else if disk.unit != disk.copy || LoadImage(disk.unit, API_NAME).None? {
        return Failed;
      } else {
        o := SelectRelease(req);
      }
    }
  }
}
