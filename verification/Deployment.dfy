/**
 * The deployment transaction protocol of scripts/operatoros_deploy.py. The state is what the
 * deploying process leaves on disk, together with what systemd has loaded and is running.
 * Every write or foreign command is one operation; the process can be refused before an
 * operation, told of a failure after its effect, or die on either side of it.
 */
module Deployment {
  import opened Wrappers
  import opened UnitText

  const API_NAME := "operatoros-api"

  // ---------- state ----------

  /** What a service is running: the configuration it was last started with. */
  datatype Service = Stopped | Running(config: string)

  /** current-release.json */
  datatype CurrentRecord = CurrentRecord(releaseId: string, imageRef: string, spa: string)

  /** A retained record below deploy/releases, without its recorded_at. */
  datatype Release = Release(commit: string, imageRef: string, spa: string)

  /** The files of one snapshot directory, written one at a time. */
  datatype Snapshot = Snapshot(unit: Option<string>, copy: Option<string>, record: Option<CurrentRecord>)

  datatype Tx = Tx(id: string, deploys: bool, previousRelease: string, previousSpa: string, dir: string, hadRecord: bool)

  datatype Phase =
    | Prepared | ImageImported | SchemaCompatible | SpaStaged | ApiUnitUpdated | ApiRestarted | SpaSwitched
    | CaddyRestarted | Complete | RollbackStarted | RollbackFailed | RolledBack
    | InterruptedRollbackComplete | RollbackComplete | RollbackReverted

  /** active-transaction.json, and after archiving an entry of the history */
  datatype Marker = Marker(tx: Tx, phase: Phase)

  datatype World = World(
    unit: string, copy: string, spa: string, current: Option<CurrentRecord>,
    active: Option<Marker>, history: map<string, Marker>, snapshots: map<string, Snapshot>,
    releases: map<string, Release>, loaded: string, api: Service, web: Service)

  /** The part of the state that a deployment replaces as a whole. */
  datatype Triple = Triple(unit: string, copy: string, spa: string)

  function TripleOf(w: World): Triple {
    Triple(w.unit, w.copy, w.spa)
  }

  // ---------- operations ----------

  datatype Op =
    | External                                  // a check that only a fault makes fail
    | Refuse                                    // a check that this state does not pass
    | Check(passes: bool)                       // a check or foreign command that finds what it finds
    | Healthy                                   // both services must answer
    | Import(ref: string)                       // the imported image must have an image ID
    | RetainLegacy(id: string, release: Release)
    | WriteRelease(id: string, release: Release)
    | MakeDir(dir: string)
    | SnapUnit(dir: string) | SnapCopy(dir: string) | SnapRecord(dir: string)
    | Mark(tx: Tx, phase: Phase)
    | UpdateUnit(ref: string) | CopyUnit | Reload | RestartApi
    | SwitchSpa(spa: string) | RestartWeb
    | WriteCurrent(record: CurrentRecord)
    | RestoreUnit(dir: string) | RestoreCopy(dir: string) | RestoreRecord(dir: string) | RemoveRecord
    | Finish(tx: Tx, phase: Phase)              // archive_transaction up to its rename
    | Retire(tx: Tx)                            // the rename into the history

  /** The effect of one operation, or None when the operation itself raises. */
  function Do(op: Op, w: World): Option<World> {
    match op
    case External => Some(w)
    case Refuse => None
    case Check(passes) => if passes then Some(w) else None
    case Healthy => if w.api.Running? && w.web.Running? then Some(w) else None
    case Import(ref) => if IsImageId(ref) then Some(w) else None
    case RetainLegacy(id, r) => if id in w.releases then Some(w) else Some(w.(releases := w.releases[id := r]))
    case WriteRelease(id, r) =>
      if id in w.releases && w.releases[id] != r then None else Some(w.(releases := w.releases[id := r]))
    case MakeDir(dir) =>
      if dir in w.snapshots then None else Some(w.(snapshots := w.snapshots[dir := Snapshot(None, None, None)]))
    case SnapUnit(dir) =>
      if dir !in w.snapshots then None
      else Some(w.(snapshots := w.snapshots[dir := w.snapshots[dir].(unit := Some(w.unit))]))
    case SnapCopy(dir) =>
      if dir !in w.snapshots then None
      else Some(w.(snapshots := w.snapshots[dir := w.snapshots[dir].(copy := Some(w.copy))]))
    case SnapRecord(dir) =>
      if dir !in w.snapshots || w.current.None? then None
      else Some(w.(snapshots := w.snapshots[dir := w.snapshots[dir].(record := w.current)]))
    case Mark(tx, phase) => Some(w.(active := Some(Marker(tx, phase))))
    case UpdateUnit(ref) =>
      if !ImmutableRef(ref) || '\\' in ref || UpdateImage(w.unit, ref).None? then None
      else Some(w.(unit := UpdateImage(w.unit, ref).value))
    case CopyUnit => Some(w.(copy := w.unit))
    case Reload => Some(w.(loaded := w.unit))
    case RestartApi => Some(w.(api := Running(w.loaded)))
    case SwitchSpa(spa) => Some(w.(spa := spa))
    case RestartWeb => Some(w.(web := Running(w.spa)))
    case WriteCurrent(record) => Some(w.(current := Some(record)))
    case RestoreUnit(dir) =>
      if dir !in w.snapshots || w.snapshots[dir].unit.None? then None else Some(w.(unit := w.snapshots[dir].unit.value))
    case RestoreCopy(dir) =>
      if dir !in w.snapshots || w.snapshots[dir].copy.None? then None else Some(w.(copy := w.snapshots[dir].copy.value))
    case RestoreRecord(dir) =>
      if dir !in w.snapshots || w.snapshots[dir].record.None? then None else Some(w.(current := w.snapshots[dir].record))
    case RemoveRecord => Some(w.(current := None))
    case Finish(tx, phase) =>
      if w.active.None? || w.active.value.tx.id != tx.id then None
      else Some(w.(active := Some(w.active.value.(phase := phase))))
    case Retire(tx) =>
      if w.active.None? then None
      else Some(w.(active := None, history := w.history[tx.id := w.active.value]))
  }

  /** A failed restart may leave its service stopped. */
  function Halted(op: Op, w: World): World {
    match op
    case RestartApi => w.(api := Stopped)
    case RestartWeb => w.(web := Stopped)
    case _ => w
  }

  datatype Fault = Proceed | RaiseBefore | RaiseAfter | RaiseHalted | CrashBefore | CrashAfter

  /** Raised is an exception on its way to a handler; the last three are ends of a whole command. */
  datatype Outcome = Ok | Raised | Crashed | Failed | Restored {
    predicate IsFailure() { this != Ok }
    function PropagateFailure(): Outcome { this }
  }

  datatype Result = Result(outcome: Outcome, w: World, faults: seq<Fault>)

  /** One operation under one fault. A rename that reports failure has not happened. */
  function Attempt(op: Op, w: World, fault: Fault): (Outcome, World) {
    if fault.CrashBefore? then (Crashed, w)
    else if fault.RaiseBefore? then (Raised, w)
    else if fault.RaiseHalted? then (Raised, Halted(op, w))
    else match Do(op, w)
      case None => (Raised, w)
      case Some(v) =>
        if fault.Proceed? then (Ok, v)
        else if fault.CrashAfter? then (Crashed, v)
        else (Raised, if op.Retire? then w else v)
  }

  function Next(faults: seq<Fault>): Fault {
    if faults == [] then Proceed else faults[0]
  }

  function Later(faults: seq<Fault>): seq<Fault> {
    if faults == [] then [] else faults[1..]
  }

  /** Runs operations in order, one fault for each; an exhausted plan means nothing goes wrong. */
  function Exec(ops: seq<Op>, w: World, faults: seq<Fault>): Result {
    if ops == [] then Result(Ok, w, faults)
    else
      var (outcome, v) := Attempt(ops[0], w, Next(faults));
      if outcome == Ok then Exec(ops[1..], v, Later(faults)) else Result(outcome, v, Later(faults))
  }

  // ---------- the commands ----------

  /**
   * What a deployment will find outside: the release is attested and fits the host, its image
   * accepts the database, its web client unpacks, the new API answers, both services do, and the
   * database files are as they were.
   */
  datatype Findings = Findings(
    admitted: bool, schemaFits: bool, archiveFits: bool, answers: bool, healthy: bool, dataKept: bool)

  datatype DeployRequest = DeployRequest(
    releaseId: string, commit: string, imageRef: string, spa: string, txId: string, oldCommit: string, found: Findings)

  /** What a rollback will find: the retained release is intact and accepts the database, and as above. */
  datatype RollbackFindings = RollbackFindings(accepted: bool, healthy: bool, dataKept: bool)

  datatype RollbackRequest = RollbackRequest(
    releaseId: string, dir: string, txId: string, oldCommit: string, found: RollbackFindings)

  function LegacyId(commit: string): string {
    "legacy-" + commit
  }

  /** snapshot_state up to its marker; a rollback takes its snapshot the same way. */
  function SnapshotOps(w: World, tx: Tx): seq<Op> {
    [MakeDir(tx.dir), SnapUnit(tx.dir), SnapCopy(tx.dir)]
    + (if tx.hadRecord then [SnapRecord(tx.dir)] else [])
    + [Mark(tx, Prepared)]
  }

  function DeployTx(w: World, req: DeployRequest): Tx {
    Tx(req.txId, true, LegacyId(req.oldCommit), w.spa, req.txId, w.current.Some?)
  }

  /** Up to the first change of the running installation. */
  function StageOps(req: DeployRequest, tx: Tx): seq<Op> {
    [Import(req.imageRef), Mark(tx, ImageImported), Check(req.found.schemaFits), Mark(tx, SchemaCompatible),
     Check(req.found.archiveFits), Mark(tx, SpaStaged), WriteRelease(req.releaseId, Release(req.commit, req.imageRef, req.spa))]
  }

  /** From the first change of the unit to the readiness of the API. */
  function ActivateOps(req: DeployRequest, tx: Tx): seq<Op> {
    [UpdateUnit(req.imageRef), CopyUnit, Mark(tx, ApiUnitUpdated), Reload, RestartApi, Mark(tx, ApiRestarted),
     Check(req.found.answers)]
  }

  function PublishOps(req: DeployRequest, tx: Tx): seq<Op> {
    [SwitchSpa(req.spa), Mark(tx, SpaSwitched), RestartWeb, Mark(tx, CaddyRestarted),
     Check(req.found.healthy), Check(req.found.dataKept),
     WriteCurrent(CurrentRecord(req.releaseId, req.imageRef, req.spa)), Mark(tx, Complete)]
  }

  function ArchiveOps(tx: Tx, phase: Phase): seq<Op> {
    [Finish(tx, phase), Retire(tx)]
  }

  /** restore_snapshot, whose choices depend on what the disk holds when it starts. */
  function RestoreOps(w: World, tx: Tx): seq<Op> {
    if tx.dir !in w.snapshots || w.snapshots[tx.dir].unit.None? || w.snapshots[tx.dir].copy.None? then [Refuse]
    else
      var s := w.snapshots[tx.dir];
      var unitChanged := w.unit != s.unit.value || w.copy != s.copy.value;
      var webChanged := w.spa != tx.previousSpa;
      [External]
      + (if unitChanged then [RestoreUnit(tx.dir), RestoreCopy(tx.dir), Reload, RestartApi] else [])
      + (if webChanged then [SwitchSpa(tx.previousSpa), RestartWeb] else [])
      + (if unitChanged || webChanged then [Healthy] else [])
      + [if tx.hadRecord then RestoreRecord(tx.dir) else RemoveRecord]
  }

  /** Continues with more operations unless something already stopped the command. */
  function Then(r: Result, ops: seq<Op>): Result {
    if r.outcome == Ok then Exec(ops, r.w, r.faults) else r
  }

  /** The handler around a transaction body: restore, then archive; on a second failure keep the marker. */
  function Undo(r: Result, tx: Tx, announce: seq<Op>, phase: Phase): Result {
    var started := Exec(announce, r.w, r.faults);
    if started.outcome != Ok then (if started.outcome == Raised then started.(outcome := Failed) else started)
    else
      var restored := Exec(RestoreOps(started.w, tx), started.w, started.faults);
      match restored.outcome
      case Ok =>
        var archived := Exec(ArchiveOps(tx, phase), restored.w, restored.faults);
        (match archived.outcome
         case Ok => archived.(outcome := Restored)
         case Raised => archived.(outcome := Failed)
         case _ => archived)
      case Raised => Surrender(restored, tx)
      case _ => restored
  }

  function Surrender(r: Result, tx: Tx): Result {
    var marked := Exec([Mark(tx, RollbackFailed)], r.w, r.faults);
    if marked.outcome == Crashed then marked else marked.(outcome := Failed)
  }

  /** What deploy_release checks of this state before it writes anything. */
  predicate Deployable(w: World) {
    w.active.None? && LoadImage(w.unit, API_NAME).Some? && w.unit == w.copy
  }

  function PrepareDeploy(w: World, req: DeployRequest, faults: seq<Fault>): Result
    requires Deployable(w)
  {
    var legacy := Release(req.oldCommit, LoadImage(w.unit, API_NAME).value, w.spa);
    Then(Exec([Check(req.found.admitted), RetainLegacy(LegacyId(req.oldCommit), legacy)], w, faults), SnapshotOps(w, DeployTx(w, req)))
  }

  /** The body of the try statement. */
  function DeployBody(r: Result, req: DeployRequest, tx: Tx): Result {
    Then(Then(Then(Then(r, StageOps(req, tx)), ActivateOps(req, tx)), PublishOps(req, tx)), ArchiveOps(tx, Complete))
  }

  function Deploy(w: World, req: DeployRequest, faults: seq<Fault>): Result {
    if !Deployable(w) then Result(Failed, w, faults)
    else
      var tx := DeployTx(w, req);
      var prepared := PrepareDeploy(w, req, faults);
      if prepared.outcome == Raised then prepared.(outcome := Failed)
      else if prepared.outcome != Ok then prepared
      else
        var body := DeployBody(prepared, req, tx);
        if body.outcome == Raised then Undo(body, tx, [Mark(tx, RollbackStarted)], RolledBack) else body
  }

  function RollbackTx(w: World, req: RollbackRequest): Tx {
    var previous := if w.current.Some? then w.current.value.releaseId else LegacyId(req.oldCommit);
    Tx(req.txId, false, previous, w.spa, req.dir, w.current.Some?)
  }

  function SelectOps(target: Release, tx: Tx): seq<Op> {
    [UpdateUnit(target.imageRef), CopyUnit, Mark(tx, ApiUnitUpdated), Reload, RestartApi]
  }

  function ExposeOps(req: RollbackRequest, target: Release, tx: Tx): seq<Op> {
    [SwitchSpa(target.spa), Mark(tx, SpaSwitched), RestartWeb, Check(req.found.healthy), Check(req.found.dataKept),
     WriteCurrent(CurrentRecord(req.releaseId, target.imageRef, target.spa))]
  }

  /** rollback_release when a transaction was interrupted: finish restoring its snapshot. */
  function Recover(w: World, req: RollbackRequest, faults: seq<Fault>): Result
    requires w.active.Some? && req.releaseId in w.releases
  {
    var tx := w.active.value.tx;
    var target := w.releases[req.releaseId];
    var checked := Exec([Check(req.found.accepted)], w, faults);
    if checked.outcome == Raised then checked.(outcome := Failed)
    else
      var done := Then(Then(Then(checked, RestoreOps(w, tx)),
                            [WriteCurrent(CurrentRecord(req.releaseId, target.imageRef, target.spa))]),
                       ArchiveOps(tx, InterruptedRollbackComplete));
      if done.outcome == Raised then Surrender(done, tx) else done
  }

  /** rollback_release when no transaction is active. */
  function Select(w: World, req: RollbackRequest, faults: seq<Fault>): Result
    requires w.active.None? && req.releaseId in w.releases
  {
    var tx := RollbackTx(w, req);
    var target := w.releases[req.releaseId];
    var prepared := Exec([Check(req.found.accepted)] + SnapshotOps(w, tx), w, faults);
    if prepared.outcome == Raised then prepared.(outcome := Failed)
    else
      var body := Then(Then(Then(prepared, SelectOps(target, tx)), ExposeOps(req, target, tx)),
                       ArchiveOps(tx, RollbackComplete));
      if prepared.outcome == Ok && body.outcome == Raised then Undo(body, tx, [], RollbackReverted) else body
  }

  /** What rollback_release checks of this state before it writes anything. */
  predicate Selectable(w: World, req: RollbackRequest) {
    (w.active.Some? ==> req.releaseId == w.active.value.tx.previousRelease) &&
    req.releaseId in w.releases && ImmutableRef(w.releases[req.releaseId].imageRef) &&
    (w.active.None? ==> w.unit == w.copy && LoadImage(w.unit, API_NAME).Some?)
  }

  function Rollback(w: World, req: RollbackRequest, faults: seq<Fault>): Result {
    if !Selectable(w, req) then Result(Failed, w, faults)
    else if w.active.Some? then Recover(w, req, faults)
    else Select(w, req, faults)
  }
}
