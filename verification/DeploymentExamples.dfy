/** Installations on which the expectations that the deployment protocol does not meet fail. */
module DeploymentExamples {
  import opened Wrappers
  import opened UnitText
  import opened Deployment
  import opened DeploymentSafety
  import opened DeploymentTheorems
  import opened DeploymentLiveness

  /** A unit of two lines. */
  function Unit(ref: string, eol: string): string {
    "ContainerName=" + API_NAME + eol + IMAGE + ref
  }

  function SomeId(): (id: string)
    ensures IsImageId(id)
  {
    var digits := seq(64, i => 'a');
    assert ("sha256:" + digits)[|"sha256:"|..] == digits;
    "sha256:" + digits
  }

  lemma {:induction false} UniversalOfLine(line: string, tail: string)
    requires '\r' !in line
    ensures Universal(line + tail) == line + Universal(tail)
  {
    if line == "" {
      assert line + tail == tail;
    } else {
      assert (line + tail)[0] == line[0] && (line + tail)[1..] == line[1..] + tail;
      UniversalOfLine(line[1..], tail);
      assert line == [line[0]] + line[1..];
    }
  }

  /** Text of two lines, with either line end. */
  lemma TwoLines(a: string, eol: string, b: string)
    requires OneLine(a) && OneLine(b) && (eol == "\n" || eol == "\r\n")
    ensures Lines(Universal(a + eol + b)) == [a, b]
  {
    UniversalEnd(eol, b);
    UniversalOfLine(a, eol + b);
    assert a + eol + b == a + (eol + b) && a + ("\n" + b) == a + "\n" + b;
    LinesOfLine(a, b);
    LinesOfLine(b, "");
  }

  lemma UniversalEnd(eol: string, b: string)
    requires OneLine(b) && (eol == "\n" || eol == "\r\n")
    ensures Universal(eol + b) == "\n" + b
  {
    UniversalProperties(b);
    if eol == "\n" {
      UniversalOfLine(eol, b);
      UniversalProperties(eol);
    } else {
      assert (eol + b)[0] == '\r' && (eol + b)[1] == '\n' && (eol + b)[2..] == b;
    }
  }

  lemma UnitLines(ref: string, eol: string)
    requires PlainRef(ref) && (eol == "\n" || eol == "\r\n")
    ensures Lines(Universal(Unit(ref, eol))) == ["ContainerName=" + API_NAME, IMAGE + ref]
  {
    var a, b := "ContainerName=" + API_NAME, IMAGE + ref;
    TwoLines(a, eol, b);
    assert Unit(ref, eol) == a + eol + b;
  }

  lemma ReadTwoLines(a: string, b: string, ref: string)
    requires a == "ContainerName=" + API_NAME && b == IMAGE + ref && ref != ""
    ensures ImageValues([a, b]) == [ref] && ImageCount([a, b]) == 1 && Occurrences([a, b], a) == 1
  {
    assert a[0] == 'C' && b[0] == 'I' && IMAGE[0] == 'I' && b[|IMAGE|..] == ref;
    assert [a, b][1..] == [b] && [b][1..] == [];
    assert ImageValues([b]) == [ref] && ImageCount([b]) == 1 && Occurrences([b], a) == 0;
  }

  /** What the program reads from such a unit, with either line end. */
  lemma UnitReads(ref: string, eol: string)
    requires PlainRef(ref) && (eol == "\n" || eol == "\r\n")
    ensures LoadImage(Unit(ref, eol), API_NAME) == Some(ref)
    ensures forall other :: '\\' !in other ==> UpdateImage(Unit(ref, eol), other).Some?
  {
    UnitLines(ref, eol);
    ReadTwoLines("ContainerName=" + API_NAME, IMAGE + ref, ref);
  }

  /** An installation at rest, running what it names. */
  function Installed(ref: string, eol: string): World {
    World(Unit(ref, eol), Unit(ref, eol), "web", None, None, map[], map[], map[],
          Unit(ref, eol), Service.Running(Unit(ref, eol)), Service.Running("web"))
  }

  function Request(ref: string): DeployRequest {
    DeployRequest("new", "commit", ref, "web", "deploy", "old", Findings(true, true, true, true, true, true))
  }

  /** Any image with an ID can be deployed on it. */
  lemma InstalledIsDeployable(ref: string, eol: string, id: string)
    requires PlainRef(ref) && (eol == "\n" || eol == "\r\n") && IsImageId(id)
    ensures InStep(Installed(ref, eol)) && Deployable(Installed(ref, eol))
    ensures Deploy(Installed(ref, eol), Request(id), []).outcome == Ok
    ensures LoadImage(Installed(ref, eol).unit, API_NAME) == Some(ref)
  {
    var w := Installed(ref, eol);
    UnitReads(ref, eol);
    ImmutableRefIsPlain(id);
    DeployCompletesIff(w, Request(id));
    assert LegacyId("old")[0] == 'l' && "new"[0] == 'n';
  }

  /** Redeploying the same image and pointer: either service can be left stopped. */
  lemma RedeployExample() returns (w: World, req: DeployRequest, apiFaults: seq<Fault>, webFaults: seq<Fault>)
    ensures InStep(w) && Deploy(w, req, []).outcome == Ok
    ensures Deploy(w, req, apiFaults).outcome == Restored && Deploy(w, req, apiFaults).w.api == Stopped
    ensures Deploy(w, req, webFaults).outcome == Restored && Deploy(w, req, webFaults).w.web == Stopped
  {
    var id := SomeId();
    w, req := Installed(id, "\n"), Request(id);
    ImmutableRefIsPlain(id);
    InstalledIsDeployable(id, "\n", id);
    SameImageChangesNothing(id);
    apiFaults := RedeployCanLeaveApiStopped(w, req);
    webFaults := RedeployCanLeaveWebStopped(w, req);
  }

  lemma SameImageChangesNothing(id: string)
    requires IsImageId(id)
    ensures !ChangesUnit(Installed(id, "\n"), id)
  {
    ImmutableRefIsPlain(id);
    UnitIsWritten(id);
    UnitReads(id, "\n");
    UpdateIsIdentityIff(Unit(id, "\n"), id);
  }

  /** A unit with plain line ends has nothing to translate or strip. */
  lemma UnitIsWritten(ref: string)
    requires PlainRef(ref)
    ensures '\r' !in Unit(ref, "\n") && ImageValues(Lines(Unit(ref, "\n"))) == [ref]
  {
    UnitLines(ref, "\n");
    ReadTwoLines("ContainerName=" + API_NAME, IMAGE + ref, ref);
    NoReturns("ContainerName=" + API_NAME, IMAGE, ref);
    UniversalProperties(Unit(ref, "\n"));
  }

  lemma NoReturns(a: string, b: string, c: string)
    requires OneLine(a) && OneLine(b) && OneLine(c)
    ensures '\r' !in a + "\n" + b + c
  {
  }

  /** A unit that names its image by a mutable reference: a deployment can strand it for good. */
  lemma StrandedExample() returns (w: World, req: DeployRequest, faults: seq<Fault>)
    ensures InStep(w) && Deploy(w, req, []).outcome == Ok && Deploy(w, req, faults).w.active.Some?
    ensures forall later: seq<Invocation> :: Session(Deploy(w, req, faults).w, later) == Deploy(w, req, faults).w
  {
    var ref := "latest";
    w, req := Installed(ref, "\n"), Request(SomeId());
    assert ref[0] == 'l' && ref[|ref| - 1] == 't' && |ref| == 6;
    assert PlainRef(ref);
    InstalledIsDeployable(ref, "\n", SomeId());
    faults := DeployDiesAtMarker(w, req);
    var v := Deploy(w, req, faults).w;
    assert !RecoveryAllowed(v);
    forall later: seq<Invocation> ensures Session(v, later) == v { StrandedForever(v, later); }
  }

  lemma DirectoryNotMade(op: Op, w: World, inv: World -> bool, dir: string)
    requires NotThere(op, dir) && inv(w) && forall v: World :: inv(v) <==> dir !in v.snapshots
    ensures Survives(op, w, inv)
  {
  }

  lemma DirectoryStaysFree(ops: seq<Op>, w: World, dir: string)
    requires dir !in w.snapshots && forall i :: 0 <= i < |ops| ==> NotThere(ops[i], dir)
    ensures dir !in Exec(ops, w, []).w.snapshots && Exec(ops, w, []).faults == []
  {
    var inv := (v: World) => dir !in v.snapshots;
    forall i, v | 0 <= i < |ops| && inv(v) ensures Survives(ops[i], v, inv) { DirectoryNotMade(ops[i], v, inv, dir); }
    ExecKeeps(ops, w, [], inv);
    NoFaultsLeft(ops, w);
  }

  lemma DirectoryThen(r: Result, ops: seq<Op>, dir: string)
    requires r.faults == [] && dir !in r.w.snapshots && forall i :: 0 <= i < |ops| ==> NotThere(ops[i], dir)
    ensures Then(r, ops).faults == [] && dir !in Then(r, ops).w.snapshots
  {
    if r.outcome == Ok { DirectoryStaysFree(ops, r.w, dir); }
  }

  predicate NotThere(op: Op, dir: string) {
    match op
    case MakeDir(d) => d != dir
    case SnapUnit(d) => d != dir
    case SnapCopy(d) => d != dir
    case SnapRecord(d) => d != dir
    case _ => true
  }

  lemma DeployUsesOwnDirectory(w: World, req: DeployRequest, dir: string)
    requires Deploy(w, req, []).outcome == Ok && dir !in w.snapshots && dir != req.txId
    ensures dir !in Deploy(w, req, []).w.snapshots
  {
    var tx := DeployTx(w, req);
    var p := PrepareDeploy(w, req, []);
    DirectoryThroughPreparation(w, req, dir);
    DirectoryThroughBody(p, req, tx, dir);
    UndoNeverOk(DeployBody(p, req, tx), tx, [Mark(tx, RollbackStarted)], RolledBack);
  }

  lemma DirectoryThroughPreparation(w: World, req: DeployRequest, dir: string)
    requires Deployable(w) && dir !in w.snapshots && dir != req.txId
    ensures PrepareDeploy(w, req, []).faults == [] && dir !in PrepareDeploy(w, req, []).w.snapshots
  {
    var ops := [Check(req.found.admitted), RetainLegacy(LegacyId(req.oldCommit), LegacyOf(w, req))];
    DirectoryStaysFree(ops, w, dir);
    DirectoryThen(Exec(ops, w, []), SnapshotOps(w, DeployTx(w, req)), dir);
  }

  lemma DirectoryThroughBody(p: Result, req: DeployRequest, tx: Tx, dir: string)
    requires p.faults == [] && dir !in p.w.snapshots
    ensures dir !in DeployBody(p, req, tx).w.snapshots
  {
    DirectoryThen(p, StageOps(req, tx), dir);
    var a := Then(p, StageOps(req, tx));
    DirectoryThen(a, ActivateOps(req, tx), dir);
    var b := Then(a, ActivateOps(req, tx));
    DirectoryThen(b, PublishOps(req, tx), dir);
    DirectoryThen(Then(b, PublishOps(req, tx)), ArchiveOps(tx, Complete), dir);
  }

  /** A unit with a carriage return: deploying over it and rolling back completes, and changes its bytes. */
  lemma CarriageReturnExample() returns (w: World, req: DeployRequest, back: RollbackRequest)
    ensures InStep(w) && Deploy(w, req, []).outcome == Ok
    ensures Rollback(Deploy(w, req, []).w, back, []).outcome == Ok && Rollback(Deploy(w, req, []).w, back, []).w.unit != w.unit
  {
    var id := SomeId();
    w, req := Installed(id, "\r\n"), Request(id);
    back := RollbackRequest(LegacyId("old"), "back", "rollback", "old", RollbackFindings(true, true, true));
    ImmutableRefIsPlain(id);
    InstalledIsDeployable(id, "\r\n", id);
    assert "back"[0] == 'b' && "deploy"[0] == 'd';
    DeployUsesOwnDirectory(w, req, "back");
    DeployedCanBeUndoneIff(w, req, [], back);
    DeployThenRollback(w, req, [], back, []);
    assert w.unit[|"ContainerName=" + API_NAME|] == '\r';
  }
}
