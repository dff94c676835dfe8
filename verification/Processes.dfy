/**
 * Stopping owned process groups (scripts/operatoros-dev-runtime.ts). Every look at the process
 * table may see a different table. What was seen is returned beside the result, and the signals
 * sent are a function of it.
 */
module Processes {
  import opened Wrappers
  import opened Lists

  datatype Process = Process(pgid: int, uid: int, startTicks: string, zombie: bool)

  type Table = map<int, Process>

  datatype Owned = Owned(role: string, pid: int)

  /** Our user, and the start time captured at entry of each owned process. */
  datatype Capture = Capture(uid: int, start: map<int, Option<string>>)

  /** A delivered signal: its phase (0 SIGINT, 1 SIGTERM, 2 SIGKILL), its group, and the leader seen. */
  datatype Sent = Sent(phase: nat, pid: int, leader: Option<Process>)

  datatype Stop = Stopped(remaining: nat) | Unverified(role: string, pid: int) | SignalFailed

  datatype Answer = Delivered | NoSuchProcess | Refused

  /** The table when a group was checked, the table when its leader was read, and the kernel's answer to a signal. */
  datatype Look = Look(group: Table, leader: Table, answer: Answer)

  /** What one signal phase saw: a look for each item, and a last check of each. */
  datatype Round = Round(looks: seq<Look>, checks: seq<Table>)

  datatype Step = Skip | Send(leader: Option<Process>) | Fail(stop: Stop)

  function ProcessInfo(t: Table, pid: int): Option<Process> {
    if pid in t then Some(t[pid]) else None
  }

  function StartOf(t: Table, pid: int): Option<string> {
    if pid in t then Some(t[pid].startTicks) else None
  }

  /** groupAlive */
  predicate GroupAlive(t: Table, pgid: int) {
    exists pid :: pid in t && t[pid].pgid == pgid && !t[pid].zombie
  }

  /** The process captured at entry: it leads its own group, is ours, and started when it did then. */
  predicate IsCaptured(p: Process, pid: int, c: Capture) {
    p.pgid == pid && p.uid == c.uid && pid in c.start && c.start[pid] == Some(p.startTicks)
  }

  /** The start time of each owned process, as each was read. */
  function StartTimes(owned: seq<Owned>, starts: seq<Table>): map<int, Option<string>> {
    if starts == [] || |owned| < |starts| then map[]
    else
      var k := |starts| - 1;
      StartTimes(owned, starts[..k])[owned[k].pid := StartOf(starts[k], owned[k].pid)]
  }

  function StepOf(item: Owned, look: Look, c: Capture): Step {
    if !GroupAlive(look.group, item.pid) then Skip
    else
      var leader := ProcessInfo(look.leader, item.pid);
      if leader.Some? && !IsCaptured(leader.value, item.pid, c) then Fail(Unverified(item.role, item.pid))
      else match look.answer
        case Delivered => Send(leader)
        case NoSuchProcess => Skip
        case Refused => Fail(SignalFailed)
  }

  /** The signals of one phase, given the looks made so far. */
  function RoundSent(phase: nat, items: seq<Owned>, looks: seq<Look>, c: Capture): seq<Sent> {
    if looks == [] || |items| < |looks| then []
    else
      var k := |looks| - 1;
      var step := StepOf(items[k], looks[k], c);
      RoundSent(phase, items, looks[..k], c) + if step.Send? then [Sent(phase, items[k].pid, step.leader)] else []
  }

  /** The items whose group was alive in its own last check. */
  function Survivors(items: seq<Owned>, checks: seq<Table>): seq<Owned> {
    if checks == [] || |items| < |checks| then []
    else
      var k := |checks| - 1;
      Survivors(items, checks[..k]) + if GroupAlive(checks[k], items[k].pid) then [items[k]] else []
  }

  /** What is left after some phases. */
  function Left(owned: seq<Owned>, rounds: seq<Round>): seq<Owned> {
    if rounds == [] then owned
    else Survivors(Left(owned, rounds[..|rounds| - 1]), rounds[|rounds| - 1].checks)
  }

  /** Every signal of a run. */
  function AllSent(owned: seq<Owned>, rounds: seq<Round>, c: Capture): seq<Sent> {
    if rounds == [] then []
    else
      var k := |rounds| - 1;
      AllSent(owned, rounds[..k], c) + RoundSent(k, Left(owned, rounds[..k]), rounds[k].looks, c)
  }

  predicate NoFailure(items: seq<Owned>, looks: seq<Look>, c: Capture) {
    |looks| <= |items| && forall k :: 0 <= k < |looks| ==> !StepOf(items[k], looks[k], c).Fail?
  }

  /** A phase that looked at every item, failed at none, and checked every item again. */
  predicate FullRound(items: seq<Owned>, round: Round, c: Capture) {
    |round.looks| == |items| && |round.checks| == |items| && NoFailure(items, round.looks, c)
  }

  /** The phases of a run that are over: each was full and each but the last left something alive. */
  predicate FullRounds(owned: seq<Owned>, rounds: seq<Round>, c: Capture) {
    rounds == [] ||
    var k := |rounds| - 1;
    && FullRounds(owned, rounds[..k], c)
    && FullRound(Left(owned, rounds[..k]), rounds[k], c)
    && (k > 0 ==> Left(owned, rounds[..k]) != [])
  }

  /** A phase that stopped at the last item it looked at. */
  predicate BrokenRound(items: seq<Owned>, round: Round, c: Capture, problem: Stop) {
    0 < |round.looks| <= |items| && round.checks == [] && NoFailure(items, round.looks[..|round.looks| - 1], c) &&
    StepOf(items[|round.looks| - 1], round.looks[|round.looks| - 1], c) == Fail(problem)
  }

  /** What a run of stopGroups may see and give. */
  predicate IsRun(owned: seq<Owned>, rounds: seq<Round>, c: Capture, r: Stop) {
    if r.Stopped? then
      FullRounds(owned, rounds, c) && 1 <= |rounds| <= 3 && r.remaining == |Left(owned, rounds)| &&
        (|rounds| == 3 || r.remaining == 0)
    else
      1 <= |rounds| <= 3 && FullRounds(owned, rounds[..|rounds| - 1], c) &&
      BrokenRound(Left(owned, rounds[..|rounds| - 1]), rounds[|rounds| - 1], c, r)
  }

  // ----- What every run keeps -----

  predicate Names(items: seq<Owned>, pid: int) {
    exists o :: o in items && o.pid == pid
  }

  function CountPid(items: seq<Owned>, pid: int): nat {
    if items == [] then 0 else CountPid(items[..|items| - 1], pid) + if items[|items| - 1].pid == pid then 1 else 0
  }

  function CountSent(sent: seq<Sent>, pid: int): nat {
    if sent == [] then 0 else CountSent(sent[..|sent| - 1], pid) + if sent[|sent| - 1].pid == pid then 1 else 0
  }

  lemma {:induction false} CountSentConcat(a: seq<Sent>, b: seq<Sent>, pid: int)
    ensures CountSent(a + b, pid) == CountSent(a, pid) + CountSent(b, pid)
  {
    if b == [] {
      assert a + b == a;
    } else {
      assert (a + b)[..|a + b| - 1] == a + b[..|b| - 1];
      CountSentConcat(a, b[..|b| - 1], pid);
    }
  }

  lemma {:induction false} CountPidPrefix(items: seq<Owned>, k: nat, pid: int)
    requires k <= |items|
    ensures CountPid(items[..k], pid) <= CountPid(items, pid)
  {
    if k < |items| {
      CountPidPrefix(items[..|items| - 1], k, pid);
      assert items[..|items| - 1][..k] == items[..k];
    } else {
      assert items[..k] == items;
    }
  }

  lemma {:induction false} SurvivorsWereThere(items: seq<Owned>, checks: seq<Table>, pid: int)
    requires |checks| <= |items|
    ensures CountPid(Survivors(items, checks), pid) <= CountPid(items[..|checks|], pid)
    ensures forall o :: o in Survivors(items, checks) ==> o in items[..|checks|]
  {
    if checks != [] {
      var k := |checks| - 1;
      var front, last := Survivors(items, checks[..k]), [items[k]];
      SurvivorsWereThere(items, checks[..k], pid);
      assert items[..k + 1] == items[..k] + last && items[..k + 1][..k] == items[..k];
      assert (front + last)[..|front|] == front && front + [] == front;
    }
  }

  /** The looks of a run never outnumber the items of their phase, and nor do the checks. */
  predicate Fits(owned: seq<Owned>, rounds: seq<Round>) {
    rounds == [] ||
    var k := |rounds| - 1;
    && Fits(owned, rounds[..k])
    && |rounds[k].looks| <= |Left(owned, rounds[..k])| && |rounds[k].checks| <= |Left(owned, rounds[..k])|
  }

  lemma {:induction false} LeftShrinks(owned: seq<Owned>, rounds: seq<Round>, pid: int)
    requires Fits(owned, rounds)
    ensures CountPid(Left(owned, rounds), pid) <= CountPid(owned, pid)
  {
    if rounds != [] {
      var k := |rounds| - 1;
      var before := Left(owned, rounds[..k]);
      LeftShrinks(owned, rounds[..k], pid);
      SurvivorsWereThere(before, rounds[k].checks, pid);
      CountPidPrefix(before, |rounds[k].checks|, pid);
    }
  }

  lemma {:induction false} RoundSendsOnce(phase: nat, items: seq<Owned>, looks: seq<Look>, c: Capture, pid: int)
    requires |looks| <= |items|
    ensures CountSent(RoundSent(phase, items, looks, c), pid) <= CountPid(items[..|looks|], pid)
  {
    if looks != [] {
      var k := |looks| - 1;
      var front, step := RoundSent(phase, items, looks[..k], c), StepOf(items[k], looks[k], c);
      RoundSendsOnce(phase, items, looks[..k], c, pid);
      assert items[..k + 1] == items[..k] + [items[k]] && items[..k + 1][..k] == items[..k];
      if step.Send? {
        assert (front + [Sent(phase, items[k].pid, step.leader)])[..|front|] == front;
      } else {
        assert front + [] == front;
      }
    }
  }

  lemma {:induction false} SentAtMostOncePerPhase(owned: seq<Owned>, rounds: seq<Round>, c: Capture, pid: int)
    requires Fits(owned, rounds)
    ensures CountSent(AllSent(owned, rounds, c), pid) <= |rounds| * CountPid(owned, pid)
  {
    if rounds != [] {
      var k := |rounds| - 1;
      var items := Left(owned, rounds[..k]);
      SentAtMostOncePerPhase(owned, rounds[..k], c, pid);
      CountSentConcat(AllSent(owned, rounds[..k], c), RoundSent(k, items, rounds[k].looks, c), pid);
      RoundSendsOnce(k, items, rounds[k].looks, c, pid);
      CountPidPrefix(items, |rounds[k].looks|, pid);
      LeftShrinks(owned, rounds[..k], pid);
      assert |rounds| * CountPid(owned, pid) == k * CountPid(owned, pid) + CountPid(owned, pid);
    }
  }

  lemma {:induction false} FullRoundsFit(owned: seq<Owned>, rounds: seq<Round>, c: Capture)
    requires FullRounds(owned, rounds, c)
    ensures Fits(owned, rounds)
  {
    if rounds != [] { FullRoundsFit(owned, rounds[..|rounds| - 1], c); }
  }

  lemma RunFits(owned: seq<Owned>, rounds: seq<Round>, c: Capture, r: Stop)
    requires IsRun(owned, rounds, c, r)
    ensures Fits(owned, rounds)
  {
    FullRoundsFit(owned, if r.Stopped? then rounds else rounds[..|rounds| - 1], c);
  }

  lemma {:induction false} PidsCounted(items: seq<Owned>, pid: int)
    ensures CountPid(items, pid) == |Filter(items, (o: Owned) => o.pid == pid)|
  {
    if items != [] {
      var front, last := items[..|items| - 1], items[|items| - 1];
      PidsCounted(front, pid);
      FilterSnoc(front, last, (o: Owned) => o.pid == pid);
      assert items == front + [last];
    }
  }

  lemma {:induction false} SignalsCounted(sent: seq<Sent>, pid: int)
    ensures CountSent(sent, pid) == |Filter(sent, (s: Sent) => s.pid == pid)|
  {
    if sent != [] {
      var front, last := sent[..|sent| - 1], sent[|sent| - 1];
      SignalsCounted(front, pid);
      FilterSnoc(front, last, (s: Sent) => s.pid == pid);
      assert sent == front + [last];
    }
  }

  /** A process group named once is signalled at most three times, whatever happens to the process table. */
  lemma AtMostThreeSignals(owned: seq<Owned>, rounds: seq<Round>, c: Capture, r: Stop, pid: int)
    requires IsRun(owned, rounds, c, r)
    ensures |Filter(AllSent(owned, rounds, c), (s: Sent) => s.pid == pid)| <= 3 * |Filter(owned, (o: Owned) => o.pid == pid)|
  {
    PidsCounted(owned, pid);
    SignalsCounted(AllSent(owned, rounds, c), pid);
    RunFits(owned, rounds, c, r);
    SentAtMostOncePerPhase(owned, rounds, c, pid);
    assert |rounds| * CountPid(owned, pid) <= 3 * CountPid(owned, pid);
  }

  lemma {:induction false} RoundSendsToCaptured(phase: nat, items: seq<Owned>, looks: seq<Look>, c: Capture, s: Sent)
    requires s in RoundSent(phase, items, looks, c)
    ensures s.phase == phase && Names(items, s.pid)
    ensures s.leader.Some? ==> IsCaptured(s.leader.value, s.pid, c)
  {
    var k := |looks| - 1;
    var front := RoundSent(phase, items, looks[..k], c);
    if s in front {
      RoundSendsToCaptured(phase, items, looks[..k], c, s);
    } else {
      assert items[k] in items;
    }
  }

  /** No signal reaches a group whose leader, read just before, is not the process captured at entry. */
  lemma {:induction false} OnlyCapturedLeadersAreSignalled(owned: seq<Owned>, rounds: seq<Round>, c: Capture, s: Sent)
    requires s in AllSent(owned, rounds, c)
    ensures s.leader.Some? ==>
      && s.leader.value.pgid == s.pid && s.leader.value.uid == c.uid
      && s.pid in c.start && c.start[s.pid] == Some(s.leader.value.startTicks)
    ensures s.phase < |rounds| && Names(Left(owned, rounds[..s.phase]), s.pid)
  {
    var k := |rounds| - 1;
    if s in AllSent(owned, rounds[..k], c) {
      OnlyCapturedLeadersAreSignalled(owned, rounds[..k], c, s);
      assert rounds[..k][..s.phase] == rounds[..s.phase];
    } else {
      RoundSendsToCaptured(k, Left(owned, rounds[..k]), rounds[k].looks, c, s);
    }
  }

  lemma {:induction false} PrefixFits(owned: seq<Owned>, rounds: seq<Round>, p: nat)
    requires p <= |rounds| && Fits(owned, rounds)
    ensures Fits(owned, rounds[..p])
  {
    if p == |rounds| {
      assert rounds[..p] == rounds;
    } else {
      PrefixFits(owned, rounds[..|rounds| - 1], p);
      assert rounds[..|rounds| - 1][..p] == rounds[..p];
    }
  }

  lemma {:induction false} DroppedIsNotLeft(owned: seq<Owned>, rounds: seq<Round>, p: nat, pid: int)
    requires p <= |rounds| && !Names(Left(owned, rounds[..p]), pid)
    requires Fits(owned, rounds)
    ensures !Names(Left(owned, rounds), pid)
  {
    if p == |rounds| {
      assert rounds[..p] == rounds;
    } else {
      var k := |rounds| - 1;
      assert rounds[..k][..p] == rounds[..p];
      DroppedIsNotLeft(owned, rounds[..k], p, pid);
      SurvivorsWereThere(Left(owned, rounds[..k]), rounds[k].checks, pid);
    }
  }

  /** A group that was dropped at the end of a phase is never signalled again. */
  lemma DroppedIsNeverSignalledAgain(owned: seq<Owned>, rounds: seq<Round>, c: Capture, p: nat, s: Sent)
    requires Fits(owned, rounds) && p <= |rounds| && s in AllSent(owned, rounds, c)
    requires !Names(Left(owned, rounds[..p]), s.pid)
    ensures s.phase < p
  {
    OnlyCapturedLeadersAreSignalled(owned, rounds, c, s);
    if p <= s.phase {
      var upto := rounds[..s.phase];
      assert upto[..p] == rounds[..p];
      PrefixFits(owned, rounds, s.phase);
      DroppedIsNotLeft(owned, upto, p, s.pid);
      assert false;
    }
  }

  /** A process of a group that is more than a zombie. */
  ghost predicate IsMember(t: Table, pid: int, pgid: int) {
    pid in t && t[pid].pgid == pgid && t[pid].zombie == false
  }

  lemma AliveIff(t: Table, pgid: int)
    ensures GroupAlive(t, pgid) <==> exists p :: IsMember(t, p, pgid)
  {
    if GroupAlive(t, pgid) {
      var p :| p in t && t[p].pgid == pgid && !t[p].zombie;
      assert IsMember(t, p, pgid);
    }
  }

  /** What is left is what the last checks found alive, and nothing else. */
  lemma {:induction false} SurvivorsAreAlive(items: seq<Owned>, checks: seq<Table>, o: Owned)
    requires |checks| <= |items|
    ensures o in Survivors(items, checks) <==>
      exists k, p :: 0 <= k < |checks| && items[k] == o && IsMember(checks[k], p, o.pid)
  {
    if checks != [] {
      var k := |checks| - 1;
      SurvivorsAreAlive(items, checks[..k], o);
      AliveIff(checks[k], items[k].pid);
      if i, p :| 0 <= i < |checks| && items[i] == o && IsMember(checks[i], p, o.pid) {
        if i < k { assert IsMember(checks[..k][i], p, o.pid); }
      }
    }
  }

  /** The leader read just before a signal, if there was one, is the process captured at entry. */
  ghost predicate LeaderIsOurs(t: Table, pid: int, c: Capture) {
    pid in t ==> t[pid].pgid == pid && t[pid].uid == c.uid && pid in c.start && c.start[pid] == Some(t[pid].startTicks)
  }

  /**
   * A phase signals exactly the groups that have a live member, whose leader is ours or gone, and
   * that the signal reaches.
   */
  lemma {:induction false} SignalledIff(phase: nat, items: seq<Owned>, looks: seq<Look>, c: Capture, s: Sent)
    requires |looks| <= |items|
    ensures s in RoundSent(phase, items, looks, c) <==>
      exists k, p ::
        && 0 <= k < |looks| && IsMember(looks[k].group, p, items[k].pid)
        && LeaderIsOurs(looks[k].leader, items[k].pid, c) && looks[k].answer == Delivered
        && s.phase == phase && s.pid == items[k].pid
        && s.leader == if s.pid in looks[k].leader then Some(looks[k].leader[s.pid]) else None
  {
    if looks != [] {
      var k := |looks| - 1;
      SignalledIff(phase, items, looks[..k], c, s);
      SignalOfLook(phase, items[k], looks[k], c, s);
    }
  }

  lemma SignalOfLook(phase: nat, item: Owned, look: Look, c: Capture, s: Sent)
    ensures var step := StepOf(item, look, c);
      (step.Send? && s == Sent(phase, item.pid, step.leader)) <==>
        exists p ::
          && IsMember(look.group, p, item.pid) && LeaderIsOurs(look.leader, item.pid, c) && look.answer == Delivered
          && s.phase == phase && s.pid == item.pid
          && s.leader == if s.pid in look.leader then Some(look.leader[s.pid]) else None
  {
    AliveIff(look.group, item.pid);
  }

  /** A run is refused exactly at a group with a live member whose leader is there and not ours. */
  lemma UnverifiedIff(item: Owned, look: Look, c: Capture, r: Stop)
    ensures r.Unverified? ==>
      (StepOf(item, look, c) == Fail(r) <==>
        && (exists p :: IsMember(look.group, p, item.pid)) && !LeaderIsOurs(look.leader, item.pid, c)
        && r.role == item.role && r.pid == item.pid)
  {
    AliveIff(look.group, item.pid);
  }

  /** What is captured at entry: the start time of each owned process, as last read for its number. */
  lemma {:induction false} CapturedStart(owned: seq<Owned>, starts: seq<Table>, k: nat)
    requires k < |starts| <= |owned| && forall j :: k < j < |starts| ==> owned[j].pid != owned[k].pid
    ensures var pid := owned[k].pid;
      && pid in StartTimes(owned, starts)
      && StartTimes(owned, starts)[pid] == if pid in starts[k] then Some(starts[k][pid].startTicks) else None
  {
    if k < |starts| - 1 { CapturedStart(owned, starts[..|starts| - 1], k); }
  }

  // ----- Cleaning up a port -----

  /** OPERATOROS_STALE, SAME_WORKTREE_STALE_SESSION, or any other decision. */
  datatype Decision = Stale | DeadRecord | OtherOwner(name: string)

  datatype Listener = Listener(
    pid: Option<int>, start: Option<string>, pgid: Option<int>, decision: Decision, session: Option<string>, role: Option<string>)

  datatype Release = AlreadyFree | Protected(listeners: seq<Listener>) | Changed | Ended(stop: Stop, released: bool)

  /** The listeners that are more than a record left behind. */
  function Live(found: seq<Listener>): seq<Listener> {
    if found == [] then [] else (if found[0].decision == DeadRecord then [] else [found[0]]) + Live(found[1..])
  }

  function StaleRecords(found: seq<Listener>): seq<(string, string)> {
    if found == [] then []
    else
      var item := found[|found| - 1];
      StaleRecords(found[..|found| - 1]) +
      if item.decision == DeadRecord && item.session.Some? && item.role.Some? then [(item.session.value, item.role.value)] else []
  }

  function ProtectedOf(live: seq<Listener>, noClean: bool): seq<Listener> {
    if live == [] then []
    else (if noClean || live[0].decision != Stale then [live[0]] else []) + ProtectedOf(live[1..], noClean)
  }

  predicate SameAndStale(item: Listener, other: Listener) {
    other.pid == item.pid && other.start == item.start && other.pgid == item.pid && other.decision == Stale
  }

  /** The pid of a listener, if a second look finds the same process stale again. */
  function Confirmed(item: Listener, again: seq<Listener>): Option<int> {
    if again == [] then None
    else if SameAndStale(item, again[0]) then
      match again[0].pid
      case Some(pid) => if pid == 0 then None else Some(pid)
      case None => None
    else Confirmed(item, again[1..])
  }

  function Targets(live: seq<Listener>, again: seq<seq<Listener>>): seq<Owned> {
    if again == [] || |live| < |again| then []
    else
      var k := |again| - 1;
      var pid := Confirmed(live[k], again[k]);
      Targets(live, again[..k]) +
      if pid.Some? then [Owned(if live[k].role.Some? then live[k].role.value else "service", pid.value)] else []
  }

  /** Every live listener was classified stale twice, as the same process. */
  predicate MayStop(first: seq<Listener>, again: seq<seq<Listener>>, noClean: bool) {
    |again| == |Live(first)| && forall k :: 0 <= k < |again| ==>
      && !noClean && Live(first)[k].decision == Stale
      && Confirmed(Live(first)[k], again[k]).Some?
  }

  lemma {:induction false} ConfirmedWasSeen(item: Listener, again: seq<Listener>)
    requires Confirmed(item, again).Some?
    ensures item.pid == Confirmed(item, again)
    ensures exists other :: other in again && SameAndStale(item, other)
  {
    if SameAndStale(item, again[0]) {
      assert again[0] in again;
    } else {
      ConfirmedWasSeen(item, again[1..]);
    }
  }

  /** A listener is confirmed exactly if it has a process, and a later look finds that process leading its group and stale. */
  lemma {:induction false} ConfirmedIff(item: Listener, again: seq<Listener>, pid: int)
    ensures Confirmed(item, again) == Some(pid) <==>
      && item.pid == Some(pid) && pid != 0
      && exists other :: other in again && other.pid == Some(pid) && other.start == item.start && other.pgid == Some(pid)
                         && other.decision == Stale
  {
    if again != [] {
      ConfirmedIff(item, again[1..], pid);
      assert again == [again[0]] + again[1..];
    }
  }

  lemma {:induction false} NothingProtected(live: seq<Listener>, noClean: bool)
    ensures ProtectedOf(live, noClean) == [] <==> forall k :: 0 <= k < |live| ==> !noClean && live[k].decision == Stale
  {
    if live != [] {
      NothingProtected(live[1..], noClean);
      assert forall k :: 0 < k < |live| ==> live[k] == live[1..][k - 1];
    }
  }

  /** The listeners reported as protected. */
  lemma {:induction false} ProtectedIff(live: seq<Listener>, noClean: bool, item: Listener)
    ensures item in ProtectedOf(live, noClean) <==> item in live && (noClean || item.decision != Stale)
  {
    if live != [] { ProtectedIff(live[1..], noClean, item); }
  }

  /** The records removed: of each listener that is only a record, if it says of which session and role. */
  lemma {:induction false} StaleRecordsIff(found: seq<Listener>, session: string, role: string)
    ensures (session, role) in StaleRecords(found) <==>
      exists item :: item in found && item.decision == DeadRecord && item.session == Some(session) && item.role == Some(role)
  {
    if found != [] {
      StaleRecordsIff(found[..|found| - 1], session, role);
      assert found == found[..|found| - 1] + [found[|found| - 1]];
    }
  }

  /** A listener that is neither stale nor a record left behind protects every other one. */
  lemma {:induction false} LiveKeeps(found: seq<Listener>, item: Listener)
    ensures item in Live(found) <==> item in found && item.decision != DeadRecord
  {
    if found != [] { LiveKeeps(found[1..], item); }
  }

  /** A target's process was in the first look and in a later one, stale both times. */
  lemma {:induction false} TargetsWereStaleTwice(first: seq<Listener>, again: seq<seq<Listener>>, noClean: bool,
      live: seq<Listener>, n: nat, o: Owned)
    requires MayStop(first, again, noClean) && live == Live(first) && n <= |again| && o in Targets(live, again[..n])
    ensures !noClean
    ensures exists k, other ::
      && 0 <= k < n && live[k] in first && live[k].decision == Stale && live[k].pid == Some(o.pid)
      && other in again[k] && other.pid == Some(o.pid) && other.start == live[k].start && other.pgid == Some(o.pid)
      && other.decision == Stale
  {
    var k := n - 1;
    assert again[..n][..k] == again[..k];
    if o in Targets(live, again[..k]) {
      TargetsWereStaleTwice(first, again, noClean, live, k, o);
    } else {
      LiveKeeps(first, live[k]);
      ConfirmedWasSeen(live[k], again[k]);
    }
  }

  lemma {:induction false} TargetsAreAll(live: seq<Listener>, again: seq<seq<Listener>>)
    requires |again| <= |live| && forall k :: 0 <= k < |again| ==> Confirmed(live[k], again[k]).Some?
    ensures |Targets(live, again)| == |again|
    ensures forall k :: 0 <= k < |again| ==>
      && Some(Targets(live, again)[k].pid) == live[k].pid
      && Targets(live, again)[k].role == if live[k].role.Some? then live[k].role.value else "service"
  {
    if again != [] {
      TargetsAreAll(live, again[..|again| - 1]);
      ConfirmedWasSeen(live[|again| - 1], again[|again| - 1]);
    }
  }

  // ----- The program -----

  /** Looks at the process table. */
  method Observe() returns (t: Table)
  {
    t := *;
  }

  lemma {:induction false} NamesAreCaptured(owned: seq<Owned>, starts: seq<Table>)
    requires |starts| <= |owned|
    ensures forall o :: o in owned[..|starts|] ==> o.pid in StartTimes(owned, starts)
  {
    if starts != [] {
      var k := |starts| - 1;
      NamesAreCaptured(owned, starts[..k]);
      assert owned[..k + 1] == owned[..k] + [owned[k]];
    }
  }

  /** One more phase: it went through, or it broke the run. */
  lemma RoundsStep(owned: seq<Owned>, rounds: seq<Round>, round: Round, c: Capture, problem: Option<Stop>)
    returns (more: seq<Round>)
    requires FullRounds(owned, rounds, c) && |rounds| < 3 && (rounds != [] ==> Left(owned, rounds) != [])
    requires problem.None? ==> FullRound(Left(owned, rounds), round, c)
    requires problem.Some? ==> BrokenRound(Left(owned, rounds), round, c, problem.value) && !problem.value.Stopped?
    ensures more == rounds + [round]
    ensures AllSent(owned, more, c) == AllSent(owned, rounds, c) + RoundSent(|rounds|, Left(owned, rounds), round.looks, c)
    ensures Left(owned, more) == Survivors(Left(owned, rounds), round.checks)
    ensures problem.None? ==> FullRounds(owned, more, c)
    ensures problem.Some? ==> IsRun(owned, more, c, problem.value)
    ensures problem.None? && (|more| == 3 || Left(owned, more) == []) ==> IsRun(owned, more, c, Stopped(|Left(owned, more)|))
  {
    more := rounds + [round];
    assert more[..|rounds|] == rounds;
  }

  lemma LookStep(items: seq<Owned>, looks: seq<Look>, look: Look, c: Capture)
    requires |looks| < |items| && NoFailure(items, looks, c)
    ensures (looks + [look])[..|looks|] == looks
    ensures !StepOf(items[|looks|], look, c).Fail? ==> NoFailure(items, looks + [look], c)
  {
  }

  lemma OneMoreCheck(items: seq<Owned>, checks: seq<Table>, t: Table)
    requires |checks| < |items|
    ensures Survivors(items, checks + [t]) ==
      Survivors(items, checks) + if GroupAlive(t, items[|checks|].pid) then [items[|checks|]] else []
  {
    assert (checks + [t])[..|checks|] == checks;
  }

  /** The start time of each group was read. */
  predicate AllKnown(items: seq<Owned>, identities: map<int, Option<string>>) {
    forall o :: o in items ==> o.pid in identities
  }

  /** A run after some full phases, with something left. */
  ghost predicate GoesOn(owned: seq<Owned>, rounds: seq<Round>, c: Capture, phase: nat, remaining: seq<Owned>) {
    |rounds| == phase && FullRounds(owned, rounds, c) && remaining == Left(owned, rounds) && (phase > 0 ==> remaining != [])
  }

  /** A phase more: the run goes on, or it is over. */
  lemma NextPhase(owned: seq<Owned>, rounds: seq<Round>, round: Round, c: Capture, problem: Option<Stop>, phase: nat,
      remaining: seq<Owned>)
    returns (more: seq<Round>)
    requires phase < 3 && GoesOn(owned, rounds, c, phase, remaining)
    requires problem.None? ==> FullRound(remaining, round, c)
    requires problem.Some? ==> BrokenRound(remaining, round, c, problem.value) && !problem.value.Stopped?
    ensures AllSent(owned, more, c) == AllSent(owned, rounds, c) + RoundSent(phase, remaining, round.looks, c)
    ensures problem.Some? ==> IsRun(owned, more, c, problem.value)
    ensures var left := Survivors(remaining, round.checks);
      problem.None? ==>
        && (phase == 2 || left == [] ==> IsRun(owned, more, c, Stopped(|left|)))
        && (left != [] ==> GoesOn(owned, more, c, phase + 1, left))
  {
    more := RoundsStep(owned, rounds, round, c, problem);
  }

  lemma NoPhaseYet(owned: seq<Owned>, c: Capture)
    ensures GoesOn(owned, [], c, 0, owned) && AllSent(owned, [], c) == []
  {
  }

  class Stopper {
    const uid: int
    var sent: seq<Sent>
    /** The (session, role) records removed as stale. */
    var dropped: seq<(string, string)>

    constructor (uid: int)
      ensures this.uid == uid && sent == [] && dropped == []
    {
      this.uid := uid;
      sent, dropped := [], [];
    }

    /** One item of a phase. */
    method SignalGroup(phase: nat, item: Owned, identities: map<int, Option<string>>)
      returns (problem: Option<Stop>, ghost look: Look)
      requires item.pid in identities
      modifies this`sent
      ensures var step := StepOf(item, look, Capture(uid, identities));
        && sent == old(sent) + (if step.Send? then [Sent(phase, item.pid, step.leader)] else [])
        && problem == (if step.Fail? then Some(step.stop) else None)
    {
      var group := Observe();
      look := Look(group, map[], Delivered);
      if !GroupAlive(group, item.pid) { return None, look; }
      var now := Observe();
      var leader := ProcessInfo(now, item.pid);
      look := Look(group, now, Delivered);
      if leader.Some? && (leader.value.pgid != item.pid || leader.value.uid != uid
                          || Some(leader.value.startTicks) != identities[item.pid]) {
        return Some(Unverified(item.role, item.pid)), look;
      }
      var answer: Answer := *;
      look := Look(group, now, answer);
      match answer {
        case NoSuchProcess => return None, look;
        case Refused => return Some(SignalFailed), look;
        case Delivered =>
      }
      sent := sent + [Sent(phase, item.pid, leader)];
      return None, look;
    }

    /** One signal phase over the remaining groups. */
    method SignalPhase(phase: nat, items: seq<Owned>, identities: map<int, Option<string>>)
      returns (problem: Option<Stop>, ghost looks: seq<Look>)
      requires AllKnown(items, identities)
      modifies this`sent
      ensures sent == old(sent) + RoundSent(phase, items, looks, Capture(uid, identities))
      ensures problem.None? ==> |looks| == |items| && NoFailure(items, looks, Capture(uid, identities))
      ensures problem.Some? ==>
        BrokenRound(items, Round(looks, []), Capture(uid, identities), problem.value) && !problem.value.Stopped?
    {
      ghost var c := Capture(uid, identities);
      looks := [];
      for i := 0 to |items|
        invariant |looks| == i && NoFailure(items, looks, c)
        invariant sent == old(sent) + RoundSent(phase, items, looks, c)
      {
        ghost var look;
        problem, look := SignalGroup(phase, items[i], identities);
        LookStep(items, looks, look, c);
        looks := looks + [look];
        if problem.Some? { return; }
      }
      return None, looks;
    }

    /** Keeps the items whose group is alive, looking again for each. */
    method KeepAlive(items: seq<Owned>) returns (remaining: seq<Owned>, ghost checks: seq<Table>)
      ensures |checks| == |items| && remaining == Survivors(items, checks)
    {
      remaining, checks := [], [];
      for i := 0 to |items|
        invariant |checks| == i && remaining == Survivors(items, checks)
      {
        var t := Observe();
        OneMoreCheck(items, checks, t);
        checks := checks + [t];
        if GroupAlive(t, items[i].pid) { remaining := remaining + [items[i]]; }
      }
    }

    /** Waits while a group is alive, until the phase's time is over. */
    method Wait(items: seq<Owned>)
    {
      var ticks: nat := *;
      var waiting := true;
      while ticks > 0 && waiting
      {
        var t := Observe();
        waiting := exists o :: o in items && GroupAlive(t, o.pid);
        ticks := ticks - 1;
      }
    }

    /** Reads the start time of each owned process, looking again for each. */
    method CaptureAll(owned: seq<Owned>) returns (identities: map<int, Option<string>>, ghost starts: seq<Table>)
      ensures |starts| == |owned| && identities == StartTimes(owned, starts)
    {
      identities, starts := map[], [];
      for i := 0 to |owned|
        invariant |starts| == i && identities == StartTimes(owned, starts)
      {
        var t := Observe();
        assert (starts + [t])[..i] == starts;
        identities := identities[owned[i].pid := StartOf(t, owned[i].pid)];
        starts := starts + [t];
      }
    }

    /** One phase: signal, wait, and keep what is still alive. */
    method Phase(phase: nat, items: seq<Owned>, identities: map<int, Option<string>>)
      returns (problem: Option<Stop>, remaining: seq<Owned>, ghost round: Round)
      requires AllKnown(items, identities)
      modifies this`sent
      ensures sent == old(sent) + RoundSent(phase, items, round.looks, Capture(uid, identities))
      ensures problem.None? ==> FullRound(items, round, Capture(uid, identities)) && remaining == Survivors(items, round.checks)
      ensures problem.Some? ==> BrokenRound(items, round, Capture(uid, identities), problem.value) && !problem.value.Stopped?
      ensures AllKnown(remaining, identities)
    {
      ghost var looks, checks;
      problem, looks := SignalPhase(phase, items, identities);
      if problem.Some? { return problem, items, Round(looks, []); }
      Wait(items);
      remaining, checks := KeepAlive(items);
      SurvivorsWereThere(items, checks, 0);
      round := Round(looks, checks);
    }

    /** stopGroups: the signals sent and the result are what the run's looks and checks make them. */
    method StopGroups(owned: seq<Owned>) returns (r: Stop, ghost rounds: seq<Round>, ghost starts: seq<Table>)
      modifies this`sent
      ensures |starts| == |owned|
      ensures IsRun(owned, rounds, Capture(uid, StartTimes(owned, starts)), r)
      ensures sent == old(sent) + AllSent(owned, rounds, Capture(uid, StartTimes(owned, starts)))
    {
      var identities;
      identities, starts := CaptureAll(owned);
      NamesAreCaptured(owned, starts);
      assert owned[..|starts|] == owned;
      r, rounds := RunPhases(owned, identities);
    }

    /** The three phases, in order, until nothing is left. */
    method RunPhases(owned: seq<Owned>, identities: map<int, Option<string>>) returns (r: Stop, ghost rounds: seq<Round>)
      requires AllKnown(owned, identities)
      modifies this`sent
      ensures IsRun(owned, rounds, Capture(uid, identities), r)
      ensures sent == old(sent) + AllSent(owned, rounds, Capture(uid, identities))
    {
      ghost var c := Capture(uid, identities);
      var remaining := owned;
      rounds := [];
      NoPhaseYet(owned, c);
      for phase := 0 to 3
        invariant GoesOn(owned, rounds, c, phase, remaining) && AllKnown(remaining, identities)
        invariant phase == 3 ==> IsRun(owned, rounds, c, Stopped(|remaining|))
        invariant sent == old(sent) + AllSent(owned, rounds, c)
      {
        var problem;
        ghost var round;
        ghost var items := remaining;
        problem, remaining, round := Phase(phase, remaining, identities);
        rounds := NextPhase(owned, rounds, round, c, problem, phase, items);
        if problem.Some? { return problem.value, rounds; }
        if remaining == [] { return Stopped(0), rounds; }
      }
      return Stopped(|remaining|), rounds;
    }

    /** Reads who listens on the port. */
    method Classify() returns (found: seq<Listener>)
    {
      found := *;
    }

    method DropStaleRecords(found: seq<Listener>)
      modifies this`dropped
      ensures dropped == old(dropped) + StaleRecords(found)
    {
      for i := 0 to |found|
        invariant dropped == old(dropped) + StaleRecords(found[..i])
      {
        var item := found[i];
        assert found[..i + 1][..i] == found[..i];
        if item.decision == DeadRecord && item.session.Some? && item.role.Some? {
          dropped := dropped + [(item.session.value, item.role.value)];
        }
      }
      assert found[..|found|] == found;
    }

    /** Looks again for each listener, and stops at the first that changed. */
    method ConfirmAll(live: seq<Listener>) returns (owned: Option<seq<Owned>>, ghost again: seq<seq<Listener>>)
      ensures |again| <= |live|
      ensures owned.Some? ==> |again| == |live| && owned.value == Targets(live, again)
      ensures forall k :: 0 <= k < (if owned.Some? then |again| else |again| - 1) ==> Confirmed(live[k], again[k]).Some?
      ensures owned.None? ==> again != [] && Confirmed(live[|again| - 1], again[|again| - 1]).None?
    {
      var targets: seq<Owned> := [];
      again := [];
      for i := 0 to |live|
        invariant |again| == i && targets == Targets(live, again) &&
          (forall k :: 0 <= k < i ==> Confirmed(live[k], again[k]).Some?)
      {
        var now := Classify();
        ghost var more := again + [now];
        assert more[..i] == again;
        again := more;
        var same := Confirmed(live[i], now);
        if same.None? { return None, again; }
        targets := targets + [Owned(if live[i].role.Some? then live[i].role.value else "service", same.value)];
      }
      return Some(targets), again;
    }

    /**
     * The cleanup-port action: groups are stopped only when each listener, apart from stale records,
     * was classified stale and then found unchanged and stale again.
     */
    method CleanupPort(noClean: bool) returns (r: Release, ghost first: seq<Listener>, ghost again: seq<seq<Listener>>,
      ghost rounds: seq<Round>, ghost starts: seq<Table>)
      modifies this`sent, this`dropped
      ensures dropped == old(dropped) + (if r == AlreadyFree then [] else StaleRecords(first))
      ensures r == AlreadyFree ==> first == []
      ensures r.Protected? <==> r != AlreadyFree && ProtectedOf(Live(first), noClean) != []
      ensures r.Protected? ==> r.listeners == ProtectedOf(Live(first), noClean)
      ensures r.Changed? ==>
        |again| <= |Live(first)| && again != [] && Confirmed(Live(first)[|again| - 1], again[|again| - 1]).None?
      ensures r.Ended? <==> r != AlreadyFree && MayStop(first, again, noClean)
      ensures r.Ended? ==>
        && var owned := Targets(Live(first), again); var c := Capture(uid, StartTimes(owned, starts));
        && IsRun(owned, rounds, c, r.stop) && sent == old(sent) + AllSent(owned, rounds, c)
        && (r.released ==> r.stop == Stopped(0))
      ensures !r.Ended? ==> sent == old(sent)
    {
      first, again, rounds, starts := [], [], [], [];
      var decisions := Classify();
      first := decisions;
      var free: bool := *;
      if decisions == [] && free { return AlreadyFree, first, again, rounds, starts; }
      DropStaleRecords(decisions);
      var live := Live(decisions);
      var protectedOnes := ProtectedOf(live, noClean);
      if protectedOnes != [] { return Protected(protectedOnes), first, again, rounds, starts; }
      NothingProtected(live, noClean);
      var owned;
      owned, again := ConfirmAll(live);
      if owned.None? { return Changed, first, again, rounds, starts; }
      var stop;
      stop, rounds, starts := StopGroups(owned.value);
      free := *;
      return Ended(stop, stop == Stopped(0) && free), first, again, rounds, starts;
    }
  }
}
