/**
 * Restoring a backup (apps/api/src/backup-cli.ts) over the guarded file swap of
 * apps/api/src/domains/restore-transaction.ts, with its recovery history. Anything outside the
 * model may fail at any step.
 */
module Restore {
  import opened Wrappers

  /** A database file; acceptable means every check made of a restored database passes. */
  datatype Content = Content(bytes: string, acceptable: bool)

  datatype Event = Requested | Denied | Started | CompletedEvent | RolledBackEvent | FailedEvent

  datatype SwapOutcome = Committed | RolledBack | Unchanged | RecoveryRequired

  /** How a restore ends. */
  datatype End = Completed | Refused | Failed | NeedsRecovery

  /** What the operator is told: nothing wrong, rolled back, recovery required, or any other error. */
  datatype Message = Success | RolledBackMessage | RecoveryMessage | OtherMessage

  /** The verdict a failure is recorded with. */
  function Verdict(started: bool, swap: Option<SwapOutcome>): Event {
    if !started then Denied else if swap == Some(RolledBack) then RolledBackEvent else FailedEvent
  }

  /** The error raised for a swap that did not commit. */
  function SwapMessage(outcome: SwapOutcome): Message {
    match outcome
    case Committed => Success
    case RecoveryRequired => RecoveryMessage
    case _ => RolledBackMessage
  }

  /** What a crash would leave at the database path and as the rollback copy. */
  datatype Files = Files(active: Option<Content>, rollback: Option<Content>)

  predicate KeptIn(f: Files, c: Content) {
    f.active == Some(c) || f.rollback == Some(c)
  }

  /** Every moment from the given one on keeps a file. */
  ghost predicate KeptSince(trace: seq<Files>, start: nat, c: Content) {
    forall k :: start <= k < |trace| ==> KeptIn(trace[k], c)
  }

  /** Every moment from the given one on keeps the prior file, or already has the checked new one in its place. */
  ghost predicate NeverWithout(trace: seq<Files>, start: nat, prior: Content, next: Content) {
    forall k :: start <= k < |trace| ==> KeptIn(trace[k], prior) || (trace[k].active == Some(next) && next.acceptable)
  }

  class Restoration {
    /** The database path, the prepared candidate, the rollback copy, and the rejected files moved aside. */
    var active: Option<Content>
    var candidate: Option<Content>
    var rollback: Option<Content>
    var rejected: seq<Content>

    /** The moments at which the process could die: one after each change at the database path or of the rollback copy. */
    ghost var trace: seq<Files>

    /** The recovery history; writing to it may be impossible, which no command depends on. */
    var history: seq<Event>
    const logWorks: bool

    /** Nothing outside the model fails. */
    const calm: bool

    constructor (active: Option<Content>, logWorks: bool, calm: bool)
      ensures this.active == active && candidate == None && rollback == None && rejected == []
      ensures history == [] && trace == [] && this.logWorks == logWorks && this.calm == calm
    {
      this.active, candidate, rollback, rejected := active, None, None, [];
      history, trace := [], [];
      this.logWorks := logWorks;
      this.calm := calm;
    }

    /** Success or failure of something outside the model. */
    method Environment() returns (ok: bool)
      ensures calm ==> ok
    {
      ok := *;
      ok := ok || calm;
    }

    /** A change has been made that outlives the process. */
    ghost method Note()
      modifies this`trace
      ensures trace == old(trace) + [Files(active, rollback)]
    {
      trace := trace + [Files(active, rollback)];
    }

    // ---------- the swap ----------

    /** Some copy of the given database is at the database path or kept as the rollback copy. */
    ghost predicate Keeps(c: Content)
      reads this
    {
      active == Some(c) || rollback == Some(c)
    }

    /** The given file is at the database path, or was moved aside from there since `before`. */
    ghost predicate Displaced(c: Content, before: seq<Content>)
      reads this
    {
      active == Some(c) || rejected == before + [c]
    }

    /** restorePriorActive: puts the rollback copy back, moving whatever is in its place aside. */
    method RestorePriorActive() returns (ok: bool)
      requires rollback.Some?
      modifies this`active, this`rollback, this`rejected, this`trace
      ensures ok ==> active == old(rollback)
      ensures Keeps(old(rollback).value)
      ensures !ok && old(active).Some? ==> Displaced(old(active).value, old(rejected))
      ensures old(active).None? ==> rejected == old(rejected) && active in {None, old(rollback)}
      ensures old(rejected) <= rejected
      ensures calm ==> ok && rollback.None? && rejected == old(rejected)
      ensures old(trace) <= trace && KeptSince(trace, |old(trace)|, old(rollback).value)
    {
      var parked := false;
      if active.Some? {
        ok := Environment();                    // rename active aside
        if !ok { return; }
        rejected, active, parked := rejected + [active.value], None, true;
        Note();
        var _ := Environment();                 // syncing the directory may fail here without harm
      }
      ok := Environment();                      // rename rollback to active
      if !ok {
        if parked {
          var back := Environment();            // rename it back
          if back { active, rejected := Some(rejected[|rejected| - 1]), rejected[..|rejected| - 1]; }
          Note();
        }
        return;
      }
      active, rollback := rollback, None;
      Note();
      ok := Environment();                      // sync the directory
      if !ok { return; }
      ok := Environment();                      // reopen
      if !ok { return; }
      if parked {
        var removed := Environment();
        if removed { rejected := rejected[..|rejected| - 1]; }
      }
    }

    /** What a swap that failed after the candidate was moved ends with. */
    method SwapBack() returns (outcome: SwapOutcome)
      requires rollback.Some?
      modifies this`active, this`rollback, this`rejected, this`trace
      ensures outcome == RolledBack || outcome == RecoveryRequired
      ensures outcome == RolledBack ==> active == old(rollback)
      ensures Keeps(old(rollback).value)
      ensures outcome == RecoveryRequired && old(active).Some? ==> Displaced(old(active).value, old(rejected))
      ensures old(active).None? ==> rejected == old(rejected) && active in {None, old(rollback)}
      ensures old(rejected) <= rejected
      ensures calm ==> outcome == RolledBack && rollback.None? && rejected == old(rejected)
      ensures old(trace) <= trace && KeptSince(trace, |old(trace)|, old(rollback).value)
    {
      var ok := RestorePriorActive();
      return if ok then RolledBack else RecoveryRequired;
    }

    /** The caller's checks on the file now at the database path. */
    method AfterSwap() returns (ok: bool)
      requires active.Some?
      ensures ok ==> active.value.acceptable
      ensures calm ==> ok == active.value.acceptable
    {
      var reopened := Environment();
      return reopened && active.value.acceptable;
    }

    /** Reopens the new file, runs the caller's checks, and syncs it. */
    method CheckInstalled() returns (ok: bool)
      requires active.Some?
      ensures ok ==> active.value.acceptable
      ensures calm ==> ok == active.value.acceptable
    {
      ok := Environment();                      // reopen
      if ok { ok := AfterSwap(); }
      if ok { ok := Environment(); }            // sync active and its directory
    }

    /**
     * performRestoreSwap: the prior database is replaced only by a checked one, and otherwise is
     * still there, at its path or, if recovery is required, possibly as the rollback copy.
     */
    method PerformRestoreSwap() returns (outcome: SwapOutcome, ghost placed: bool)
      requires active.Some? && candidate.Some? && rollback.None?
      modifies this`active, this`candidate, this`rollback, this`rejected, this`trace
      ensures outcome == Committed ==> active == old(candidate) && active.value.acceptable
      ensures outcome == RolledBack || outcome == Unchanged ==> active == old(active)
      ensures outcome == RecoveryRequired ==> Keeps(old(active).value)
      ensures placed <==> candidate.None?
      ensures candidate in {None, old(candidate)}
      ensures outcome == RecoveryRequired && placed ==> Displaced(old(candidate).value, old(rejected))
      ensures outcome == RecoveryRequired && !placed ==> rejected == old(rejected) && active in {None, old(active)}
      ensures outcome == Unchanged ==> !placed && rejected == old(rejected)
      ensures old(rejected) <= rejected
      ensures calm ==>
        && outcome == (if old(candidate).value.acceptable then Committed else RolledBack)
        && rollback.None? && rejected == old(rejected)
      ensures old(trace) <= trace
      ensures if outcome == Committed then NeverWithout(trace, |old(trace)|, old(active).value, old(candidate).value)
              else KeptSince(trace, |old(trace)|, old(active).value)
    {
      placed := false;
      var ok := Environment();                  // sync candidate and its directory
      if !ok { return Unchanged, placed; }
      ok := Environment();                      // close
      if !ok { return Unchanged, placed; }
      var moved := Environment();               // sync active, rename it to rollback
      if moved {
        active, rollback := None, active;
        Note();
      }
      ok := Environment();                      // sync the directory
      if !moved || !ok {
        if rollback.Some? && active.None? {
          var restored := RestorePriorActive();
          return if restored then Unchanged else RecoveryRequired, placed;
        }
        return Unchanged, placed;
      }
      moved := Environment();                   // rename candidate to active
      if moved {
        active, candidate, placed := candidate, None, true;
        Note();
      }
      ok := Environment();                      // sync the directories
      if !moved || !ok {
        outcome := SwapBack();
        return;
      }
      ok := CheckInstalled();
      if !ok {
        outcome := SwapBack();
        return;
      }
      var removed := Environment();             // an extra rollback copy is kept rather than failing
      if removed {
        rollback := None;
        Note();
      }
      return Committed, placed;
    }

    // ---------- the restore ----------

    /** recordRestoreEvent: a failing log is reported and otherwise ignored. */
    method Record(e: Event)
      modifies this`history
      ensures logWorks ==> history == old(history) + [e]
    {
      var written := Environment();
      if logWorks || written { history := history + [e]; }
    }

    /** recordRestoreFailure */
    method RecordFailure(started: bool, swap: Option<SwapOutcome>)
      modifies this`history
      ensures logWorks ==> history == old(history) + [Verdict(started, swap)]
    {
      Record(Verdict(started, swap));
    }

    /** Everything before the restore starts: selection, verification, the candidate and the safety copy. */
    method Prepare(next: Content) returns (ok: bool, safety: bool)
      modifies this`candidate
      ensures ok ==> candidate == Some(next) && next.acceptable && safety == active.Some?
      ensures candidate in {old(candidate), Some(next)}
      ensures rollback.Some? ==> !ok && candidate == old(candidate)
      ensures calm && rollback.None? ==> ok == next.acceptable
    {
      safety := false;
      if rollback.Some? { return false, false; }  // an earlier restore left its rollback copy
      ok := Environment();                      // configuration, file selection, decryption
      if !ok { return; }
      candidate := Some(next);
      if !next.acceptable { return false, false; }
      ok := Environment();                      // revoke sessions
      if !ok { return; }
      safety := active.Some?;
      ok := Environment();                      // publish the safety copy, install attachments
    }

    /** With no prior database: link the candidate into place, check it there, or take it away again. */
    method InstallFirst() returns (end: End)
      requires active.None? && candidate.Some?
      modifies this`active, this`trace
      ensures end == Completed ==> active == candidate && active.value.acceptable
      ensures end == Failed ==> active.None?
      ensures end == NeedsRecovery ==> active in {None, candidate}
      ensures end in {Completed, Failed, NeedsRecovery}
      ensures calm ==> end == if candidate.value.acceptable then Completed else Failed
      ensures old(trace) <= trace && forall k :: |old(trace)| <= k < |trace| ==> trace[k].active in {None, candidate}
    {
      var ok := Environment();                  // sync the candidate, link it
      if !ok { return Failed; }
      active := candidate;
      Note();
      ok := Environment();                      // sync the directory
      if ok { ok := AfterSwap(); }
      if ok { return Completed; }
      var removed := Environment();
      if !removed { return NeedsRecovery; }
      active := None;
      Note();
      var synced := Environment();
      return if synced then Failed else NeedsRecovery;
    }

    /** The events one restore adds to a working history. */
    static ghost predicate Trail(events: seq<Event>, end: End) {
      match end
      case Refused => events == [Requested, Denied]
      case Completed => events == [Requested, Started, CompletedEvent]
      case _ => events == [Requested, Started, FailedEvent] || (end == Failed && events == [Requested, Started, RolledBackEvent])
    }

    /** The replacement itself, between the start and the verdict. */
    method Replace(safety: bool) returns (end: End, message: Message, swap: Option<SwapOutcome>, ghost placed: bool)
      requires candidate.Some? && rollback.None? && safety == active.Some?
      modifies this`active, this`candidate, this`rollback, this`rejected, this`trace
      ensures swap.Some? <==> safety
      ensures message == if swap.Some? then SwapMessage(swap.value) else if end == Completed then Success
                         else if end == NeedsRecovery then RecoveryMessage else OtherMessage
      ensures swap.Some? ==>
        end == match swap.value case Committed => Completed case RecoveryRequired => NeedsRecovery case _ => Failed
      ensures end != Refused && candidate in {None, old(candidate)}
      ensures end == Failed ==> active == old(active)
      ensures end == Completed ==> active == old(candidate) && active.value.acceptable
      ensures end == NeedsRecovery && safety ==> Keeps(old(active).value)
      ensures end == NeedsRecovery && safety && placed ==> Displaced(old(candidate).value, old(rejected))
      ensures end == NeedsRecovery && safety && !placed ==> rejected == old(rejected) && active in {None, old(active)}
      ensures end == NeedsRecovery && !safety ==> active in {None, old(candidate)}
      ensures calm ==>
        && end == (if old(candidate).value.acceptable then Completed else Failed)
        && rollback.None? && rejected == old(rejected)
      ensures old(trace) <= trace
      ensures safety ==> if end == Completed then NeverWithout(trace, |old(trace)|, old(active).value, old(candidate).value)
                         else KeptSince(trace, |old(trace)|, old(active).value)
      ensures !safety ==> forall k :: |old(trace)| <= k < |trace| ==> trace[k].active in {None, old(candidate)}
    {
      swap, placed := None, false;
      if safety {
        var outcome;
        outcome, placed := PerformRestoreSwap();
        swap := Some(outcome);
        end := if outcome == Committed then Completed else if outcome == RecoveryRequired then NeedsRecovery else Failed;
        message := SwapMessage(outcome);
      } else {
        end := InstallFirst();
        message := if end == Completed then Success else if end == NeedsRecovery then RecoveryMessage else OtherMessage;
      }
    }

    /**
     * restore, for a configured backup directory. A working history shows the request and then
     * exactly one verdict, with the start between them unless the restore was refused; a refused
     * restore never touches the active database, a completed one leaves a checked database, and a
     * failed one leaves what was there before unless recovery is required. The candidate's
     * directory is removed at the end, so after a failure the new database survives only where it
     * was put before the rollback failed. Should the process die, the prior database is still at
     * its path or kept as the rollback copy, unless the checked new one has taken its place. The
     * operator is told of a rollback that the history does not record exactly when the swap had
     * changed nothing. While a rollback copy is there every restore is refused.
     * When nothing outside fails, an acceptable candidate is installed and nothing is left beside it.
     */
    method Run(next: Content)
      returns (end: End, message: Message, swap: Option<SwapOutcome>, ghost placed: bool, ghost cleaned: bool)
      requires candidate.None?
      modifies this
      ensures logWorks ==> exists events :: history == old(history) + events && Trail(events, end)
      ensures logWorks && swap.Some? && end != Completed ==> history != [] && history[|history| - 1] == Verdict(true, swap)
      ensures message == if !cleaned then OtherMessage else match end
        case Completed => Success
        case NeedsRecovery => RecoveryMessage
        case Failed => if swap.Some? then RolledBackMessage else OtherMessage
        case Refused => OtherMessage
      ensures calm ==> cleaned
      ensures logWorks && swap.Some? && message != OtherMessage ==>
        (message == RolledBackMessage && history[|history| - 1] != RolledBackEvent <==> swap == Some(Unchanged))
      ensures end in {Refused, Failed} ==> active == old(active)
      ensures end == Completed ==> active == Some(next) && next.acceptable
      ensures end == NeedsRecovery && old(active).Some? ==> Keeps(old(active).value)
      ensures end == NeedsRecovery && old(active).Some? && placed ==> Displaced(next, old(rejected))
      ensures end == NeedsRecovery && old(active).Some? && !placed ==> rejected == old(rejected) && active in {None, old(active)}
      ensures end == NeedsRecovery && old(active).Some? && old(active) != Some(next) ==>
        (Displaced(next, old(rejected)) <==> placed)
      ensures end == NeedsRecovery && old(active).None? ==> active in {None, Some(next)}
      ensures candidate in {None, Some(next)}
      ensures old(rollback).Some? ==> end == Refused && rollback == old(rollback) && rejected == old(rejected)
      ensures cleaned ==> candidate.None?
      ensures old(trace) <= trace
      ensures old(active).Some? ==> if end == Completed then NeverWithout(trace, |old(trace)|, old(active).value, next)
                                    else KeptSince(trace, |old(trace)|, old(active).value)
      ensures old(active).None? ==> forall k :: |old(trace)| <= k < |trace| ==> trace[k].active in {None, Some(next)}
      ensures calm && old(rollback).None? ==>
        && end == (if next.acceptable then Completed else Refused)
        && candidate.None? && rollback.None? && rejected == old(rejected)
    {
      ghost var before := history;
      swap, placed, cleaned := None, false, false;
      Record(Requested);
      var ok, safety := Prepare(next);
      if ok {
        Record(Started);
        assert logWorks ==> history == before + [Requested, Started];
        end, message, swap, placed := Replace(safety);
        if end == Completed {
          Record(CompletedEvent);
          assert logWorks ==> history == before + [Requested, Started, CompletedEvent];
        } else {
          RecordFailure(true, swap);
          assert logWorks ==> history == before + [Requested, Started, Verdict(true, swap)];
        }
      } else {
        end, message := Refused, OtherMessage;
        RecordFailure(false, swap);
        assert logWorks ==> history == before + [Requested, Denied];
      }
      var removed := Environment();             // remove the candidate's directory
      cleaned := removed;
      if removed { candidate := None; } else { message := OtherMessage; }
    }
  }
}
