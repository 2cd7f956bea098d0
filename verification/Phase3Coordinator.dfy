/** The apply, rollback and recovery coordinator (src/phase3/applyCoordinator.ts). */
module Phase3Coordinator {
  import opened Wrappers
  import opened Phase3Contracts
  import opened Phase3World

  /** src/phase3/applyCoordinator.ts:959-968 */
  predicate ShouldRequireRollbackReload(r: Record, cause: Cause) {
    if r.identity.reloadTarget.None? then false
    else if r.rollbackReloadRequired then true
    else if r.state.ReloadSucceeded? then true
    else if !r.state.ReloadIntent? then false
    else ReloadMayHaveStarted(cause)
  }

  /** The string that recovery passes where a thrown value is expected (src/phase3/applyCoordinator.ts:570). */
  const STARTUP_CAUSE := PlainError(NonError(false), OwnMessage)

  const MISMATCH := PlainError(CoordinatorError(CheckpointDigestMismatch), OwnMessage)

  function CheckpointOr(cause: Cause, stage: FailureStage): FailureStage {
    if cause.kind == CoordinatorError(CheckpointDigestMismatch) then CheckpointStage else stage
  }

  datatype Disposition = Verified | RolledBack | ManualAttention

  datatype RecoveryResult = RecoveryResult(record: Record, observed: DigestClass, disposition: Disposition)

  function DispositionFor(r: Record): Disposition {
    if r.state.VerificationSucceeded? then Verified
    else if r.state.RollbackVerificationSucceeded? then RolledBack
    else ManualAttention
  }

  /** What the journal would note about the cause of a rollback. */
  function FailureOf(cause: Cause): StructuredFailure {
    StructuredFailure(RollbackStage, ErrorCode(cause), cause.message, None, None)
  }

  /** The cause can be noted: the schema limits the length of foreign codes and texts. */
  predicate CauseOk(cause: Cause) {
    FailureOk(FailureOf(cause))
  }

  /** The states from which the coordinator may start a rollback. */
  predicate BeforeRollback(s: State) {
    Rank(s) <= 4
  }

  /** Whether completing the rollback of this record involves a reload. */
  predicate ReloadDue(record: Record) {
    record.rollbackReloadRequired && !record.state.RollbackReloadSucceeded?
  }

  /** Whether rolling back from this record because of this cause involves a reload. */
  predicate RollbackReloadDue(record: Record, cause: Cause) {
    if BeforeRollback(record.state) then ShouldRequireRollbackReload(record, cause)
    else ReloadDue(record)
  }

  /**
   Where recovery does not do what the recovery table names: it reloads for a rollback under way whose flag is
   set, and does not for a transaction without a reload target that counts as reloaded.
   */
  predicate TableDeparts(r: Record) {
    || ((r.state.RollbackIntent? || r.state.RollbackCommitted?) && r.rollbackReloadRequired)
    || (r.state.ReloadSucceeded? && r.identity.reloadTarget.None?)
  }

  /** The reloads of recovery are those that the table names, except exactly where it departs from the table. */
  lemma DepartureIsExact(h: seq<Record>, d: DigestClass)
    requires ValidHistory(h) && h != []
    ensures var r := Last(h);
            !IsTerminal(r.state) && !RecoveryTable(r.state, d).ManualRequired? ==>
              ((if RollbackReloadDue(r, STARTUP_CAUSE) then 1 else 0) == NamedReloads(RecoveryTable(r.state, d), r)
               <==> !TableDeparts(r))
  {
    HistoryWellFormed(h, |h| - 1);
  }

  class Coordinator {
    const w: World

    constructor (w: World)
      ensures this.w == w
    {
      this.w := w;
    }

    // ----- Journal steps -----

    /** Where a step that the contracts allow would lead, if the record is still the latest one. */
    ghost predicate MayMove(record: Record, state: State, patch: Patch)
      reads w
    {
      w.Fresh(record) ==>
        && Allowed(record, state, patch)
        && (w.exclusive ==>
              && LiveAgrees(NextRecord(record, state, patch, 0), w.live)
              && LoadedAgrees(NextRecord(record, state, patch, 0), w.loaded, w.before))
    }

    /** Asks the journal for a transition that the contracts allow. */
    method Move(record: Record, state: State, patch: Patch) returns (r: Attempt<Record, Cause>)
      requires w.Valid() && w.Known(record) && MayMove(record, state, patch)
      modifies w`history, w`refused
      ensures w.Valid() && old(w.history) <= w.history
      ensures r.Done? ==> w.Fresh(r.value) && r.value == NextRecord(record, state, patch, r.value.updatedAt)
      ensures !r.Done? ==> w.Known(record)
      ensures r.Threw? ==> r.error.stage.None? && r.error.dispatch.None?
      ensures r.Threw? && ErrorCode(r.error) == CasConflict ==> !old(w.Fresh(record)) && w.history == old(w.history)
      ensures w.faultFree && old(w.Fresh(record)) && PatchOk(patch) ==> r.Done?
      ensures old(w.Fresh(record)) && !PatchOk(patch) ==> r == Threw(REJECTED) && w.history == old(w.history)
    {
      ghost var before := w.history;
      assert Last(before).version == |before| - 1;
      r := w.Transition(record.version, state, patch);
      if w.history != before {
        AppendedValid(before, w.history, record.version, state, patch);
      }
    }

    /** The latest record of the same transaction (src/phase3/applyCoordinator.ts:819-825). */
    method Reread(record: Record) returns (r: Attempt<Record, Cause>)
      requires w.Valid() && w.Known(record)
      ensures r.Done? ==> w.Fresh(r.value) && r.value.identity == record.identity
      ensures w.faultFree ==> r.Done?
    {
      r := w.LoadLatest();
      if r.Done? {
        HistoryWellFormed(w.history, r.value.version);
        HistoryWellFormed(w.history, record.version);
        if r.value.identity != record.identity {
          assert false;
        }
      }
    }

    /** src/phase3/applyCoordinator.ts:792-832 */
    method Manual(record: Record, stage: FailureStage, code: Code, message: Message, status: Option<CommitStatus>,
                  observed: Option<Digest>)
      returns (r: Attempt<Record, Cause>)
      requires w.Valid() && w.Known(record)
      modifies w`history, w`refused
      ensures w.Valid() && old(w.history) <= w.history
      ensures r.Done? ==> w.Fresh(r.value) && IsTerminal(r.value.state) && r.value.identity == record.identity
      ensures r.Done? && old(w.Fresh(record)) && !IsTerminal(record.state) ==> r.value.state.ManualRecoveryRequired?
      ensures w.faultFree && old(w.Fresh(record)) && !IsTerminal(record.state)
              && FailureOk(StructuredFailure(stage, code, message, status, observed))
              ==> r.Done? && r.value.state.ManualRecoveryRequired?
      ensures old(w.Fresh(record)) && !IsTerminal(record.state)
              && !FailureOk(StructuredFailure(stage, code, message, status, observed))
              ==> r == Threw(REJECTED) && w.history == old(w.history)
    {
      var patch := Patch(Some(StructuredFailure(stage, code, message, status, observed)), false);
      var current := record;
      var attempt := 0;
      while attempt < 4
        invariant 0 <= attempt <= 1 && w.Valid() && w.Known(current) && old(w.history) <= w.history
        invariant attempt == 0 ==> current == record && w.history == old(w.history)
        invariant attempt == 1 ==> w.Fresh(current) && !old(w.Fresh(record))
      {
        HistoryWellFormed(w.history, current.version);
        HistoryWellFormed(w.history, record.version);
        if IsTerminal(current.state) {
          TerminalIsLast(w.history, current.version);
          return Done(current);
        }
        var moved := Move(current, ManualRecoveryRequired, patch);
        match moved {
          case Done(next) => return Done(next);
          case Crashed => return Crashed;
          case Threw(cause) =>
            if ErrorCode(cause) != CasConflict {
              return Threw(cause);
            }
            current :- Reread(record);
        }
        attempt := attempt + 1;
      }
      assert false;
    }

    // ----- Rollback -----

    /** The durable record, and the checkpoint is the live file if nobody else edits it. */
    ghost predicate CheckpointLive(record: Record)
      reads w
    {
      w.Fresh(record) && (w.exclusive || w.faultFree ==> w.live == Some(record.identity.expectedSha256))
    }

    /** src/phase3/applyCoordinator.ts:684-706 */
    method CompleteRollbackReload(record: Record) returns (r: Attempt<Record, Cause>)
      requires w.Valid() && CheckpointLive(record) && record.state.RollbackValidationSucceeded? && record.rollbackReloadRequired
      modifies w`live, w`history, w`refused, w`loaded, w`reloads
      ensures w.Valid() && old(w.history) <= w.history && (w.exclusive || w.faultFree ==> w.live == old(w.live))
      ensures r.Done? ==> w.Fresh(r.value) && r.value.identity == record.identity
      ensures r.Done? ==> r.value.state.RollbackReloadSucceeded? || r.value.state.ManualRecoveryRequired?
      ensures w.faultFree ==> r.Done? && r.value.state.RollbackReloadSucceeded? && w.reloads == old(w.reloads) + 1
    {
      HistoryWellFormed(w.history, record.version);
      var current :- Move(record, RollbackReloadIntent, NO_PATCH);
      var reload := w.ReloadDomain(record.identity.reloadTarget.value);
      match reload {
        case Crashed => return Crashed;
        case Threw(cause) =>
          r := Manual(current, ReloadStage, ErrorCode(cause), cause.message, None, None);
        case Done(_) =>
          r := Move(current, RollbackReloadSucceeded, NO_PATCH);
      }
    }

    /** src/phase3/applyCoordinator.ts:660-669 */
    method VerifyCheckpoint(record: Record) returns (r: Attempt<Record, Cause>)
      requires w.Valid() && CheckpointLive(record)
      requires record.state.RollbackReloadSucceeded? || (record.state.RollbackValidationSucceeded? && !record.rollbackReloadRequired)
      modifies w`live, w`history, w`refused, w`illegalVerifications
      ensures w.Valid() && old(w.history) <= w.history
      ensures r.Done? ==> w.Fresh(r.value) && r.value.state.RollbackVerificationSucceeded? && r.value.identity == record.identity
      ensures w.faultFree ==> r.Done?
    {
      HistoryWellFormed(w.history, record.version);
      var _ :- w.Verify(record, false);
      r := Move(record, RollbackVerificationSucceeded, NO_PATCH);
    }

    /** src/phase3/applyCoordinator.ts:643-653 */
    method ValidateCheckpoint(record: Record) returns (r: Attempt<Record, Cause>)
      requires w.Valid() && CheckpointLive(record) && record.state.RollbackCommitted?
      modifies w`history, w`refused
      ensures w.Valid() && old(w.history) <= w.history
      ensures r.Done? ==> CheckpointLive(r.value) && r.value.identity == record.identity
      ensures r.Done? ==> r.value.state.RollbackValidationSucceeded? && ReloadDue(r.value) == ReloadDue(record)
      ensures !r.Done? ==> w.Known(record)
      ensures w.faultFree ==> r.Done?
    {
      HistoryWellFormed(w.history, record.version);
      var validated := w.Call();
      if !validated.Done? {
        return validated.PropagateFailure();
      }
      r := Move(record, RollbackValidationSucceeded, NO_PATCH);
    }

    /** How far the rollback of a validated checkpoint got before something was thrown. */
    method TryCompleteValidation(record: Record, checkpoint: Digest) returns (r: Attempt<Record, Cause>, current: Record)
      requires w.Valid() && CheckpointLive(record)
      requires record.state in {RollbackCommitted, RollbackValidationSucceeded, RollbackReloadSucceeded}
      modifies w`live, w`history, w`refused, w`loaded, w`reloads, w`illegalVerifications
      ensures w.Valid() && old(w.history) <= w.history && w.Known(current)
      ensures r.Done? ==> w.Fresh(r.value) && IsTerminal(r.value.state) && r.value.identity == record.identity
      ensures w.faultFree && checkpoint == record.identity.checkpointSha256 ==>
        && r.Done? && r.value.state.RollbackVerificationSucceeded?
        && w.reloads == old(w.reloads) + (if ReloadDue(record) then 1 else 0)
    {
      current := record;
      HistoryWellFormed(w.history, record.version);
      if checkpoint != record.identity.checkpointSha256 {
        return Threw(MISMATCH), current;
      }
      if current.state.RollbackCommitted? {
        var validated := ValidateCheckpoint(current);
        if !validated.Done? {
          return validated, current;
        }
        current := validated.value;
      }
      if current.state.RollbackValidationSucceeded? && current.rollbackReloadRequired && current.identity.reloadTarget.Some? {
        var reloaded := CompleteRollbackReload(current);
        if !reloaded.Done? {
          return reloaded, current;
        }
        current := reloaded.value;
      }
      if current.state.RollbackValidationSucceeded? || current.state.RollbackReloadSucceeded? {
        r := VerifyCheckpoint(current);
      } else {
        r := Done(current);
      }
    }

    /** src/phase3/applyCoordinator.ts:635-682 */
    method CompleteRollbackValidationWithCheckpoint(record: Record, checkpoint: Digest) returns (r: Attempt<Record, Cause>)
      requires w.Valid() && CheckpointLive(record)
      requires record.state in {RollbackCommitted, RollbackValidationSucceeded, RollbackReloadSucceeded}
      modifies w`live, w`history, w`refused, w`loaded, w`reloads, w`illegalVerifications
      ensures w.Valid() && old(w.history) <= w.history
      ensures r.Done? ==> w.Fresh(r.value) && IsTerminal(r.value.state) && r.value.identity == record.identity
      ensures w.faultFree && checkpoint == record.identity.checkpointSha256 ==>
        && r.Done? && r.value.state.RollbackVerificationSucceeded?
        && w.reloads == old(w.reloads) + (if ReloadDue(record) then 1 else 0)
    {
      var outcome, current := TryCompleteValidation(record, checkpoint);
      match outcome {
        case Done(_) => r := outcome;
        case Crashed => r := Crashed;
        case Threw(cause) =>
          KnownIdentity(w.history, record, current);
          r := Manual(current, CheckpointOr(cause, RollbackStage), ErrorCode(cause), cause.message, None, None);
      }
    }

    /** Notes the intention to roll back (src/phase3/applyCoordinator.ts:582-607). */
    method IntendRollback(record: Record) returns (r: Attempt<Record, Cause>)
      requires w.Valid() && CheckpointLive(record) && BeforeRollback(record.state)
      modifies w`history, w`refused
      ensures w.Valid() && old(w.history) <= w.history
      ensures r.Done? ==> CheckpointLive(r.value) && r.value.identity == record.identity && r.value.state.RollbackIntent?
      ensures r.Done? ==> r.value.rollbackReloadRequired == ShouldRequireRollbackReload(record, STARTUP_CAUSE)
      ensures !r.Done? ==> w.Known(record)
      ensures w.faultFree ==> r.Done?
    {
      HistoryWellFormed(w.history, record.version);
      var patch := Patch(Some(StructuredFailure(RecoveryStage, OwnCode, OwnMessage, None, None)),
                         ShouldRequireRollbackReload(record, STARTUP_CAUSE));
      r := Move(record, RollbackIntent, patch);
    }

    method CommitRollback(record: Record) returns (r: Attempt<Record, Cause>)
      requires w.Valid() && CheckpointLive(record) && record.state.RollbackIntent?
      modifies w`history, w`refused
      ensures w.Valid() && old(w.history) <= w.history
      ensures r.Done? ==> CheckpointLive(r.value) && r.value.identity == record.identity && r.value.state.RollbackCommitted?
      ensures r.Done? ==> r.value.rollbackReloadRequired == record.rollbackReloadRequired
      ensures !r.Done? ==> w.Known(record)
      ensures w.faultFree ==> r.Done?
    {
      HistoryWellFormed(w.history, record.version);
      r := Move(record, RollbackCommitted, NO_PATCH);
    }

    /** Brings the journal to rollback_committed, or leaves it further on (src/phase3/applyCoordinator.ts:582-609). */
    method EnterRollback(record: Record) returns (r: Attempt<Record, Cause>, current: Record)
      requires w.Valid() && CheckpointLive(record)
      requires !IsTerminal(record.state) && !record.state.RollbackReloadIntent?
      modifies w`history, w`refused
      ensures w.Valid() && old(w.history) <= w.history && w.Known(current)
      ensures r.Done? ==> r.value == current && CheckpointLive(current) && current.identity == record.identity
      ensures r.Done? ==> current.state in {RollbackCommitted, RollbackValidationSucceeded, RollbackReloadSucceeded}
      ensures r.Done? ==> ReloadDue(current) == RollbackReloadDue(record, STARTUP_CAUSE)
      ensures w.faultFree ==> r.Done?
    {
      current := record;
      HistoryWellFormed(w.history, record.version);
      if current.state !in {RollbackIntent, RollbackCommitted, RollbackValidationSucceeded, RollbackReloadSucceeded} {
        r := IntendRollback(current);
        if !r.Done? {
          return;
        }
        current := r.value;
      }
      if current.state.RollbackIntent? {
        r := CommitRollback(current);
        if !r.Done? {
          return;
        }
        current := r.value;
      }
      r := Done(current);
    }

    /** The part of completing a rollback that may throw (src/phase3/applyCoordinator.ts:581-621). */
    method TryCompleteRollback(record: Record) returns (r: Attempt<Record, Cause>, current: Record)
      requires w.Valid() && CheckpointLive(record)
      requires !IsTerminal(record.state) && !record.state.RollbackReloadIntent?
      modifies w`live, w`history, w`refused, w`loaded, w`reloads, w`illegalVerifications
      ensures w.Valid() && old(w.history) <= w.history && w.Known(current)
      ensures r.Done? ==> w.Fresh(r.value) && IsTerminal(r.value.state) && r.value.identity == record.identity
      ensures w.faultFree ==>
        && r.Done? && r.value.state.RollbackVerificationSucceeded?
        && w.reloads == old(w.reloads) + (if RollbackReloadDue(record, STARTUP_CAUSE) then 1 else 0)
    {
      r, current := EnterRollback(record);
      if !r.Done? {
        return;
      }
      var checkpoint := w.LoadBytes(current.identity.checkpointSha256);
      if !checkpoint.Done? {
        return checkpoint.PropagateFailure(), current;
      }
      if checkpoint.value != current.identity.checkpointSha256 {
        return Threw(MISMATCH), current;
      }
      r := CompleteRollbackValidationWithCheckpoint(current, checkpoint.value);
    }

    /** src/phase3/applyCoordinator.ts:576-633 */
    method CompleteRollbackValidation(record: Record) returns (r: Attempt<Record, Cause>)
      requires w.Valid() && CheckpointLive(record)
      requires !IsTerminal(record.state) && !record.state.RollbackReloadIntent?
      modifies w`live, w`history, w`refused, w`loaded, w`reloads, w`illegalVerifications
      ensures w.Valid() && old(w.history) <= w.history
      ensures r.Done? ==> w.Fresh(r.value) && IsTerminal(r.value.state) && r.value.identity == record.identity
      ensures w.faultFree ==>
        && r.Done? && r.value.state.RollbackVerificationSucceeded?
        && w.reloads == old(w.reloads) + (if RollbackReloadDue(record, STARTUP_CAUSE) then 1 else 0)
    {
      var outcome, current := TryCompleteRollback(record);
      match outcome {
        case Done(_) => r := outcome;
        case Crashed => r := Crashed;
        case Threw(cause) =>
          KnownIdentity(w.history, record, current);
          r := Manual(current, CheckpointOr(cause, RecoveryStage), ErrorCode(cause), cause.message, None, None);
      }
    }

    /** Puts the checkpoint back, or gives up to manual recovery (src/phase3/applyCoordinator.ts:433-475). */
    method SwapBack(record: Record, checkpoint: Digest) returns (r: Attempt<Record, Cause>)
      requires w.Valid() && w.Fresh(record) && record.state.RollbackIntent? && checkpoint == record.identity.checkpointSha256
      modifies w`live, w`history, w`refused, w`swaps
      ensures w.Valid() && old(w.history) <= w.history
      ensures r.Done? ==> w.Fresh(r.value) && r.value.identity == record.identity
      ensures r.Done? ==> r.value.state.ManualRecoveryRequired? || (r.value == record && CheckpointLive(record))
      ensures w.faultFree && old(w.live) == Some(record.identity.candidateSha256) ==>
        r == Done(record) && w.swaps == old(w.swaps) + 1
    {
      var replaced := w.Replace(record.identity.candidateSha256, checkpoint);
      if replaced.Crashed? {
        return Crashed;
      }
      var status := if replaced.Done? then replaced.value else StatusOf(replaced.error);
      if status.BeforeCommit? {
        r := Manual(record, RollbackStage, OwnCode, if replaced.Threw? then replaced.error.message else OwnMessage, None, None);
        return;
      }
      if status.CommitUnknown? {
        var digest :- w.ReadDigest();
        if digest != Some(record.identity.expectedSha256) && digest != Some(record.identity.checkpointSha256) {
          r := Manual(record, RollbackStage, OwnCode, OwnMessage, Some(CommitUnknown), digest);
          return;
        }
      }
      return Done(record);
    }

    /** src/phase3/applyCoordinator.ts:428-481 */
    method RestoreCheckpoint(record: Record, checkpoint: Digest) returns (r: Attempt<Record, Cause>)
      requires w.Valid() && w.Fresh(record) && record.state.RollbackIntent? && checkpoint == record.identity.checkpointSha256
      modifies w`live, w`history, w`refused, w`loaded, w`swaps, w`reloads, w`illegalVerifications
      ensures w.Valid() && old(w.history) <= w.history
      ensures r.Done? ==> w.Fresh(r.value) && IsTerminal(r.value.state) && r.value.identity == record.identity
      ensures w.faultFree && old(w.live) == Some(record.identity.candidateSha256) ==>
        && r.Done? && r.value.state.RollbackVerificationSucceeded? && w.swaps == old(w.swaps) + 1
        && w.reloads == old(w.reloads) + (if ReloadDue(record) then 1 else 0)
    {
      var swapped :- SwapBack(record, checkpoint);
      if swapped.state.ManualRecoveryRequired? {
        return Done(swapped);
      }
      var committed :- Move(record, RollbackCommitted, NO_PATCH);
      r := CompleteRollbackValidationWithCheckpoint(committed, checkpoint);
    }

    /** The cause speaks truly about the reload: no reload can have started unless it admits one. */
    ghost predicate CauseSound(record: Record, cause: Cause)
      reads w
    {
      w.exclusive && w.Fresh(record) && record.state.ReloadIntent? && !ReloadMayHaveStarted(cause) ==> w.loaded == w.before
    }

    /** The part of a rollback that may throw (src/phase3/applyCoordinator.ts:380-414). */
    method TryRollback(record: Record, cause: Cause) returns (r: Attempt<Record, Cause>, current: Record)
      requires w.Valid() && w.Known(record) && (BeforeRollback(record.state) || (record.state.RollbackIntent? && w.Fresh(record)))
      requires CauseSound(record, cause)
      modifies w`live, w`history, w`refused, w`loaded, w`swaps, w`reloads, w`illegalVerifications
      ensures w.Valid() && old(w.history) <= w.history && w.Known(current)
      ensures r.Done? ==> w.Fresh(r.value) && IsTerminal(r.value.state) && r.value.identity == record.identity
      ensures w.faultFree && old(w.Fresh(record)) && old(w.live) == Some(record.identity.candidateSha256)
              && CauseOk(cause) ==>
        && r.Done? && r.value.state.RollbackVerificationSucceeded? && w.swaps == old(w.swaps) + 1
        && w.reloads == old(w.reloads) + (if RollbackReloadDue(record, cause) then 1 else 0)
      ensures old(w.Fresh(record)) && BeforeRollback(record.state) && !CauseOk(cause) ==>
        && r == Threw(REJECTED) && current == record && w.history == old(w.history)
        && w.live == old(w.live) && w.swaps == old(w.swaps) && w.reloads == old(w.reloads)
    {
      current := record;
      HistoryWellFormed(w.history, record.version);
      if !current.state.RollbackIntent? {
        var patch := Patch(Some(FailureOf(cause)), ShouldRequireRollbackReload(current, cause));
        var moved := Move(current, RollbackIntent, patch);
        if !moved.Done? {
          return moved, current;
        }
        current := moved.value;
      }
      var checkpoint := w.LoadBytes(current.identity.checkpointSha256);
      if !checkpoint.Done? {
        return checkpoint.PropagateFailure(), current;
      }
      if checkpoint.value != current.identity.checkpointSha256 {
        return Threw(MISMATCH), current;
      }
      r := RestoreCheckpoint(current, checkpoint.value);
    }

    /** src/phase3/applyCoordinator.ts:375-426 */
    method RollbackAfterCommit(record: Record, cause: Cause) returns (r: Attempt<Record, Cause>)
      requires w.Valid() && w.Known(record) && (BeforeRollback(record.state) || (record.state.RollbackIntent? && w.Fresh(record)))
      requires CauseSound(record, cause)
      modifies w`live, w`history, w`refused, w`loaded, w`swaps, w`reloads, w`illegalVerifications
      ensures w.Valid() && old(w.history) <= w.history
      ensures r.Done? ==> w.Fresh(r.value) && IsTerminal(r.value.state) && r.value.identity == record.identity
      ensures w.faultFree && old(w.Fresh(record)) && old(w.live) == Some(record.identity.candidateSha256)
              && CauseOk(cause) ==>
        && r.Done? && r.value.state.RollbackVerificationSucceeded? && w.swaps == old(w.swaps) + 1
        && w.reloads == old(w.reloads) + (if RollbackReloadDue(record, cause) then 1 else 0)
      ensures old(w.Fresh(record)) && BeforeRollback(record.state) && !CauseOk(cause) ==>
        && (r.Done? ==> r.value.state.ManualRecoveryRequired?) && (w.faultFree ==> r.Done?)
        && w.live == old(w.live) && w.swaps == old(w.swaps) && w.reloads == old(w.reloads)
      ensures w.faultFree && old(w.Fresh(record)) && BeforeRollback(record.state)
              && old(w.live) == Some(record.identity.candidateSha256) ==>
        r.Done? && (r.value.state.RollbackVerificationSucceeded? <==> CauseOk(cause))
    {
      var outcome, current := TryRollback(record, cause);
      match outcome {
        case Done(_) => r := outcome;
        case Crashed => r := Crashed;
        case Threw(error) =>
          KnownIdentity(w.history, record, current);
          r := Manual(current, CheckpointOr(error, RollbackStage), ErrorCode(error), error.message, None, None);
      }
    }

    // ----- Apply -----

    /** After a commit of unknown outcome the digest of the file decides (src/phase3/applyCoordinator.ts:294-342). */
    method ResolveUnknown(record: Record, current: Option<Digest>) returns (r: Attempt<Record, Cause>)
      requires w.Valid() && w.Fresh(record) && record.state.IntentPrepared?
      requires w.exclusive || w.faultFree ==> w.live == current
      modifies w`live, w`history, w`refused, w`loaded, w`swaps, w`reloads, w`illegalVerifications
      ensures w.Valid() && old(w.history) <= w.history
      ensures r.Done? ==> w.Fresh(r.value) && r.value.identity == record.identity
      ensures r.Done? ==> IsTerminal(r.value.state) || r.value.state.ApplyCommitted?
    {
      HistoryWellFormed(w.history, record.version);
      if current == Some(record.identity.checkpointSha256) || current == Some(record.identity.expectedSha256) {
        var failure := StructuredFailure(ApplyStage, OwnCode, OwnMessage, Some(CommitUnknown), current);
        var rollbackIntent :- Move(record, RollbackIntent, Patch(Some(failure), false));
        r := CompleteRollbackValidation(rollbackIntent);
        return;
      }
      // Reached only if somebody else edits the file.
      if current != Some(record.identity.candidateSha256) {
        r := Manual(record, ApplyStage, OwnCode, OwnMessage, Some(CommitUnknown), current);
        return;
      }
      var note := StructuredFailure(ApplyStage, OwnCode, OwnMessage, Some(CommitUnknown), current);
      r := Move(record, ApplyCommitted, Patch(Some(note), false));
    }

    /** src/phase3/applyCoordinator.ts:267-342 */
    method ApplyCandidate(record: Record, candidate: Digest) returns (r: Attempt<Record, Cause>)
      requires w.Valid() && w.Fresh(record) && record.state.IntentPrepared? && candidate == record.identity.candidateSha256
      modifies w`live, w`history, w`refused, w`loaded, w`swaps, w`reloads, w`illegalVerifications
      ensures w.Valid() && old(w.history) <= w.history
      ensures r.Done? ==> w.Fresh(r.value) && r.value.identity == record.identity
      ensures r.Done? ==> IsTerminal(r.value.state) || r.value.state.ApplyCommitted?
      ensures w.faultFree && old(w.live) == Some(record.identity.expectedSha256) ==>
        r.Done? && r.value.state.ApplyCommitted? && w.live == Some(candidate)
    {
      HistoryWellFormed(w.history, record.version);
      var replaced := w.Replace(record.identity.expectedSha256, candidate);
      if replaced.Crashed? {
        return Crashed;
      }
      var status := if replaced.Done? then replaced.value else StatusOf(replaced.error);
      if status.BeforeCommit? {
        return Threw(if replaced.Threw? then replaced.error else PlainError(CoordinatorError(OwnCode), OwnMessage));
      }
      if status.CommitUnknown? {
        var current :- w.ReadDigest();
        r := ResolveUnknown(record, current);
      } else {
        r := Move(record, ApplyCommitted, NO_PATCH);
      }
    }

    /** src/phase3/applyCoordinator.ts:358-367 */
    method TryReload(record: Record) returns (r: Attempt<Record, Cause>, current: Record)
      requires w.Valid() && w.Fresh(record) && record.state.PostValidationSucceeded?
      modifies w`live, w`history, w`refused, w`loaded, w`reloads
      ensures w.Valid() && old(w.history) <= w.history && w.Known(current) && BeforeRollback(current.state)
      ensures current.identity == record.identity
      ensures r.Done? ==> w.Fresh(r.value) && r.value == current && current.state.ReloadSucceeded?
      ensures r.Threw? ==> CauseSound(current, r.error)
      ensures w.exclusive || w.faultFree ==> w.live == old(w.live)
      ensures w.faultFree ==> r.Done? && w.reloads == old(w.reloads) + (if record.identity.reloadTarget.Some? then 1 else 0)
    {
      current := record;
      HistoryWellFormed(w.history, record.version);
      if current.identity.reloadTarget.Some? {
        var intent := Move(current, ReloadIntent, NO_PATCH);
        if !intent.Done? {
          return intent, current;
        }
        current := intent.value;
        var reloaded := w.ReloadDomain(current.identity.reloadTarget.value);
        if !reloaded.Done? {
          return reloaded.PropagateFailure(), current;
        }
      }
      r := Move(current, ReloadSucceeded, NO_PATCH);
      if r.Done? {
        current := r.value;
      }
    }

    /** src/phase3/applyCoordinator.ts:368-369 */
    method VerifyCandidate(record: Record) returns (r: Attempt<Record, Cause>)
      requires w.Valid() && w.Fresh(record) && record.state.ReloadSucceeded?
      modifies w`live, w`history, w`refused, w`illegalVerifications
      ensures w.Valid() && old(w.history) <= w.history
      ensures r.Done? ==> w.Fresh(r.value) && r.value.state.VerificationSucceeded? && r.value.identity == record.identity
      ensures w.faultFree && old(w.live) == Some(record.identity.candidateSha256) ==> r.Done? && w.live == old(w.live)
    {
      HistoryWellFormed(w.history, record.version);
      var _ :- w.Verify(record, true);
      r := Move(record, VerificationSucceeded, NO_PATCH);
    }

    /** The part after the commit that may throw (src/phase3/applyCoordinator.ts:351-369). */
    method TryFinish(record: Record) returns (r: Attempt<Record, Cause>, current: Record)
      requires w.Valid() && w.Fresh(record) && record.state.ApplyCommitted?
      modifies w`live, w`history, w`refused, w`loaded, w`reloads, w`illegalVerifications
      ensures w.Valid() && old(w.history) <= w.history && w.Known(current) && BeforeRollback(current.state)
      ensures current.identity == record.identity
      ensures r.Done? ==> w.Fresh(r.value) && r.value.state.VerificationSucceeded? && r.value.identity == record.identity
      ensures r.Threw? ==> CauseSound(current, r.error)
      ensures w.faultFree && old(w.live) == Some(record.identity.candidateSha256) ==>
        r.Done? && w.live == old(w.live) && w.reloads == old(w.reloads) + (if record.identity.reloadTarget.Some? then 1 else 0)
    {
      current := record;
      HistoryWellFormed(w.history, record.version);
      var validated := w.Call();
      if !validated.Done? {
        return validated.PropagateFailure(), current;
      }
      r := Move(current, PostValidationSucceeded, NO_PATCH);
      if !r.Done? {
        return;
      }
      r, current := TryReload(r.value);
      if !r.Done? {
        return;
      }
      r := VerifyCandidate(current);
    }

    /** src/phase3/applyCoordinator.ts:344-373 */
    method FinishPostCommit(record: Record) returns (r: Attempt<Record, Cause>)
      requires w.Valid() && w.Fresh(record) && (IsTerminal(record.state) || record.state.ApplyCommitted?)
      modifies w`live, w`history, w`refused, w`loaded, w`swaps, w`reloads, w`illegalVerifications
      ensures w.Valid() && old(w.history) <= w.history
      ensures r.Done? ==> w.Fresh(r.value) && IsTerminal(r.value.state) && r.value.identity == record.identity
      ensures w.faultFree && record.state.ApplyCommitted? && old(w.live) == Some(record.identity.candidateSha256) ==>
        && r.Done? && r.value.state.VerificationSucceeded? && w.live == old(w.live)
        && w.reloads == old(w.reloads) + (if record.identity.reloadTarget.Some? then 1 else 0)
    {
      if IsTerminal(record.state) {
        return Done(record);
      }
      var outcome, current := TryFinish(record);
      match outcome {
        case Done(_) => r := outcome;
        case Crashed => r := Crashed;
        case Threw(cause) => r := RollbackAfterCommit(current, cause);
      }
    }

    /** src/phase3/applyCoordinator.ts:719-747 */
    function IntentRecord(proposal: Identity, checkpointId: string, checkpointSha256: Digest, now: int): Record {
      Record(proposal.(checkpointId := checkpointId, checkpointSha256 := checkpointSha256, createdAt := now),
             false, IntentPrepared, None, 0, now, None)
    }

    /**
     Proposal, lock, source, candidate, validation, grant and checkpoint, before anything is written
     (src/phase3/applyCoordinator.ts:186-241).
     */
    method Prepare() returns (r: Attempt<Record, Cause>)
      requires w.Valid()
      modifies w`live
      ensures w.Valid() && (w.exclusive ==> w.live == old(w.live))
      ensures r.Done? ==> IsInitial(r.value) && r.value.identity.checkpointSha256 == r.value.identity.expectedSha256
      ensures r.Done? && (w.exclusive || w.faultFree) ==> w.live == Some(r.value.identity.expectedSha256)
    {
      var _ :- w.Call();
      var first: Identity := *;
      var _ :- w.Call();
      var proposal: Identity := *;
      var _ :- w.Call();
      if first != proposal {
        return Threw(PlainError(CoordinatorError(OwnCode), OwnMessage));
      }
      var source :- w.ReadDigest();
      if source != Some(proposal.expectedSha256) {
        return Threw(PlainError(CoordinatorError(OwnCode), OwnMessage));
      }
      var candidate :- w.LoadBytes(proposal.candidateSha256);
      if candidate != proposal.candidateSha256 {
        return Threw(PlainError(CoordinatorError(OwnCode), OwnMessage));
      }
      var _ :- w.Call();
      var checkpointId: string := *;
      var checkpoint :- w.LoadBytes(proposal.expectedSha256);
      if checkpoint != proposal.expectedSha256 {
        return Threw(PlainError(CoordinatorError(OwnCode), OwnMessage));
      }
      var now: int := *;
      return Done(IntentRecord(proposal, checkpointId, checkpoint, now));
    }

    /** src/phase3/applyCoordinator.ts:182-252; an epoch holds one transaction (src/phase3/operatorRuntime.ts:301). */
    method Apply() returns (r: Attempt<Record, Cause>)
      requires w.Valid() && w.history == []
      modifies w`live, w`history, w`refused, w`loaded, w`swaps, w`reloads, w`illegalVerifications
      ensures w.Valid()
      ensures r.Done? ==> w.Fresh(r.value) && IsTerminal(r.value.state)
      ensures w.faultFree && r.Done? ==> r.value.state.VerificationSucceeded? && w.live == Some(r.value.identity.candidateSha256)
    {
      var intent :- Prepare();
      var record :- w.CreateIntent(intent);
      var committed :- ApplyCandidate(record, record.identity.candidateSha256);
      r := FinishPostCommit(committed);
    }

    // ----- Recovery -----

    /**
     What the recovery table prescribes for a record: where it ends, and how many swaps and reloads that takes.
     Where recovery departs from the table, there is a reload exactly if the table names none.
     */
    predicate Follows(action: RecoveryAction, before: Record, after: Record, swaps: int, reloads: int) {
      match action
      case ManualRequired => after.state.ManualRecoveryRequired? && swaps == 0 && reloads == 0
      case VerifiedNoEffect => after == before && swaps == 0 && reloads == 0
      case RolledBackNoEffect => after == before && swaps == 0 && reloads == 0
      case ExternalManualNoTransition => after == before && swaps == 0 && reloads == 0
      case NoEffect => after == before && swaps == 0 && reloads == 0
      case _ =>
        && after.state.RollbackVerificationSucceeded?
        && swaps == (if action.Rollback? || action.RollbackWithReloadRequired? then 1 else 0)
        && reloads == (if TableDeparts(before) then 1 - NamedReloads(action, before) else NamedReloads(action, before))
    }

    /** What recovery reports for a record that it leaves alone. */
    function DispositionAs(action: RecoveryAction): Disposition {
      if action.VerifiedNoEffect? then Verified else if action.RolledBackNoEffect? then RolledBack else ManualAttention
    }

    /** src/phase3/applyCoordinator.ts:488-509 */
    function DispositionOfTerminal(s: State, digest: DigestClass): Disposition {
      if s.VerificationSucceeded? && digest.Candidate? then Verified
      else if s.RollbackVerificationSucceeded? && digest.ExpectedOrCheckpoint? then RolledBack
      else ManualAttention
    }

    /** The recovery of a file that holds the candidate or its checkpoint (src/phase3/applyCoordinator.ts:564-574). */
    method RecoverByRollback(record: Record, digest: DigestClass) returns (r: Attempt<RecoveryResult, Cause>)
      requires w.Valid() && w.Fresh(record) && !IsTerminal(record.state) && !digest.OtherOrMissing?
      requires !record.state.RollbackReloadIntent?
      requires record.state in {RollbackCommitted, RollbackValidationSucceeded, RollbackReloadSucceeded} ==> digest.ExpectedOrCheckpoint?
      requires w.exclusive || w.faultFree ==> ClassifyDigest(record, w.live) == digest
      modifies w`live, w`history, w`refused, w`loaded, w`swaps, w`reloads, w`illegalVerifications
      ensures w.Valid() && old(w.history) <= w.history
      ensures r.Done? ==> w.Fresh(r.value.record) && IsTerminal(r.value.record.state)
      ensures r.Done? ==> r.value.observed == digest && r.value.disposition == DispositionFor(r.value.record)
      ensures w.faultFree ==>
        r.Done? && Follows(RecoveryTable(record.state, digest), record, r.value.record,
                           w.swaps - old(w.swaps), w.reloads - old(w.reloads))
    {
      DepartureIsExact(w.history, digest);
      var recovered: Record;
      if digest.ExpectedOrCheckpoint? {
        recovered :- CompleteRollbackValidation(record);
      } else {
        recovered :- RollbackAfterCommit(record, STARTUP_CAUSE);
      }
      return Done(RecoveryResult(recovered, digest, DispositionFor(recovered)));
    }

    /** The recovery of a transaction that is not over (src/phase3/applyCoordinator.ts:510-574). */
    method RecoverOpen(record: Record, observed: Option<Digest>) returns (r: Attempt<RecoveryResult, Cause>)
      requires w.Valid() && w.Fresh(record) && !IsTerminal(record.state)
      requires w.exclusive || w.faultFree ==> w.live == observed
      modifies w`live, w`history, w`refused, w`loaded, w`swaps, w`reloads, w`illegalVerifications
      ensures w.Valid() && old(w.history) <= w.history
      ensures r.Done? ==> w.Fresh(r.value.record) && IsTerminal(r.value.record.state)
      ensures r.Done? ==> r.value.observed == ClassifyDigest(record, observed)
      ensures r.Done? ==> r.value.disposition == DispositionFor(r.value.record)
      ensures w.faultFree ==>
        r.Done? && Follows(RecoveryTable(record.state, r.value.observed), record, r.value.record,
                           w.swaps - old(w.swaps), w.reloads - old(w.reloads))
    {
      var digest := ClassifyDigest(record, observed);
      if digest.OtherOrMissing? || record.state.RollbackReloadIntent?
         || (record.state in {RollbackCommitted, RollbackValidationSucceeded, RollbackReloadSucceeded}
             && !digest.ExpectedOrCheckpoint?) {
        var manual :- Manual(record, RecoveryStage, OwnCode, OwnMessage, None, observed);
        return Done(RecoveryResult(manual, digest, ManualAttention));
      }
      r := RecoverByRollback(record, digest);
    }

    /** src/phase3/applyCoordinator.ts:483-574 */
    method RecoverOne(record: Record) returns (r: Attempt<RecoveryResult, Cause>)
      requires w.Valid() && w.Fresh(record)
      modifies w`live, w`history, w`refused, w`loaded, w`swaps, w`reloads, w`illegalVerifications
      ensures w.Valid() && old(w.history) <= w.history
      ensures r.Done? ==> w.Fresh(r.value.record) && IsTerminal(r.value.record.state)
      ensures IsTerminal(record.state) ==>
        && w.history == old(w.history) && w.swaps == old(w.swaps) && w.reloads == old(w.reloads)
        && (r.Done? ==> r.value.disposition == DispositionAs(RecoveryTable(record.state, r.value.observed)))
      ensures !IsTerminal(record.state) && r.Done? ==> r.value.disposition == DispositionFor(r.value.record)
      ensures w.faultFree ==>
        && r.Done? && r.value.observed == ClassifyDigest(record, old(w.live))
        && Follows(RecoveryTable(record.state, r.value.observed), record, r.value.record,
                   w.swaps - old(w.swaps), w.reloads - old(w.reloads))
    {
      var observed :- w.ReadDigest();
      if IsTerminal(record.state) {
        var digest := ClassifyDigest(record, observed);
        return Done(RecoveryResult(record, digest, DispositionOfTerminal(record.state, digest)));
      }
      r := RecoverOpen(record, observed);
    }

    /** The records of the journal, of which an epoch has at most one. */
    method ListRecoverable() returns (r: Attempt<seq<Record>, Cause>)
      ensures r.Done? ==> r.value == if w.history == [] then [] else [Last(w.history)]
      ensures w.faultFree ==> r.Done?
    {
      var _ :- w.Call();
      return Done(if w.history == [] then [] else [Last(w.history)]);
    }

    /**
     A recovery that returns leaves a terminal record, and one that finds a terminal record does nothing: so a
     second recovery performs no transition, swap or reload (src/phase3/applyCoordinator.ts:254-265).
     */
    method Recover() returns (r: Attempt<seq<RecoveryResult>, Cause>)
      requires w.Valid()
      modifies w`live, w`history, w`refused, w`loaded, w`swaps, w`reloads, w`illegalVerifications
      ensures w.Valid() && old(w.history) <= w.history
      ensures r.Done? ==> |r.value| == (if old(w.history) == [] then 0 else 1)
      ensures r.Done? && r.value != [] ==> w.Fresh(r.value[0].record) && IsTerminal(r.value[0].record.state)
      ensures old(w.history) == [] || IsTerminal(Last(old(w.history)).state) ==>
        w.history == old(w.history) && w.swaps == old(w.swaps) && w.reloads == old(w.reloads)
      ensures w.faultFree && old(w.history) != [] ==>
        && r.Done? && r.value[0].observed == ClassifyDigest(Last(old(w.history)), old(w.live))
        && Follows(RecoveryTable(Last(old(w.history)).state, r.value[0].observed), Last(old(w.history)), r.value[0].record,
                   w.swaps - old(w.swaps), w.reloads - old(w.reloads))
    {
      var _ :- w.Call();
      var records :- ListRecoverable();
      var recovered: seq<RecoveryResult> := [];
      for i := 0 to |records|
        invariant w.Valid() && old(w.history) <= w.history && |recovered| == i
        invariant i == 0 ==>
          w.history == old(w.history) && w.live == old(w.live) && w.swaps == old(w.swaps) && w.reloads == old(w.reloads)
        invariant i == 1 ==> w.Fresh(recovered[0].record) && IsTerminal(recovered[0].record.state)
        invariant i == 1 && IsTerminal(records[0].state) ==>
          w.history == old(w.history) && w.swaps == old(w.swaps) && w.reloads == old(w.reloads)
        invariant i == 1 && w.faultFree ==>
          && recovered[0].observed == ClassifyDigest(records[0], old(w.live))
          && Follows(RecoveryTable(records[0].state, recovered[0].observed), records[0], recovered[0].record,
                     w.swaps - old(w.swaps), w.reloads - old(w.reloads))
      {
        var one :- RecoverOne(records[i]);
        recovered := recovered + [one];
      }
      return Done(recovered);
    }

    /**
     Any run of an epoch: calls of apply and recover in any order, each of which may fail or crash
     anywhere, on weather that changes in between. The promises hold after every step.
     */
    method AnyRun(steps: nat)
      requires w.Valid()
      modifies w
      ensures w.Valid()
      ensures w.exclusive && w.history != [] ==> LiveAgrees(Last(w.history), w.live)
      ensures w.exclusive && w.history != [] && Last(w.history).state.VerificationSucceeded?
              && Last(w.history).identity.reloadTarget.Some?
              ==> w.loaded == w.live
      ensures w.exclusive && w.history != [] && Last(w.history).state.RollbackVerificationSucceeded? ==>
        w.loaded == w.live || (w.loaded == w.before && !Last(w.history).rollbackReloadRequired)
      ensures w.refused == 0 && w.illegalVerifications == 0 && |w.history| <= 11
    {
      for i := 0 to steps
        invariant w.Valid()
      {
        w.Meddle();
        w.faultFree := *;
        var applies: bool := *;
        if w.history == [] && applies {
          var r := Apply();
        } else {
          var r := Recover();
        }
      }
      HistoryBounded(w.history);
    }
  }

  /** All durable records have the same identity. */
  lemma KnownIdentity(h: seq<Record>, r: Record, s: Record)
    requires ValidHistory(h) && r.version < |h| && h[r.version] == r && s.version < |h| && h[s.version] == s
    ensures r.identity == s.identity
  {
    HistoryWellFormed(h, r.version);
    HistoryWellFormed(h, s.version);
  }

  // ----- Examples -----

  lemma Grows(h: seq<Record>, state: State, patch: Patch) returns (g: seq<Record>)
    requires h != [] && ValidHistory(h) && Allowed(Last(h), state, patch) && PatchOk(patch)
    ensures ValidHistory(g) && g == h + [NextRecord(Last(h), state, patch, 0)]
  {
    g := h + [NextRecord(Last(h), state, patch, 0)];
    AppendedValid(h, g, Last(h).version, state, patch);
  }

  /** A reload that may have started, and a rollback of it that was interrupted: the table names no reload for it. */
  lemma InterruptedRollbackOfReload() returns (h: seq<Record>)
    ensures ValidHistory(h) && |h| == 6 && h[4].state.RollbackIntent? && h[5].state.RollbackCommitted?
    ensures forall i | 4 <= i < 6 ::
              && RecoveryTable(h[i].state, ExpectedOrCheckpoint).CompleteRollbackValidationVerification?
              && NamedReloads(RecoveryTable(h[i].state, ExpectedOrCheckpoint), h[i]) == 0
              && RollbackReloadDue(h[i], STARTUP_CAUSE)
  {
    h := [SampleIntent(Some(AutomationReload))];
    h := Grows(h, ApplyCommitted, NO_PATCH);
    h := Grows(h, PostValidationSucceeded, NO_PATCH);
    h := Grows(h, ReloadIntent, NO_PATCH);
    h := Grows(h, RollbackIntent, Patch(None, true));
    h := Grows(h, RollbackCommitted, NO_PATCH);
  }

  /** Without a target nothing was ever reloaded, but the table names a reload. */
  lemma NothingToReload() returns (h: seq<Record>)
    ensures ValidHistory(h) && h != [] && Last(h).state.ReloadSucceeded?
    ensures RecoveryTable(Last(h).state, Candidate).RollbackWithReloadRequired?
    ensures NamedReloads(RecoveryTable(Last(h).state, Candidate), Last(h)) == 1 && !RollbackReloadDue(Last(h), STARTUP_CAUSE)
  {
    h := [SampleIntent(None)];
    h := Grows(h, ApplyCommitted, NO_PATCH);
    h := Grows(h, PostValidationSucceeded, NO_PATCH);
    h := Grows(h, ReloadSucceeded, NO_PATCH);
  }

  /** An error with an empty message, as any port may throw it. */
  const EMPTY_ERROR := PlainError(OtherError(OwnCode), ForeignMessage(""))

  /** Neither its rollback nor the manual recovery from it can be noted, after any record that a rollback may follow. */
  lemma EmptyMessageIsRejected(record: Record, stage: FailureStage)
    requires BeforeRollback(record.state)
    ensures Silent(EMPTY_ERROR) && !CauseOk(EMPTY_ERROR)
    ensures !FailureOk(StructuredFailure(stage, ErrorCode(EMPTY_ERROR), EMPTY_ERROR.message, None, None))
    ensures !PatchOk(Patch(Some(FailureOf(EMPTY_ERROR)), ShouldRequireRollbackReload(record, EMPTY_ERROR)))
  {
  }
}
