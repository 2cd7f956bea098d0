/**
 The world in which a transaction runs: the live file, the configuration that Home Assistant has
 loaded, and the durable journal of the one transaction of an epoch
 (src/phase3/operatorRuntime.ts:301 refuses a second one). Its methods are the coordinator's ports.
 Every port may fail, and the process may crash before or after the port's effect.
 */
module Phase3World {
  import opened Wrappers
  import opened Phase3Contracts

  // ----- Thrown values -----

  datatype ErrorKind = CoordinatorError(code: Code) | OtherError(name: Code) | NonError(isObject: bool)

  datatype StageEvidence = InputStage | ResolutionStage | OtherStage
  datatype DispatchEvidence = OutcomeUnknown | NotDispatched | NotAttempted | OtherDispatch

  /** A thrown value with the own properties that the coordinator looks at. */
  datatype Cause = Cause(kind: ErrorKind, message: Message, stage: Option<StageEvidence>, dispatch: Option<DispatchEvidence>,
                         commitStatus: Option<CommitStatus>)

  function PlainError(kind: ErrorKind, message: Message): Cause {
    Cause(kind, message, None, None, None)
  }

  /** What the journal throws for a request that its rules or its schema reject. */
  const REJECTED := PlainError(CoordinatorError(OwnCode), OwnMessage)

  /** src/phase3/applyCoordinator.ts:915-918 */
  function ErrorCode(c: Cause): Code {
    match c.kind
    case CoordinatorError(code) => code
    case OtherError(name) => name
    case NonError(_) => OwnCode
  }

  /** The commit status an error carries; without one nothing was committed (src/phase3/applyCoordinator.ts:897-913). */
  function StatusOf(c: Cause): CommitStatus {
    if c.commitStatus.Some? then c.commitStatus.value else BeforeCommit
  }

  /** src/phase3/applyCoordinator.ts:970-978 */
  predicate ReloadMayHaveStarted(c: Cause) {
    if c.kind.NonError? && !c.kind.isObject then true
    else if c.dispatch == Some(OutcomeUnknown) then true
    else if c.dispatch == Some(NotDispatched) || c.dispatch == Some(NotAttempted) then false
    else c.stage != Some(InputStage) && c.stage != Some(ResolutionStage)
  }

  /** A failure without any evidence of what was or was not done. */
  predicate Silent(c: Cause) {
    c == PlainError(OtherError(OwnCode), c.message)
  }

  // ----- The journal as values -----

  datatype Patch = Patch(failure: Option<StructuredFailure>, rollbackReloadRequired: bool)

  const NO_PATCH := Patch(None, false)

  function Last(h: seq<Record>): Record
    requires h != []
  {
    h[|h| - 1]
  }

  /** The record a transition would write (src/phase3/applyCoordinator.ts:1095-1107). */
  function NextRecord(current: Record, state: State, patch: Patch, now: int): Record {
    Record(current.identity, current.rollbackReloadRequired || patch.rollbackReloadRequired, state, Some(current.state),
           current.version + 1, now, if patch.failure.Some? then patch.failure else current.failure)
  }

  /** The transition is one that the contracts allow; a malformed failure text is a separate matter. */
  predicate Allowed(current: Record, state: State, patch: Patch) {
    && CanTransition(current.state, state) && (patch.rollbackReloadRequired ==> state.RollbackIntent?)
    && CanRecordTransition(current, NextRecord(current, state, patch, 0)) && ReloadContextLegal(NextRecord(current, state, patch, 0))
  }

  predicate PatchOk(patch: Patch) {
    patch.failure.Some? ==> FailureOk(patch.failure.value)
  }

  /** The journal has grown by exactly the requested record. */
  predicate Appended(before: seq<Record>, after: seq<Record>, version: nat, state: State, patch: Patch) {
    && before != [] && |after| == |before| + 1 && after[..|before|] == before
    && version == Last(before).version && Allowed(Last(before), state, patch) && PatchOk(patch)
    && Last(after) == NextRecord(Last(before), state, patch, Last(after).updatedAt)
  }

  /** An allowed transition keeps the history readable. */
  lemma AppendedValid(before: seq<Record>, after: seq<Record>, version: nat, state: State, patch: Patch)
    requires ValidHistory(before) && Appended(before, after, version, state, patch)
    ensures ValidHistory(after) && IsSuccessor(Last(before), Last(after))
  {
    var previous, next := Last(before), Last(after);
    assert forall i | 0 <= i < |before| :: after[i] == before[i];
    forall i | 0 < i < |after| ensures IsSuccessor(after[i - 1], after[i]) {
      if i < |before| {
        Adjacent(before, i);
      }
    }
  }

  /** A first record, with or without a reload target. */
  function SampleIntent(target: Option<ReloadTarget>): Record {
    Record(Identity("a", "b", None, "c", "d", "e", "f", "g", "h", "e",
                    if target.Some? then DomainReload else NoImpact, target, 0),
           false, IntentPrepared, None, 0, 0, None)
  }

  // ----- Agreement between journal, file and loaded configuration -----

  /** The live file is what the state of the transaction says it is. */
  predicate LiveAgrees(r: Record, live: Option<Digest>) {
    var expected, candidate := Some(r.identity.expectedSha256), Some(r.identity.candidateSha256);
    match r.state
    case IntentPrepared => live == expected || live == candidate
    case ApplyCommitted => live == candidate
    case PostValidationSucceeded => live == candidate
    case ReloadIntent => live == candidate
    case ReloadSucceeded => live == candidate
    case VerificationSucceeded => live == candidate
    case RollbackIntent => live == expected || live == candidate
    case ManualRecoveryRequired => live == expected || live == candidate
    case _ => live == expected
  }

  /** What Home Assistant has loaded: what it had before, the candidate, or the checkpoint, as the state allows. */
  predicate LoadedAgrees(r: Record, loaded: Option<Digest>, before: Option<Digest>) {
    var expected, candidate := Some(r.identity.expectedSha256), Some(r.identity.candidateSha256);
    match r.state
    case IntentPrepared => loaded == before
    case ApplyCommitted => loaded == before
    case PostValidationSucceeded => loaded == before
    case ReloadIntent => loaded == before || loaded == candidate
    case ReloadSucceeded => loaded == if r.identity.reloadTarget.Some? then candidate else before
    case VerificationSucceeded => loaded == if r.identity.reloadTarget.Some? then candidate else before
    case RollbackReloadIntent => loaded == before || loaded == candidate || loaded == expected
    case RollbackReloadSucceeded => loaded == expected
    case RollbackVerificationSucceeded => loaded == if r.rollbackReloadRequired then expected else before
    case ManualRecoveryRequired => loaded == before || loaded == candidate || loaded == expected
    case _ => loaded == before || (r.rollbackReloadRequired && loaded == candidate)
  }

  /** Live file and loaded configuration agree with the latest record. */
  ghost predicate Agree(h: seq<Record>, live: Option<Digest>, loaded: Option<Digest>, before: Option<Digest>) {
    if h == [] then loaded == before else LiveAgrees(Last(h), live) && LoadedAgrees(Last(h), loaded, before)
  }

  /** What a commit status says about the file before and after a swap. */
  predicate SwapTold(status: CommitStatus, before: Option<Digest>, after: Option<Digest>, expected: Digest, content: Digest) {
    match status
    case Committed => before == Some(expected) && after == Some(content)
    case BeforeCommit => after == before
    case CommitUnknown => true
  }

  // ----- The ports -----

  class World {
    var live: Option<Digest>
    var loaded: Option<Digest>
    var history: seq<Record>
    /** Nobody but the coordinator edits the file. */
    const exclusive: bool
    /** What Home Assistant had loaded when the epoch began. */
    const before: Option<Digest>
    /** Whether a version conflict carries its code, as only the in-memory journal's does. */
    const conflictVisible: bool
    /** For the time being no port fails, nobody else edits the file and the process does not crash. */
    var faultFree: bool
    ghost var refused: nat
    ghost var illegalVerifications: nat
    ghost var swaps: nat
    ghost var reloads: nat

    constructor (live: Option<Digest>, loaded: Option<Digest>, exclusive: bool, conflictVisible: bool)
      ensures Valid() && history == [] && this.live == live && this.loaded == loaded && before == loaded
      ensures this.exclusive == exclusive && this.conflictVisible == conflictVisible
    {
      this.live, this.loaded, this.before := live, loaded, loaded;
      this.exclusive, this.conflictVisible, this.faultFree := exclusive, conflictVisible, false;
      history := [];
      refused, illegalVerifications, swaps, reloads := 0, 0, 0, 0;
    }

    /**
     The promise kept by every step: a readable history, no request outside the contracts, and, if
     nobody else edits the file, agreement of journal, file and loaded configuration.
     */
    ghost predicate Valid()
      reads this
    {
      && ValidHistory(history) && refused == 0 && illegalVerifications == 0
      && (history != [] ==> Last(history).identity.checkpointSha256 == Last(history).identity.expectedSha256)
      && (exclusive ==> Agree(history, live, loaded, before))
    }

    /** Somebody else may edit the file, unless excluded. */
    method Meddle()
      modifies this`live
      ensures exclusive || faultFree ==> live == old(live)
    {
      if !exclusive && !faultFree {
        var other: Option<Digest> := *;
        live := other;
      }
    }

    /** The record is one of the durable ones, perhaps no longer the latest. */
    ghost predicate Known(r: Record)
      reads this
    {
      r.version < |history| && history[r.version] == r
    }

    ghost predicate Fresh(r: Record)
      reads this
    {
      history != [] && Last(history) == r
    }

    /** A port failure that says nothing about what it did. */
    method Fault() returns (c: Cause)
      ensures Silent(c)
    {
      var text: string := *;
      c := PlainError(OtherError(OwnCode), ForeignMessage(text));
    }

    /** Any call without an effect on this world: policy, locks, validation, grant consumption, proposal loading. */
    method Call() returns (r: Attempt<(), Cause>)
      ensures faultFree ==> r.Done?
      ensures r.Threw? ==> Silent(r.error)
    {
      if !faultFree {
        if * {
          return Crashed;
        }
        if * {
          var c := Fault();
          return Threw(c);
        }
      }
      return Done(());
    }

    method ReadDigest() returns (r: Attempt<Option<Digest>, Cause>)
      modifies this`live
      ensures exclusive || faultFree ==> live == old(live)
      ensures r.Done? ==> r.value == live
      ensures r.Threw? ==> Silent(r.error)
      ensures faultFree ==> r.Done?
    {
      Meddle();
      var _ :- Call();
      return Done(live);
    }

    /** The bytes under an identifier; nothing guarantees that they are the right ones, except without faults. */
    method LoadBytes(intended: Digest) returns (r: Attempt<Digest, Cause>)
      ensures faultFree ==> r == Done(intended)
      ensures r.Threw? ==> r.error.stage.None? && r.error.dispatch.None?
    {
      var _ :- Call();
      if !faultFree {
        var other: Digest := *;
        return Done(other);
      }
      return Done(intended);
    }

    /** src/phase3/applyCoordinator.ts:1025-1057 */
    method CreateIntent(record: Record) returns (r: Attempt<Record, Cause>)
      modifies this`history
      ensures r.Done? ==> old(history) == [] && IsInitial(record) && SchemaOk(record) && history == [record] && r.value == record
      ensures !r.Done? ==>
        history == old(history) || (old(history) == [] && IsInitial(record) && SchemaOk(record) && history == [record])
      ensures r.Threw? ==> r.error.stage.None? && r.error.dispatch.None?
      ensures faultFree && old(history) == [] && IsInitial(record) && SchemaOk(record) ==> r.Done?
    {
      if !IsInitial(record) || !SchemaOk(record) {
        return Threw(REJECTED);
      }
      if history != [] {
        return Threw(REJECTED);
      }
      var _ :- Call();
      history := [record];
      var _ :- Call();
      return Done(record);
    }

    /** src/phase3/applyCoordinator.ts:1059-1121 and src/phase3/journal.ts:231-281 */
    method Transition(expectedVersion: nat, state: State, patch: Patch) returns (r: Attempt<Record, Cause>)
      requires history != []
      modifies this`history, this`refused
      ensures r.Done? ==> Appended(old(history), history, expectedVersion, state, patch) && r.value == Last(history)
      ensures !r.Done? ==> history == old(history) || Appended(old(history), history, expectedVersion, state, patch)
      ensures refused == old(refused) +
        (if expectedVersion == Last(old(history)).version && !Allowed(Last(old(history)), state, patch) then 1 else 0)
      ensures r.Threw? ==> r.error.stage.None? && r.error.dispatch.None?
      ensures r.Threw? && ErrorCode(r.error) == CasConflict ==>
        expectedVersion != Last(old(history)).version && history == old(history)
      ensures expectedVersion == Last(old(history)).version && Allowed(Last(old(history)), state, patch) && !PatchOk(patch) ==>
        r == Threw(REJECTED) && history == old(history)
      ensures faultFree && expectedVersion == Last(old(history)).version && Allowed(Last(old(history)), state, patch) && PatchOk(patch)
        ==> r.Done?
    {
      var current := Last(history);
      if current.version != expectedVersion {
        return Threw(PlainError(if conflictVisible then CoordinatorError(CasConflict) else OtherError(OwnCode), OwnMessage));
      }
      if !Allowed(current, state, patch) {
        refused := refused + 1;
        return Threw(REJECTED);
      }
      if !PatchOk(patch) {
        return Threw(REJECTED);
      }
      var _ :- Call();
      var now: int := *;
      var next := NextRecord(current, state, patch, now);
      history := history + [next];
      var _ :- Call();
      return Done(next);
    }

    /** src/phase3/applyCoordinator.ts:1123-1126 */
    method LoadLatest() returns (r: Attempt<Record, Cause>)
      requires history != []
      ensures r.Done? ==> r.value == Last(history)
      ensures r.Threw? ==> ErrorCode(r.error) != CasConflict
      ensures faultFree ==> r.Done?
    {
      var _ :- Call();
      return Done(Last(history));
    }

    /**
     A compare-and-swap of the file with a truthful status; a thrown error tells the status if it
     carries one, and means that nothing happened otherwise.
     */
    method Replace(expected: Digest, content: Digest) returns (r: Attempt<CommitStatus, Cause>)
      modifies this`live, this`swaps
      ensures swaps == old(swaps) + 1
      ensures exclusive || faultFree ==> live == old(live) || (old(live) == Some(expected) && live == Some(content))
      ensures exclusive || faultFree ==>
        match r
        case Done(status) => SwapTold(status, old(live), live, expected, content)
        case Threw(cause) => SwapTold(StatusOf(cause), old(live), live, expected, content)
        case Crashed => true
      ensures r.Threw? ==> r.error.stage.None? && r.error.dispatch.None?
      ensures faultFree ==> r == Done(if old(live) == Some(expected) then Committed else BeforeCommit)
    {
      swaps := swaps + 1;
      Meddle();
      var _ :- Call();
      var proceeds: bool := *;
      var swapped := live == Some(expected) && (faultFree || proceeds);
      if swapped {
        live := Some(content);
      }
      var status := if swapped then Committed else BeforeCommit;
      if faultFree {
        return Done(status);
      }
      if * {
        return Crashed;
      }
      if * {
        status := CommitUnknown;
      }
      if * {
        var c := Fault();
        return Threw(c.(commitStatus := Some(status)));
      }
      return Done(status);
    }

    /** The verification adapter: legal state, live digest, trusted probe (src/phase3/verificationAdapter.ts:104-160). */
    method Verify(record: Record, candidate: bool) returns (r: Attempt<(), Cause>)
      modifies this`live, this`illegalVerifications
      ensures exclusive || faultFree ==> live == old(live)
      ensures illegalVerifications == old(illegalVerifications) + (if VerificationStateLegal(record, candidate) then 0 else 1)
      ensures r.Done? ==>
        live == Some(if candidate then record.identity.candidateSha256 else record.identity.checkpointSha256)
      ensures faultFree && VerificationStateLegal(record, candidate)
              && live == Some(if candidate then record.identity.candidateSha256 else record.identity.checkpointSha256)
              ==> r.Done?
    {
      if !VerificationStateLegal(record, candidate) {
        illegalVerifications := illegalVerifications + 1;
        return Threw(Cause(CoordinatorError(OwnCode), OwnMessage,
                           Some(InputStage), None, None));
      }
      var expected := if candidate then record.identity.candidateSha256 else record.identity.checkpointSha256;
      var first :- ReadDigest();
      if first != Some(expected) {
        return Threw(Cause(CoordinatorError(OwnCode), OwnMessage,
                           Some(OtherStage), None, None));
      }
      var _ :- Call();
      var after :- ReadDigest();
      if after != Some(expected) {
        return Threw(Cause(CoordinatorError(OwnCode), OwnMessage,
                           Some(OtherStage), None, None));
      }
      return Done(());
    }

    /** What the reload service reports; completed and not dispatched are truthful, anything else is not evidence. */
    method ReloadService() returns (r: Attempt<DispatchEvidence, Cause>)
      modifies this`live, this`loaded
      ensures exclusive || faultFree ==> live == old(live)
      ensures loaded == old(loaded) || loaded == live
      ensures r == Done(OtherDispatch) ==> loaded == live
      ensures r == Done(NotDispatched) ==> loaded == old(loaded)
      ensures r.Done? ==> r.value == OtherDispatch || r.value == NotDispatched || r.value == OutcomeUnknown
      ensures faultFree ==> r == Done(OtherDispatch)
    {
      Meddle();
      if faultFree {
        loaded := live;
        return Done(OtherDispatch);
      }
      if * {
        return Done(NotDispatched);
      }
      if * {
        loaded := live;
        if * {
          return Done(OtherDispatch);
        }
      }
      if * {
        return Crashed;
      }
      if * {
        var c := Fault();
        return Threw(c);
      }
      return Done(OutcomeUnknown);
    }

    /**
     The reload adapter (src/phase3/reloadAdapter.ts:202-263). Its evidence is sound: an error that
     does not admit a started reload was thrown without one. OtherDispatch stands for "completed".
     */
    method ReloadDomain(target: ReloadTarget) returns (r: Attempt<(), Cause>)
      modifies this`live, this`loaded, this`reloads
      ensures exclusive || faultFree ==> live == old(live)
      ensures reloads == old(reloads) + 1
      ensures loaded == old(loaded) || loaded == live
      ensures r.Done? ==> loaded == live
      ensures r.Threw? && !ReloadMayHaveStarted(r.error) ==> loaded == old(loaded)
      ensures faultFree ==> r.Done?
    {
      reloads := reloads + 1;
      var input := Call();
      match input {
        case Crashed => return Crashed;
        case Threw(_) => return Threw(ReloadError(InputStage, NotAttempted));
        case Done(_) =>
      }
      var resolution := Call();
      match resolution {
        case Crashed => return Crashed;
        case Threw(_) => return Threw(ReloadError(ResolutionStage, NotAttempted));
        case Done(_) =>
      }
      var active := Call();
      match active {
        case Crashed => return Crashed;
        case Threw(_) => return Threw(ReloadError(OtherStage, NotAttempted));
        case Done(_) =>
      }
      var result := ReloadService();
      match result {
        case Crashed => return Crashed;
        case Threw(_) => return Threw(ReloadError(OtherStage, OutcomeUnknown));
        case Done(OtherDispatch) => return Done(());
        case Done(NotDispatched) => return Threw(ReloadError(OtherStage, NotDispatched));
        case Done(other) => return Threw(ReloadError(OtherStage, other));
      }
    }
  }

  function ReloadError(stage: StageEvidence, dispatch: DispatchEvidence): Cause {
    Cause(CoordinatorError(OwnCode), OwnMessage, Some(stage), Some(dispatch), None)
  }
}
