/** Transaction states, records and the rules for them (src/phase3/contracts.ts). */
module Phase3Contracts {
  import opened Wrappers

  /** A SHA-256 digest. Hashing is injective here, so contents are represented by their digests. */
  type Digest = string

  datatype State =
    | IntentPrepared
    | ApplyCommitted
    | PostValidationSucceeded
    | ReloadIntent
    | ReloadSucceeded
    | VerificationSucceeded
    | RollbackIntent
    | RollbackCommitted
    | RollbackValidationSucceeded
    | RollbackReloadIntent
    | RollbackReloadSucceeded
    | RollbackVerificationSucceeded
    | ManualRecoveryRequired

  predicate IsTerminal(s: State) {
    s.VerificationSucceeded? || s.RollbackVerificationSucceeded? || s.ManualRecoveryRequired?
  }

  /** src/phase3/contracts.ts:48-99 */
  function LegalTransitions(s: State): set<State> {
    match s
    case IntentPrepared => {ApplyCommitted, RollbackIntent, ManualRecoveryRequired}
    case ApplyCommitted => {PostValidationSucceeded, RollbackIntent, ManualRecoveryRequired}
    case PostValidationSucceeded => {ReloadIntent, ReloadSucceeded, RollbackIntent, ManualRecoveryRequired}
    case ReloadIntent => {ReloadSucceeded, RollbackIntent, ManualRecoveryRequired}
    case ReloadSucceeded => {VerificationSucceeded, RollbackIntent, ManualRecoveryRequired}
    case VerificationSucceeded => {}
    case RollbackIntent => {RollbackCommitted, ManualRecoveryRequired}
    case RollbackCommitted => {RollbackValidationSucceeded, ManualRecoveryRequired}
    case RollbackValidationSucceeded => {RollbackReloadIntent, RollbackVerificationSucceeded, ManualRecoveryRequired}
    case RollbackReloadIntent => {RollbackReloadSucceeded, ManualRecoveryRequired}
    case RollbackReloadSucceeded => {RollbackVerificationSucceeded, ManualRecoveryRequired}
    case RollbackVerificationSucceeded => {}
    case ManualRecoveryRequired => {}
  }

  predicate CanTransition(from: State, to: State) {
    to in LegalTransitions(from)
  }

  datatype ReloadTarget = AutomationReload | ScriptReload | SceneReload
  datatype Impact = NoImpact | DomainReload | RestartRequired
  datatype CommitStatus = BeforeCommit | Committed | CommitUnknown

  datatype FailureStage = ApplyStage | CheckpointStage | ReloadStage | RollbackStage | RecoveryStage

  /** An error code: the two that the coordinator compares with, another one of its own, or a foreign one. */
  datatype Code = CasConflict | CheckpointDigestMismatch | OwnCode | ForeignCode(text: string)

  /** A message: one of the fixed texts of the source, or a foreign one. */
  datatype Message = OwnMessage | ForeignMessage(text: string)

  datatype StructuredFailure = StructuredFailure(
    stage: FailureStage, code: Code, message: Message, commitStatus: Option<CommitStatus>, observedSha256: Option<Digest>)

  /** The length limits of the failure schema (src/phase3/contracts.ts:271-272); the fixed texts are within them. */
  predicate FailureOk(f: StructuredFailure) {
    && (f.code.ForeignCode? ==> 1 <= |f.code.text| <= 80)
    && (f.message.ForeignMessage? ==> 1 <= |f.message.text| <= 500)
  }

  /** The part of a record that never changes. */
  datatype Identity = Identity(
    transactionId: string, proposalId: string, approvalGrantId: Option<string>, proposalStorageSha256: Digest,
    path: string, expectedSha256: Digest, candidateSha256: Digest, diffSha256: Digest,
    checkpointId: string, checkpointSha256: Digest, impact: Impact, reloadTarget: Option<ReloadTarget>, createdAt: int)

  datatype Record = Record(
    identity: Identity, rollbackReloadRequired: bool, state: State, priorState: Option<State>,
    version: nat, updatedAt: int, failure: Option<StructuredFailure>)

  /** src/phase3/contracts.ts:493-517 */
  predicate ReloadContextLegal(r: Record) {
    if r.rollbackReloadRequired && r.identity.reloadTarget.None? then false
    else if r.state.ReloadIntent? then r.identity.reloadTarget.Some?
    else if r.state.RollbackReloadIntent? || r.state.RollbackReloadSucceeded?
    then r.rollbackReloadRequired && r.identity.reloadTarget.Some?
    else if r.priorState == Some(PostValidationSucceeded) && r.state.ReloadSucceeded? then r.identity.reloadTarget.None?
    else if r.priorState == Some(RollbackValidationSucceeded) && r.state.RollbackVerificationSucceeded?
    then !r.rollbackReloadRequired
    else true
  }

  /** src/phase3/contracts.ts:519-541 */
  predicate TargetBound(id: Identity) {
    id.impact.DomainReload? <==> id.reloadTarget.Some?
  }

  /** What the record schema checks beyond the types (src/phase3/contracts.ts:283-311). */
  predicate SchemaOk(r: Record) {
    TargetBound(r.identity) && ReloadContextLegal(r) && (r.failure.Some? ==> FailureOk(r.failure.value))
  }

  /** src/phase3/contracts.ts:108-143 */
  predicate CanRecordTransition(previous: Record, next: Record) {
    if !CanTransition(previous.state, next.state) then false
    else if previous.identity.reloadTarget != next.identity.reloadTarget then false
    else if previous.rollbackReloadRequired && !next.rollbackReloadRequired then false
    else if !previous.rollbackReloadRequired && next.rollbackReloadRequired && !next.state.RollbackIntent? then false
    else if next.state.RollbackIntent? then
      if previous.state.ReloadIntent? then ReloadContextLegal(next)
      else if previous.state.ReloadSucceeded? then
        next.rollbackReloadRequired == previous.identity.reloadTarget.Some? && ReloadContextLegal(next)
      else !next.rollbackReloadRequired && ReloadContextLegal(next)
    else if previous.state.PostValidationSucceeded? && next.state.ReloadIntent? then next.identity.reloadTarget.Some?
    else if previous.state.PostValidationSucceeded? && next.state.ReloadSucceeded? then next.identity.reloadTarget.None?
    else if previous.state.RollbackValidationSucceeded? && next.state.RollbackReloadIntent? then
      next.rollbackReloadRequired && next.identity.reloadTarget.Some?
    else if previous.state.RollbackValidationSucceeded? && next.state.RollbackVerificationSucceeded? then
      !next.rollbackReloadRequired
    else ReloadContextLegal(next)
  }

  /** src/phase3/applyCoordinator.ts:1038-1049 and src/phase3/journal.ts:204-212 */
  predicate IsInitial(r: Record) {
    && r.state.IntentPrepared? && r.version == 0 && r.priorState.None? && r.failure.None?
    && !r.rollbackReloadRequired && r.identity.createdAt == r.updatedAt
  }

  /** What the journal accepts as the record after another one (src/phase3/journal.ts:545-584). */
  predicate IsSuccessor(previous: Record, next: Record) {
    && previous.identity == next.identity
    && (next.rollbackReloadRequired != previous.rollbackReloadRequired ==>
          !previous.rollbackReloadRequired && next.rollbackReloadRequired && next.state.RollbackIntent?)
    && next.version == previous.version + 1 && next.priorState == Some(previous.state)
    && CanRecordTransition(previous, next)
  }

  /** A history the journal accepts when it reads it back (src/phase3/journal.ts:494-543). */
  ghost predicate ValidHistory(h: seq<Record>) {
    && (h != [] ==> IsInitial(h[0]))
    && (forall i | 0 <= i < |h| :: h[i].version == i && SchemaOk(h[i]))
    && (forall i {:trigger IsSuccessor(h[i - 1], h[i])} | 0 < i < |h| :: IsSuccessor(h[i - 1], h[i]))
  }

  // ----- Consequences of the transition rules -----

  lemma Adjacent(h: seq<Record>, i: nat)
    requires ValidHistory(h) && 0 < i < |h|
    ensures IsSuccessor(h[i - 1], h[i])
  {
  }

  /** Grows along every legal transition. */
  function Rank(s: State): nat {
    match s
    case IntentPrepared => 0
    case ApplyCommitted => 1
    case PostValidationSucceeded => 2
    case ReloadIntent => 3
    case ReloadSucceeded => 4
    case VerificationSucceeded => 5
    case RollbackIntent => 5
    case RollbackCommitted => 6
    case RollbackValidationSucceeded => 7
    case RollbackReloadIntent => 8
    case RollbackReloadSucceeded => 9
    case RollbackVerificationSucceeded => 10
    case ManualRecoveryRequired => 10
  }

  lemma {:induction false} HistoryRank(h: seq<Record>, i: nat)
    requires ValidHistory(h) && i < |h|
    ensures i <= Rank(h[i].state) <= 10
  {
    if 0 < i {
      HistoryRank(h, i - 1);
      Adjacent(h, i);
    }
  }

  /** No transaction ever has more than eleven records, far below the limit of 128. */
  lemma HistoryBounded(h: seq<Record>)
    requires ValidHistory(h)
    ensures |h| <= 11
  {
    if h != [] {
      HistoryRank(h, |h| - 1);
    }
  }

  /** What the rules imply about a record of an accepted history. */
  predicate WellFormed(r: Record) {
    && (Rank(r.state) <= 4 || r.state.VerificationSucceeded? ==> !r.rollbackReloadRequired)
    && (r.rollbackReloadRequired ==> r.identity.reloadTarget.Some?)
    && (r.state.ReloadIntent? ==> r.identity.reloadTarget.Some?)
    && (r.state.ReloadSucceeded? ==>
          r.priorState == Some(if r.identity.reloadTarget.Some? then ReloadIntent else PostValidationSucceeded))
    && (r.state.RollbackValidationSucceeded? ==> r.priorState == Some(RollbackCommitted))
    && (r.state.RollbackReloadIntent? ==> r.rollbackReloadRequired)
    && (r.state.RollbackReloadSucceeded? ==> r.priorState == Some(RollbackReloadIntent) && r.rollbackReloadRequired)
  }

  lemma {:induction false} HistoryWellFormed(h: seq<Record>, i: nat)
    requires ValidHistory(h) && i < |h|
    ensures WellFormed(h[i]) && h[i].identity == h[0].identity
  {
    if 0 < i {
      HistoryWellFormed(h, i - 1);
      Adjacent(h, i);
    }
  }

  /** A terminal record ends its history. */
  lemma TerminalIsLast(h: seq<Record>, i: nat)
    requires ValidHistory(h) && i < |h| && IsTerminal(h[i].state)
    ensures i == |h| - 1
  {
    if i + 1 < |h| {
      Adjacent(h, i + 1);
    }
  }

  /** The states in which the verification adapter may be asked (src/phase3/verificationAdapter.ts:170-192). */
  predicate VerificationStateLegal(r: Record, candidate: bool) {
    if candidate then
      && r.state.ReloadSucceeded? && !r.rollbackReloadRequired
      && ((r.identity.reloadTarget.None? && r.priorState == Some(PostValidationSucceeded))
          || (r.identity.reloadTarget.Some? && r.priorState == Some(ReloadIntent)))
    else
      || (r.state.RollbackValidationSucceeded? && r.priorState == Some(RollbackCommitted) && !r.rollbackReloadRequired)
      || (r.state.RollbackReloadSucceeded? && r.priorState == Some(RollbackReloadIntent) && r.rollbackReloadRequired
          && r.identity.reloadTarget.Some?)
  }

  // ----- Recovery -----

  datatype DigestClass = ExpectedOrCheckpoint | Candidate | OtherOrMissing

  /** src/phase3/applyCoordinator.ts:924-933 */
  function ClassifyDigest(r: Record, current: Option<Digest>): DigestClass {
    if current.None? then OtherOrMissing
    else if current.value == r.identity.candidateSha256 then Candidate
    else if current.value == r.identity.expectedSha256 || current.value == r.identity.checkpointSha256 then ExpectedOrCheckpoint
    else OtherOrMissing
  }

  datatype RecoveryAction =
    | RolledBackNoLiveEffect
    | Rollback
    | RollbackWithReloadRequired
    | CompleteRollbackValidationVerification
    | CompleteRollbackValidationReloadVerification
    | CompleteRollbackReloadOrVerification
    | CompleteRollbackVerification
    | ManualRequired
    | VerifiedNoEffect
    | RolledBackNoEffect
    | ExternalManualNoTransition
    | NoEffect

  /** An unknown or missing file always needs a human. */
  function ByDigest(d: DigestClass, candidate: RecoveryAction, checkpoint: RecoveryAction): RecoveryAction {
    match d
    case Candidate => candidate
    case ExpectedOrCheckpoint => checkpoint
    case OtherOrMissing => ManualRequired
  }

  /** src/phase3/contracts.ts:379-441 */
  function RecoveryTable(s: State, d: DigestClass): RecoveryAction {
    match s
    case IntentPrepared => ByDigest(d, Rollback, RolledBackNoLiveEffect)
    case ApplyCommitted => ByDigest(d, Rollback, CompleteRollbackValidationVerification)
    case PostValidationSucceeded => ByDigest(d, Rollback, CompleteRollbackValidationVerification)
    case ReloadIntent => ByDigest(d, RollbackWithReloadRequired, CompleteRollbackValidationReloadVerification)
    case ReloadSucceeded => ByDigest(d, RollbackWithReloadRequired, CompleteRollbackValidationReloadVerification)
    case RollbackIntent => ByDigest(d, Rollback, CompleteRollbackValidationVerification)
    case RollbackCommitted => ByDigest(d, ManualRequired, CompleteRollbackValidationVerification)
    case RollbackValidationSucceeded => ByDigest(d, ManualRequired, CompleteRollbackReloadOrVerification)
    case RollbackReloadIntent => ManualRequired
    case RollbackReloadSucceeded => ByDigest(d, ManualRequired, CompleteRollbackVerification)
    case VerificationSucceeded => if d.Candidate? then VerifiedNoEffect else ExternalManualNoTransition
    case RollbackVerificationSucceeded => if d.ExpectedOrCheckpoint? then RolledBackNoEffect else ExternalManualNoTransition
    case ManualRecoveryRequired => NoEffect
  }

  /** How many reloads of the checkpoint an action of the recovery table names for a record. */
  function NamedReloads(action: RecoveryAction, r: Record): nat {
    match action
    case RollbackWithReloadRequired => 1
    case CompleteRollbackValidationReloadVerification => 1
    case CompleteRollbackReloadOrVerification => if r.rollbackReloadRequired then 1 else 0
    case _ => 0
  }
}
