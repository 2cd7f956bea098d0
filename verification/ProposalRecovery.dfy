/**
 The write-ahead journal of proposal mutations and its reconciliation at startup
 (src/proposals/proposalService.ts, storage.ts, phase2Audit.ts). A proposal's content never changes
 under its identifier, so its stored value is represented by its state. Each write takes effect at one
 moment; it may fail with or without effect, and the process may crash before or after it, and leave
 temporary files or the beginning of an audit record behind. A scan that cannot read a file, or finds a
 temporary one, fails, and moves the file to the quarantine.
 */
module ProposalRecovery {
  import opened Wrappers

  datatype ProposalState = Pending | Discarded | Expired

  datatype Tool = Propose | Discard

  datatype Phase = Prepared | EffectCommitted | OutcomeCommitted

  datatype Journal = Journal(tool: Tool, proposal: string, phase: Phase)

  datatype Verdict = Succeeded | Failed | Unconfirmed | Reconciled

  datatype Request = ProposeNew(proposal: string) | DiscardOld(proposal: string) | Read

  /** An error tells whether the write that failed took effect. */
  type Ending = Attempt<(), bool>

  type Store = map<string, ProposalState>

  /**
   What interrupted writes have left: temporary files and empty placeholders (src/proposals/storage.ts:208-248), and
   an audit record that ends right behind a closing brace, but has no end of line. That one the next start does not
   dare to remove (src/proposals/phase2Audit.ts:216-262); any other beginning of a record goes without a trace.
   */
  datatype Debris = Debris(proposals: nat, journals: nat, tail: bool)

  function Files(d: Debris): nat {
    d.proposals + d.journals
  }

  predicate Clean(d: Debris) {
    Files(d) == 0 && !d.tail
  }

  function Current(store: Store, proposal: string): Option<ProposalState> {
    if proposal in store then Some(store[proposal]) else None
  }

  function JournalOf(journals: map<string, Journal>, op: string): Option<Journal> {
    if op in journals then Some(journals[op]) else None
  }

  function Before(j: Journal): Option<ProposalState> {
    if j.tool.Propose? then None else Some(Pending)
  }

  function After(j: Journal): ProposalState {
    if j.tool.Propose? then Pending else Discarded
  }

  predicate Committed(store: Store, j: Journal) {
    Current(store, j.proposal) == Some(After(j))
  }

  /** src/proposals/proposalService.ts:573-592 */
  predicate Ambiguous(store: Store, j: Journal) {
    !Committed(store, j) && (Current(store, j.proposal) != Before(j) || !j.phase.Prepared?)
  }

  /**
   What a journal and the store have in common, given whether the operation wrote its effect, and whether its
   proposal has been lost to the quarantine.
   */
  predicate JournalSound(store: Store, j: Journal, wrote: bool, lost: bool) {
    if lost then j.proposal !in store && (j.tool.Propose? ==> wrote)
    else
      && (wrote || j.phase.Prepared? || (j.tool.Discard? && Committed(store, j)))
      && (if j.tool.Propose? then j.proposal in store <==> wrote
          else j.proposal in store && (wrote ==> store[j.proposal] == Discarded))
  }

  /** The new proposal is no longer pending, or the one to be discarded has expired. */
  predicate MovedOn(store: Store, j: Journal) {
    && j.proposal in store
    && (if j.tool.Propose? then store[j.proposal] != Pending else store[j.proposal] == Expired)
  }

  /** The proposal is not there, although it should be discarded or has already been written. */
  predicate Missing(store: Store, j: Journal) {
    j.proposal !in store && (j.tool.Discard? || !j.phase.Prepared?)
  }

  /**
   A leftover journal is ambiguous exactly if its proposal has moved on since, or is missing, and then it has been
   lost to the quarantine. Only the loss of a new proposal gets past the first of the two checks.
   */
  lemma AmbiguousIffMovedOn(store: Store, j: Journal, wrote: bool, lost: bool)
    requires JournalSound(store, j, wrote, lost)
    ensures Ambiguous(store, j) <==> MovedOn(store, j) || Missing(store, j)
    ensures Missing(store, j) <==> lost && (j.tool.Discard? || !j.phase.Prepared?)
    ensures Ambiguous(store, j) && Current(store, j.proposal) == Before(j) <==> lost && j.tool.Propose? && !j.phase.Prepared?
  {
  }

  /** No leftover journal stops a start: no proposal has moved on, or is missing. */
  ghost predicate Startable(store: Store, journals: map<string, Journal>) {
    forall op | op in journals :: !MovedOn(store, journals[op]) && !Missing(store, journals[op])
  }

  /**
   A pending proposal that is discarded or expires makes a journal ambiguous exactly if it is the journal's own
   proposal, unless a discard finds itself done by another one.
   */
  lemma WhatMakesAmbiguous(store: Store, j: Journal, wrote: bool, lost: bool, proposal: string, after: ProposalState)
    requires JournalSound(store, j, wrote, lost) && Current(store, proposal) == Some(Pending) && after != Pending
    ensures Ambiguous(store[proposal := after], j) <==>
            Ambiguous(store, j) || (proposal == j.proposal && (after.Expired? || j.tool.Propose?))
  {
  }

  /** A proposal that goes to the quarantine makes its own journals ambiguous, unless its creation is not marked. */
  lemma LossMakesAmbiguous(store: Store, j: Journal, wrote: bool, lost: bool, proposal: string)
    requires JournalSound(store, j, wrote, lost) && proposal in store
    ensures JournalSound(store - {proposal}, j, wrote, lost || proposal == j.proposal)
    ensures Ambiguous(store - {proposal}, j) <==>
            if proposal == j.proposal then j.tool.Discard? || !j.phase.Prepared? else Ambiguous(store, j)
  {
  }

  /**
   What an audit verdict says about the operation: whether it wrote its effect, had nothing to write,
   could not read its journal back after writing, or lost its journal or its proposal to the quarantine.
   */
  predicate Truthful(v: Verdict, wrote: bool, idle: bool, unread: bool, lost: bool) {
    match v
    case Failed => wrote ==> unread || lost
    case Succeeded => wrote || idle
    case Unconfirmed => wrote
    case Reconciled => wrote
  }

  /** An operation that wrote is never reported as failed, and any other always is, unless it had nothing to write. */
  predicate Faithful(v: Verdict, wrote: bool, idle: bool) {
    if wrote then !v.Failed? else v.Failed? || (idle && v.Succeeded?)
  }

  /** What is known of one operation; the last four are not on the disk. */
  datatype Trace = Trace(journal: Option<Journal>, outcome: Option<Verdict>, attempted: bool, wrote: bool, idle: bool,
                         unread: bool, lost: bool)

  predicate Sound(store: Store, t: Trace, crashOnly: bool) {
    && (t.outcome.Some? ==> t.attempted && Truthful(t.outcome.value, t.wrote, t.idle, t.unread, t.lost))
    && (t.journal.Some? ==> t.attempted && JournalSound(store, t.journal.value, t.wrote, t.lost))
    && (t.journal.Some? && t.outcome.None? && !t.wrote ==> !Committed(store, t.journal.value))
    && (t.wrote ==> t.outcome.Some? || t.journal.Some? || t.lost)
    && (t.idle || t.unread || t.lost ==> t.attempted)
    && (crashOnly ==> !t.unread && !t.lost && (t.journal.Some? ==> !Ambiguous(store, t.journal.value)))
  }

  ghost predicate Extends<V>(m: map<string, V>, m': map<string, V>) {
    forall op | op in m :: op in m' && m'[op] == m[op]
  }

  /** The operation wrote what its journal announces, and nothing else, or did not write. */
  ghost predicate Effected(op: string, j: Journal, store: Store, store': Store, writes: set<string>, writes': set<string>) {
    if op in writes' then store' == store[j.proposal := After(j)] && writes' == writes + {op}
    else store' == store && writes' == writes
  }

  /** No proposal disappears, except into the quarantine, and nothing leaves that. */
  ghost predicate Conserved(store: Store, quarantine: set<string>, store': Store, quarantine': set<string>) {
    quarantine <= quarantine' && forall p | p in store :: p in store' || p in quarantine'
  }

  /** One of the files that interrupted writes have left has gone to the quarantine. */
  predicate OneFileLess(d: Debris, d': Debris) {
    d'.tail == d.tail && Files(d') == Files(d) - 1
  }

  /** Proposals may go, but do not change. */
  ghost predicate Shrinks(store: Store, store': Store) {
    forall p | p in store' :: p in store && store'[p] == store[p]
  }

  /** A start reports an operation as reconciled exactly if it found its journal with the effect in the store. */
  ghost predicate Verdicts(outcomes: map<string, Verdict>, outcomes': map<string, Verdict>, store: Store,
                           journals: map<string, Journal>)
  {
    forall op | op in outcomes' && op !in outcomes ::
      outcomes'[op] == if op in journals && Committed(store, journals[op]) then Reconciled else Failed
  }

  /** Outcomes stay, and new ones are failures. */
  ghost predicate Settles(outcomes: map<string, Verdict>, outcomes': map<string, Verdict>) {
    Extends(outcomes, outcomes') && forall op | op in outcomes' && op !in outcomes :: outcomes'[op].Failed?
  }

  lemma VerdictsSettled(before: map<string, Verdict>, between: map<string, Verdict>, after: map<string, Verdict>,
                        store: Store, journals: map<string, Journal>)
    requires Extends(before, between) && Verdicts(before, between, store, journals) && Settles(between, after)
    requires forall op | op in journals :: op in between
    ensures Extends(before, after) && Verdicts(before, after, store, journals)
  {
  }

  lemma OneFewer<T>(all: set<T>, done: set<T>, one: T)
    ensures all - (done + {one}) == all - done - {one}
  {
  }

  /** Nothing but expiry of pending proposals. */
  ghost predicate Aged(store: Store, store': Store) {
    && (forall p :: p in store' <==> p in store)
    && (forall p | p in store :: store'[p] == store[p] || (store[p] == Pending && store'[p] == Expired))
  }

  /** The write is the one that the operation's journal announces; a new proposal is in no other journal. */
  predicate Performs(journals: map<string, Journal>, op: string, proposal: string, before: Option<ProposalState>,
                     after: ProposalState)
  {
    && op in journals && journals[op].phase.Prepared? && journals[op].proposal == proposal
    && before == Before(journals[op]) && after == After(journals[op])
    && (before.None? ==> forall other | other in journals && other != op :: journals[other].proposal != proposal)
  }

  /** A discard that was caught failing: the next start succeeds, but not after the proposal has expired. */
  lemma RefusedStart() returns (t: Trace, before: Store, after: Store)
    ensures t == Trace(Some(Journal(Discard, "p", Prepared)), Some(Failed), true, false, false, false, false)
    ensures before == map["p" := Pending] && after == before["p" := Expired]
    ensures Sound(before, t, false) && !Ambiguous(before, t.journal.value)
    ensures Sound(after, t, false) && Ambiguous(after, t.journal.value)
  {
    t := Trace(Some(Journal(Discard, "p", Prepared)), Some(Failed), true, false, false, false, false);
    before := map["p" := Pending];
    after := before["p" := Expired];
  }

  /** A proposal that is stored although its operation was reported as failed: the journals could not be read back. */
  lemma FailedButWritten() returns (t: Trace, store: Store)
    ensures Sound(store, t, false) && t.outcome == Some(Failed) && t.wrote && t.unread
    ensures t.journal == Some(Journal(Propose, "p", EffectCommitted)) && Current(store, "p") == Some(Pending)
    ensures !Ambiguous(store, t.journal.value)
  {
    t := Trace(Some(Journal(Propose, "p", EffectCommitted)), Some(Failed), true, true, false, true, false);
    store := map["p" := Pending];
  }

  /** A proposal that was written and then went to the quarantine: no start accepts its journal, although it has not moved on. */
  lemma RefusedForGood() returns (t: Trace)
    ensures t == Trace(Some(Journal(Propose, "p", EffectCommitted)), Some(Succeeded), true, true, false, false, true)
    ensures Sound(map["p" := Pending], t.(lost := false), false) && !Ambiguous(map["p" := Pending], t.journal.value)
    ensures Sound(map[], t, false) && Ambiguous(map[], t.journal.value)
    ensures !MovedOn(map[], t.journal.value) && Current(map[], "p") == Before(t.journal.value)
  {
    t := Trace(Some(Journal(Propose, "p", EffectCommitted)), Some(Succeeded), true, true, false, false, true);
  }

  /** The maps are the same, except perhaps for this operation. */
  ghost predicate Elsewhere<V>(op: string, m: map<string, V>, m': map<string, V>) {
    forall other | other != op :: (other in m' <==> other in m) && (other in m ==> m'[other] == m[other])
  }

  /** The proposal was what it should have been, and is now replaced, by the operation if there is one. */
  ghost predicate Put(op: Option<string>, proposal: string, before: Option<ProposalState>, after: ProposalState,
                      store: Store, store': Store, writes: set<string>, writes': set<string>) {
    && Current(store, proposal) == before && store' == store[proposal := after]
    && writes' == writes + if op.Some? then {op.value} else {}
  }

  class ProposalService {
    // durable
    var store: Store
    var journals: map<string, Journal>
    /** The proposals that have been moved to the quarantine. */
    var quarantine: set<string>
    var debris: Debris
    var attempts: set<string>
    var outcomes: map<string, Verdict>
    // volatile
    var auditHealthy: bool
    var storeHealthy: bool
    var ready: bool
    /** Writes and reads never fail, although the process may crash. */
    const crashOnly: bool
    /** For the time being there are no failures and no crashes. */
    var calm: bool
    ghost var writes: set<string>
    ghost var idle: set<string>
    ghost var unread: set<string>
    ghost var lost: set<string>

    constructor (crashOnly: bool)
      ensures Valid() && this.crashOnly == crashOnly
      ensures store == map[] && journals == map[] && attempts == {} && outcomes == map[] && Clean(debris)
    {
      store, journals, attempts, outcomes := map[], map[], {}, map[];
      auditHealthy, storeHealthy, ready, calm := false, false, false, false;
      this.crashOnly := crashOnly;
      writes, idle, unread, lost, quarantine, debris := {}, {}, {}, {}, {}, Debris(0, 0, false);
    }

    ghost function View(op: string): Trace
      reads this`journals, this`outcomes, this`attempts, this`writes, this`idle, this`unread, this`lost
    {
      Trace(JournalOf(journals, op), if op in outcomes then Some(outcomes[op]) else None,
            op in attempts, op in writes, op in idle, op in unread, op in lost)
    }

    /** What the disk looks like at every moment, however the process dies. */
    ghost predicate Valid()
      reads this`store, this`journals, this`outcomes, this`attempts, this`writes, this`idle, this`unread, this`lost
    {
      forall op {:trigger op in attempts} {:trigger View(op)} :: Sound(store, View(op), crashOnly)
    }

    /** Between operations every attempt has its outcome, unless the audit has failed. */
    ghost predicate Quiet()
      reads this`attempts, this`outcomes, this`journals, this`debris, this`auditHealthy, this`storeHealthy
    {
      && (auditHealthy ==> attempts <= outcomes.Keys)
      && (crashOnly ==> auditHealthy && storeHealthy && journals == map[] && Clean(debris))
    }

    /** The operation is the one under way. */
    ghost predicate InFlight(op: string)
      reads this
    {
      && Valid() && op in attempts && op !in writes && op !in idle && op !in outcomes && op !in journals
      && auditHealthy && Alone(op) && op !in lost
      && (crashOnly ==> storeHealthy && journals == map[] && Clean(debris))
    }

    /** A new identifier is one that nothing has used before. */
    predicate Unused(proposal: string)
      reads this`store, this`quarantine, this`journals
    {
      proposal !in store && proposal !in quarantine && forall op | op in journals :: journals[op].proposal != proposal
    }

    /** Journals of other operations are leftovers, whose outcome is recorded. */
    ghost predicate Alone(op: string)
      reads this`journals, this`outcomes
    {
      forall other | other in journals && other != op :: !crashOnly && other in outcomes
    }

    /** What is not interrupted leaves nothing behind. */
    ghost predicate Tidy(r: Ending, before: Debris)
      reads this`debris
    {
      r.Done? || (r.Threw? && crashOnly) ==> debris == before
    }

    // ----- Ports -----

    method MayCrash() returns (r: Ending)
      modifies this`ready
      ensures calm ==> r.Done?
      ensures !r.Threw?
      ensures ready == (if r.Crashed? then false else old(ready))
    {
      if !calm {
        if * {
          ready := false;
          return Crashed;
        }
      }
      return Done(());
    }

    /** A failing append leaves the audit unhealthy, whether or not the record was written. */
    method Append() returns (happens: bool, r: Ending)
      modifies this`auditHealthy, this`ready, this`debris
      ensures r.Done? ==> happens
      ensures Tidy(r, old(debris))
      ensures auditHealthy == (if r.Threw? then false else old(auditHealthy))
      ensures crashOnly || calm ==> !r.Threw?
      ensures calm ==> !r.Crashed?
      ensures ready == (if r.Crashed? then false else old(ready))
    {
      happens := *;
      r := MayCrash();
      if r.Done? {
        var fails: bool := *;
        if fails && !crashOnly && !calm {
          auditHealthy := false;
          r := Threw(false);
        } else {
          happens := true;
        }
      }
      var cut: bool := *;
      if !r.Done? && !happens && cut && !(crashOnly && r.Threw?) {
        debris := debris.(tail := true);
      }
    }

    method AppendAttempt(op: string) returns (r: Ending)
      requires Valid()
      modifies this`attempts, this`auditHealthy, this`ready, this`debris
      ensures Valid() && Tidy(r, old(debris))
      ensures r.Done? ==> attempts == old(attempts) + {op} && op !in old(attempts) && op !in outcomes && auditHealthy
      ensures attempts == old(attempts) || (op !in old(attempts) && op !in outcomes && attempts == old(attempts) + {op})
      ensures r.Threw? ==> !auditHealthy && (attempts != old(attempts) ==> !crashOnly)
      ensures auditHealthy ==> old(auditHealthy)
      ensures (crashOnly || calm) && old(auditHealthy) && op !in old(attempts) && op !in outcomes ==> !r.Threw?
      ensures calm ==> !r.Crashed?
      ensures ready == (if r.Crashed? then false else old(ready))
    {
      if !auditHealthy || op in attempts || op in outcomes {
        auditHealthy := false;
        return Threw(false);
      }
      var happens: bool;
      happens, r := Append();
      if happens {
        attempts := attempts + {op};
      }
    }

    /** src/proposals/phase2Audit.ts:292-337 */
    method AppendOutcome(op: string, v: Verdict) returns (r: Ending)
      requires Valid() && (auditHealthy ==> Truthful(v, op in writes, op in idle, op in unread, op in lost))
      modifies this`outcomes, this`auditHealthy, this`ready, this`debris
      ensures Valid() && Tidy(r, old(debris))
      ensures r.Done? ==> outcomes == old(outcomes)[op := v] && op in attempts && op !in old(outcomes)
      ensures outcomes == old(outcomes) || (op in attempts && op !in old(outcomes) && outcomes == old(outcomes)[op := v])
      ensures r.Threw? ==> !auditHealthy
      ensures !r.Threw? ==> auditHealthy == old(auditHealthy)
      ensures (crashOnly || calm) && old(auditHealthy) && op in attempts && op !in old(outcomes) ==> !r.Threw?
      ensures calm ==> !r.Crashed?
      ensures ready == (if r.Crashed? then false else old(ready))
    {
      if !auditHealthy || op !in attempts || op in outcomes {
        auditHealthy := false;
        return Threw(false);
      }
      var happens: bool;
      happens, r := Append();
      if happens {
        RecordOutcome(op, v);
      }
    }

    method RecordOutcome(op: string, v: Verdict)
      requires Valid() && op in attempts && op !in outcomes && Truthful(v, op in writes, op in idle, op in unread, op in lost)
      modifies this`outcomes
      ensures Valid() && outcomes == old(outcomes)[op := v]
    {
      forall other ensures Sound(store, View(other).(outcome := if other == op then Some(v) else View(other).outcome), crashOnly) {
        assert Sound(store, View(other), crashOnly);
      }
      outcomes := outcomes[op := v];
    }

    /** A scan; a failing one closes the store until the next start. It fails if there is something in its way. */
    method Scan(blocked: bool) returns (r: Ending)
      modifies this`storeHealthy, this`ready
      ensures !r.Threw? ==> storeHealthy == old(storeHealthy)
      ensures (crashOnly || calm) && old(storeHealthy) && !blocked ==> !r.Threw? && storeHealthy
      ensures blocked ==> !r.Done?
      ensures calm ==> !r.Crashed?
      ensures ready == (if r.Crashed? then false else old(ready))
    {
      if !storeHealthy {
        return Threw(false);
      }
      var _ :- MayCrash();
      var fails: bool := *;
      if blocked || (fails && !crashOnly && !calm) {
        storeHealthy := false;
        return Threw(false);
      }
      return Done(());
    }

    /** The operations whose leftover journals are about the proposal. */
    ghost function Concerned(proposal: string): set<string>
      reads this`journals
    {
      set op | op in journals && journals[op].proposal == proposal
    }

    /** One proposal has gone to the quarantine. */
    twostate predicate ProposalLost()
      reads this`store, this`quarantine, this`lost
    {
      exists p :: p in old(store) && store == old(store) - {p} && quarantine == old(quarantine) + {p}
                  && lost == old(lost) + old(Concerned(p))
    }

    /**
     A scan of the proposals. A file that cannot be read or parsed goes to the quarantine, unless that fails; so
     does a temporary file or a placeholder (src/proposals/storage.ts:460-494, 685-729).
     */
    method ScanProposals() returns (r: Ending)
      requires Valid()
      modifies this`store, this`quarantine, this`lost, this`debris, this`storeHealthy, this`ready
      ensures Valid() && (!r.Threw? ==> storeHealthy == old(storeHealthy) || r.Crashed?)
      ensures (store == old(store) && quarantine == old(quarantine) && lost == old(lost)) || (ProposalLost() && !r.Done?)
      ensures debris == old(debris) || (!r.Done? && 0 < old(debris).proposals
                                        && debris == old(debris).(proposals := old(debris).proposals - 1))
      ensures (crashOnly || calm) && old(storeHealthy) && r.Threw? ==> debris != old(debris)
      ensures (crashOnly || calm) && old(storeHealthy) && old(debris).proposals == 0 ==> storeHealthy
      ensures r.Done? ==> debris.proposals == 0
      ensures crashOnly || calm ==> store == old(store) && lost == old(lost)
      ensures calm ==> !r.Crashed?
      ensures ready == (if r.Crashed? then false else old(ready))
    {
      var healthy := storeHealthy;
      r := Scan(debris.proposals > 0);
      var moved: bool := *;
      if healthy && r.Threw? {
        if debris.proposals > 0 && (crashOnly || calm || moved) {
          debris := debris.(proposals := debris.proposals - 1);
        } else if moved && store.Keys != {} {
          var p :| p in store;
          LoseProposal(p);
        }
        var _ :- MayCrash();
      }
    }

    method LoseProposal(p: string)
      requires Valid() && p in store && !crashOnly
      modifies this`store, this`quarantine, this`lost
      ensures Valid() && ProposalLost()
    {
      forall op ensures Sound(store - {p}, View(op).(lost := op in lost + Concerned(p)), crashOnly) {
        assert Sound(store, View(op), crashOnly);
        if op in journals {
          LossMakesAmbiguous(store, journals[op], op in writes, op in lost, p);
        }
      }
      lost := lost + Concerned(p);
      quarantine, store := quarantine + {p}, store - {p};
    }

    /** One journal has gone to the quarantine. */
    twostate predicate JournalLost()
      reads this`journals, this`lost
    {
      exists op :: op in old(journals) && journals == old(journals) - {op} && lost == old(lost) + {op}
    }

    /** A scan of the journals, likewise (src/proposals/storage.ts:547-581, 685-729). */
    method ScanJournals() returns (r: Ending)
      requires Valid()
      modifies this`journals, this`lost, this`debris, this`storeHealthy, this`ready
      ensures Valid() && (!r.Threw? ==> storeHealthy == old(storeHealthy) || r.Crashed?)
      ensures (journals == old(journals) && lost == old(lost)) || (JournalLost() && !r.Done?)
      ensures debris == old(debris) || (!r.Done? && 0 < old(debris).journals
                                        && debris == old(debris).(journals := old(debris).journals - 1))
      ensures (crashOnly || calm) && old(storeHealthy) && r.Threw? ==> debris != old(debris)
      ensures (crashOnly || calm) && old(storeHealthy) && old(debris).journals == 0 ==> storeHealthy
      ensures r.Done? ==> debris.journals == 0
      ensures crashOnly || calm ==> journals == old(journals) && lost == old(lost)
      ensures calm ==> !r.Crashed?
      ensures ready == (if r.Crashed? then false else old(ready))
    {
      var healthy := storeHealthy;
      r := Scan(debris.journals > 0);
      var moved: bool := *;
      if healthy && r.Threw? {
        if debris.journals > 0 && (crashOnly || calm || moved) {
          debris := debris.(journals := debris.journals - 1);
        } else if moved && journals.Keys != {} {
          var op :| op in journals;
          LoseJournal(op);
        }
        var _ :- MayCrash();
      }
    }

    method LoseJournal(op: string)
      requires Valid() && op in journals && !crashOnly
      modifies this`journals, this`lost
      ensures Valid() && JournalLost()
    {
      assert Sound(store, View(op), crashOnly);
      journals := journals - {op};
      lost := lost + {op};
    }

    /** A write: not at all, or completely, and then perhaps without confirmation. */
    method Write() returns (happens: bool, r: Ending)
      modifies this`ready
      ensures r.Done? ==> happens && storeHealthy
      ensures r.Threw? ==> happens == r.error
      ensures (crashOnly || calm) && storeHealthy ==> !r.Threw?
      ensures calm ==> !r.Crashed?
      ensures ready == (if r.Crashed? then false else old(ready))
    {
      if !storeHealthy {
        return false, Threw(false);
      }
      happens := *;
      r := MayCrash();
      if r.Done? {
        var fails: bool := *;
        if fails && !crashOnly && !calm {
          r := Threw(happens);
        } else {
          happens := true;
        }
      }
    }

    /** A write that is cut short, or fails to clean up after itself, leaves its temporary file, and its placeholder. */
    method Litter(happens: bool, r: Ending, creates: bool) returns (left: nat)
      ensures r.Done? || (r.Threw? && crashOnly) ==> left == 0
      ensures left <= if happens then 0 else if creates then 2 else 1
    {
      left := *;
      if r.Done? || (r.Threw? && crashOnly) || happens {
        left := 0;
      } else if left > 1 {
        left := if creates then 2 else 1;
      }
    }

    /** Creates or replaces a proposal, if it is still what it was. */
    method PutProposal(ghost op: Option<string>, proposal: string, before: Option<ProposalState>, after: ProposalState)
      returns (r: Ending)
      requires Valid() && before != Some(after)
      requires if op.None? then before == Some(Pending) && after == Expired && (crashOnly ==> journals == map[])
               else op.value !in outcomes && op.value !in lost && Performs(journals, op.value, proposal, before, after) && Alone(op.value)
      modifies this`store, this`writes, this`ready, this`debris
      ensures Valid() && Tidy(r, old(debris))
      ensures r.Done? || (r.Threw? && r.error) ==>
                Put(op, proposal, before, after, old(store), store, old(writes), writes)
      ensures r.Threw? && !r.error ==> store == old(store) && writes == old(writes)
      ensures (store == old(store) && writes == old(writes))
              || Put(op, proposal, before, after, old(store), store, old(writes), writes)
      ensures (crashOnly || calm) && storeHealthy && Current(old(store), proposal) == before ==> !r.Threw?
      ensures calm ==> !r.Crashed?
      ensures ready == (if r.Crashed? then false else old(ready))
    {
      if Current(store, proposal) != before {
        return Threw(false);
      }
      var happens: bool;
      happens, r := Write();
      var left := Litter(happens, r, before.None?);
      debris := debris.(proposals := debris.proposals + left);
      if happens {
        StoreProposal(op, proposal, before, after);
      }
    }

    method StoreProposal(ghost op: Option<string>, proposal: string, ghost before: Option<ProposalState>, after: ProposalState)
      requires Valid() && before != Some(after) && Current(store, proposal) == before
      requires if op.None? then before == Some(Pending) && after == Expired && (crashOnly ==> journals == map[])
               else op.value !in outcomes && op.value !in lost && Performs(journals, op.value, proposal, before, after)
                    && Alone(op.value)
      modifies this`store, this`writes
      ensures Valid() && Put(op, proposal, before, after, old(store), store, old(writes), writes)
    {
      store := store[proposal := after];
      writes := writes + if op.Some? then {op.value} else {};
    }

    method PutJournal(op: string, before: Option<Journal>, after: Journal) returns (r: Ending)
      requires Valid() && Sound(store, View(op).(journal := Some(after)), crashOnly)
      modifies this`journals, this`ready, this`debris
      ensures Valid() && Tidy(r, old(debris))
      ensures r.Done? || (r.Threw? && r.error) ==> journals == old(journals)[op := after]
      ensures r.Threw? && !r.error ==> journals == old(journals)
      ensures journals == old(journals) || journals == old(journals)[op := after]
      ensures (crashOnly || calm) && storeHealthy && before == JournalOf(old(journals), op) ==> !r.Threw?
      ensures calm ==> !r.Crashed?
      ensures ready == (if r.Crashed? then false else old(ready))
    {
      if before != JournalOf(journals, op) {
        return Threw(false);
      }
      var happens: bool;
      happens, r := Write();
      var left := Litter(happens, r, before.None?);
      debris := debris.(journals := debris.journals + left);
      if happens {
        journals := journals[op := after];
      }
    }

    method RemoveJournal(op: string, journal: Journal) returns (r: Ending)
      requires Valid() && op in outcomes
      modifies this`journals, this`ready
      ensures Valid()
      ensures r.Done? ==> journals == old(journals) - {op}
      ensures journals == old(journals) || journals == old(journals) - {op}
      ensures (crashOnly || calm) && storeHealthy && op in old(journals) && old(journals)[op] == journal ==> !r.Threw?
      ensures calm ==> !r.Crashed?
      ensures ready == (if r.Crashed? then false else old(ready))
    {
      if op !in journals || journals[op] != journal {
        return Threw(false);
      }
      var happens: bool;
      happens, r := Write();
      if happens {
        journals := journals - {op};
      }
    }

    // ----- A mutation -----

    /** src/proposals/proposalService.ts:482-510, until the journal is marked */
    method WriteEffect(op: string, journal: Journal) returns (r: Ending)
      requires InFlight(op) && journal.phase.Prepared? && Current(store, journal.proposal) == Before(journal)
      requires journal.tool.Propose? ==> Unused(journal.proposal)
      modifies this`store, this`writes, this`journals, this`outcomes, this`auditHealthy, this`ready, this`debris
      ensures Tidy(r, old(debris)) && Valid() && (op in journals ==> journals[op] == journal)
      ensures Effected(op, journal, old(store), store, old(writes), writes)
      ensures r.Done? ==> op in journals && op in writes && op !in outcomes && auditHealthy
      ensures r.Threw? && auditHealthy ==> (op in outcomes <==> op in writes)
      ensures Elsewhere(op, old(journals), journals) && Elsewhere(op, old(outcomes), outcomes)
      ensures crashOnly ==> !r.Threw? && auditHealthy
      ensures ready == (if r.Crashed? then false else old(ready))
    {
      var _ :- PutJournal(op, None, journal);
      r := PutProposal(Some(op), journal.proposal, Before(journal), After(journal));
      if r.Threw? && r.error {
        var _ :- AppendOutcome(op, Unconfirmed);
      }
    }

    /** The journal is marked; if that fails, the effect is reported as unconfirmed (src/proposals/proposalService.ts:508-529). */
    method MarkEffect(op: string, journal: Journal) returns (r: Ending)
      requires Valid() && auditHealthy && JournalOf(journals, op) == Some(journal) && journal.phase.Prepared?
      requires op in writes && op !in outcomes && op !in lost && (crashOnly ==> storeHealthy)
      modifies this`journals, this`outcomes, this`auditHealthy, this`ready, this`debris
      ensures Valid() && Tidy(r, old(debris))
      ensures r.Done? ==> op in journals && op !in outcomes && auditHealthy
      ensures r.Threw? && auditHealthy ==> op in outcomes
      ensures Elsewhere(op, old(journals), journals) && Elsewhere(op, old(outcomes), outcomes)
      ensures crashOnly ==> !r.Threw? && auditHealthy
      ensures ready == (if r.Crashed? then false else old(ready))
    {
      r := PutJournal(op, Some(journal), journal.(phase := EffectCommitted));
      if r.Threw? && op !in outcomes {
        var _ :- AppendOutcome(op, Unconfirmed);
      }
    }

    /** src/proposals/proposalService.ts:476-530 */
    method CommitMutation(op: string, tool: Tool, proposal: string) returns (r: Ending)
      requires InFlight(op) && Current(store, proposal) == Before(Journal(tool, proposal, Prepared))
      requires tool.Propose? ==> Unused(proposal)
      modifies this`store, this`writes, this`journals, this`outcomes, this`auditHealthy, this`ready, this`debris
      ensures Tidy(r, old(debris)) && Valid() && Effected(op, Journal(tool, proposal, Prepared), old(store), store, old(writes), writes)
      ensures r.Done? ==> op in journals && op in writes && op !in outcomes && auditHealthy
      ensures r.Threw? && auditHealthy ==> (op in outcomes <==> op in writes)
      ensures Elsewhere(op, old(journals), journals) && Elsewhere(op, old(outcomes), outcomes)
      ensures crashOnly ==> !r.Threw? && auditHealthy
      ensures ready == (if r.Crashed? then false else old(ready))
    {
      var journal := Journal(tool, proposal, Prepared);
      var _ :- WriteEffect(op, journal);
      r := MarkEffect(op, journal);
    }

    /** Marks the journal as done and removes it (src/proposals/proposalService.ts:555-561, 614-621). */
    method Close(op: string) returns (r: Ending)
      requires Valid() && op in journals && op in outcomes && (op in writes || Committed(store, journals[op]))
      modifies this`journals, this`ready, this`debris
      ensures Tidy(r, old(debris)) && Valid() && Elsewhere(op, old(journals), journals)
      ensures r.Done? ==> journals == old(journals) - {op}
      ensures (crashOnly || calm) && storeHealthy ==> !r.Threw?
      ensures calm ==> !r.Crashed?
      ensures ready == (if r.Crashed? then false else old(ready))
    {
      var journal := journals[op];
      var done := journal.(phase := OutcomeCommitted);
      assert Sound(store, View(op), crashOnly);
      var _ :- PutJournal(op, Some(journal), done);
      r := RemoveJournal(op, done);
    }

    /** src/proposals/proposalService.ts:532-563 */
    method FinishMutation(op: string) returns (r: Ending)
      requires Valid() && auditHealthy && op in attempts && op !in outcomes && op !in unread && op !in lost
      requires if op in journals then op in writes else op in idle
      requires crashOnly ==> storeHealthy && Clean(debris)
      modifies this`journals, this`outcomes, this`auditHealthy, this`storeHealthy, this`ready, this`unread, this`lost,
               this`debris
      ensures Valid() && Tidy(r, old(debris))
      ensures r.Done? || (r.Threw? && auditHealthy && op !in unread) ==> op in outcomes
      ensures r.Done? || (r.Threw? && crashOnly) ==> op !in journals && auditHealthy
      ensures unread == old(unread) || (unread == old(unread) + {op} && op !in outcomes)
      ensures Elsewhere(op, old(journals), journals) || (JournalLost() && !r.Done?)
      ensures Elsewhere(op, old(outcomes), outcomes)
      ensures crashOnly ==> storeHealthy && Elsewhere(op, old(journals), journals)
      ensures ready == (if r.Crashed? then false else old(ready))
    {
      var read := ScanJournals();
      if read.Threw? {
        unread := unread + {op};
      }
      if !read.Done? {
        return read;
      }
      r := RecordSuccess(op);
    }

    /** The outcome is recorded before the journal goes (src/proposals/proposalService.ts:540-562). */
    method RecordSuccess(op: string) returns (r: Ending)
      requires Valid() && auditHealthy && op in attempts && op !in outcomes && op !in lost
      requires if op in journals then op in writes else op in idle
      requires crashOnly ==> storeHealthy
      modifies this`journals, this`outcomes, this`auditHealthy, this`ready, this`debris
      ensures Valid() && Tidy(r, old(debris))
      ensures r.Done? || (r.Threw? && auditHealthy) ==> op in outcomes
      ensures r.Done? || (r.Threw? && crashOnly) ==> op !in journals && auditHealthy
      ensures Elsewhere(op, old(journals), journals) && Elsewhere(op, old(outcomes), outcomes)
      ensures ready == (if r.Crashed? then false else old(ready))
    {
      if op !in journals {
        r := AppendOutcome(op, Succeeded);
        return;
      }
      var cancelled: bool := *;
      var verdict := if cancelled then Unconfirmed else Succeeded;
      var _ :- AppendOutcome(op, verdict);
      var _ :- Close(op);
      return if cancelled then Threw(false) else Done(());
    }

    // ----- Operations -----

    /** src/proposals/proposalService.ts:459-471 */
    method ExpireOne(proposal: string) returns (r: Ending)
      requires Valid() && proposal in store && (crashOnly ==> storeHealthy && journals == map[])
      modifies this`store, this`writes, this`ready, this`debris
      ensures Tidy(r, old(debris)) && Valid() && writes == old(writes)
      ensures store == old(store) || (old(store)[proposal] == Pending && store == old(store)[proposal := Expired])
      ensures crashOnly ==> !r.Threw?
      ensures ready == (if r.Crashed? then false else old(ready))
    {
      if store[proposal] != Pending {
        return Done(());
      }
      r := PutProposal(None, proposal, Some(Pending), Expired);
    }

    /** src/proposals/proposalService.ts:443-474; which proposals are overdue depends on the clock. */
    method LoadAndExpire() returns (r: Ending)
      requires Valid() && (crashOnly ==> storeHealthy && journals == map[] && Clean(debris))
      modifies this`store, this`quarantine, this`lost, this`debris, this`writes, this`storeHealthy, this`ready
      ensures Tidy(r, old(debris)) && Valid() && writes == old(writes)
      ensures (Aged(old(store), store) && quarantine == old(quarantine)) || (ProposalLost() && !r.Done?)
      ensures lost <= old(lost) + journals.Keys && (crashOnly ==> lost == old(lost))
      ensures crashOnly ==> !r.Threw? && storeHealthy
      ensures ready == (if r.Crashed? then false else old(ready))
    {
      var _ :- ScanProposals();
      var due: seq<string> := *;
      for i := 0 to |due|
        invariant Valid() && writes == old(writes) && Aged(old(store), store)
        invariant lost == old(lost) && quarantine == old(quarantine)
        invariant (crashOnly ==> storeHealthy) && ready == old(ready) && debris == old(debris)
      {
        if due[i] in store {
          var _ :- ExpireOne(due[i]);
        }
      }
      return Done(());
    }

    /** The guarded part of an operation (src/proposals/proposalService.ts:188-412); any check may refuse. */
    method Effect(op: string, request: Request) returns (r: Ending)
      requires InFlight(op) && op !in unread && (request.ProposeNew? ==> Unused(request.proposal))
      modifies this`store, this`quarantine, this`lost, this`debris, this`writes, this`idle, this`journals, this`outcomes,
               this`auditHealthy, this`storeHealthy, this`ready
      ensures Valid()
      ensures op !in lost && Conserved(old(store), old(quarantine), store, quarantine) && Tidy(r, old(debris))
      ensures r.Done? ==> auditHealthy && op !in outcomes && if op in journals then op in writes else op in idle
      ensures op in writes && !request.Read? ==>
                Current(store, request.proposal) == Some(if request.ProposeNew? then Pending else Discarded)
      ensures r.Threw? && auditHealthy ==> (op in outcomes <==> op in writes)
      ensures r.Threw? && crashOnly ==> journals == map[] && op !in outcomes && auditHealthy
      ensures Elsewhere(op, old(journals), journals) && Elsewhere(op, old(outcomes), outcomes)
      ensures crashOnly ==> storeHealthy
      ensures ready == (if r.Crashed? then false else old(ready))
    {
      r := LoadAndExpire();
      if r.Done? {
        r := Decide(op, request);
      }
    }

    /** What an operation does with the proposals that it has loaded; any check may refuse. */
    method Decide(op: string, request: Request) returns (r: Ending)
      requires InFlight(op) && (request.ProposeNew? ==> Unused(request.proposal))
      modifies this`store, this`debris, this`writes, this`idle, this`journals, this`outcomes, this`auditHealthy, this`ready
      ensures Valid() && Tidy(r, old(debris)) && forall p | p in old(store) :: p in store
      ensures r.Done? ==> auditHealthy && op !in outcomes && if op in journals then op in writes else op in idle
      ensures op in writes && !request.Read? ==>
                Current(store, request.proposal) == Some(if request.ProposeNew? then Pending else Discarded)
      ensures r.Threw? && auditHealthy ==> (op in outcomes <==> op in writes)
      ensures r.Threw? && crashOnly ==> journals == map[] && op !in outcomes && auditHealthy
      ensures Elsewhere(op, old(journals), journals) && Elsewhere(op, old(outcomes), outcomes)
      ensures ready == (if r.Crashed? then false else old(ready))
    {
      var refused, existing: bool := *, *;
      if refused {
        return Threw(false);
      }
      match request {
        case ProposeNew(proposal) =>
          if existing {
            idle := idle + {op};
            return Done(());
          }
          r := CommitMutation(op, Propose, proposal);
        case DiscardOld(proposal) =>
          if proposal !in store || store[proposal] == Expired {
            return Threw(false);
          }
          if store[proposal] == Discarded {
            idle := idle + {op};
            return Done(());
          }
          r := CommitMutation(op, Discard, proposal);
        case Read =>
          idle := idle + {op};
          return Done(());
      }
    }

    /** What an attempt that is recorded goes on to do, up to its outcome if nothing fails. */
    method Perform(op: string, request: Request) returns (r: Ending)
      requires InFlight(op) && op !in unread && (request.ProposeNew? ==> Unused(request.proposal))
      modifies this`store, this`quarantine, this`lost, this`debris, this`writes, this`idle, this`unread, this`journals, this`outcomes,
               this`auditHealthy, this`storeHealthy, this`ready
      ensures Valid() && Conserved(old(store), old(quarantine), store, quarantine) && Tidy(r, old(debris))
      ensures r.Done? ==> op in outcomes && (op in writes || op in idle)
      ensures r.Threw? && auditHealthy && op !in outcomes ==>
                Truthful(Failed, op in writes, op in idle, op in unread, op in lost)
      ensures unread == old(unread) || (unread == old(unread) + {op} && op !in outcomes)
      ensures op in writes && !request.Read? ==>
                Current(store, request.proposal) == Some(if request.ProposeNew? then Pending else Discarded)
      ensures Elsewhere(op, old(outcomes), outcomes)
      ensures crashOnly ==> storeHealthy && (!r.Crashed? ==> auditHealthy && journals == map[])
      ensures ready == (if r.Crashed? then false else old(ready))
    {
      r := Effect(op, request);
      if r.Done? {
        r := FinishMutation(op);
      }
    }

    /**
     An operation from attempt to outcome (src/proposals/proposalService.ts:188-418, 424-441, 688-697). When it
     returns, by itself or with an error, its outcome is recorded unless the audit has failed.
     */
    method Operate(op: string, request: Request) returns (r: Ending)
      requires Valid() && ready && Quiet() && (crashOnly ==> op !in attempts)
      requires request.ProposeNew? ==> Unused(request.proposal)
      modifies this
      ensures Valid() && Conserved(old(store), old(quarantine), store, quarantine) && calm == old(calm) && (!r.Crashed? ==>
                Quiet())
      ensures ready == !r.Crashed?
      ensures Elsewhere(op, old(outcomes), outcomes)
      ensures r.Done? ==> op in outcomes && (op in writes || op in idle)
      ensures op in unread - old(unread) && op in outcomes && op !in old(outcomes) ==> outcomes[op].Failed?
      ensures op in writes - old(writes) && !request.Read? ==>
                Current(store, request.proposal) == Some(if request.ProposeNew? then Pending else Discarded)
    {
      var _ :- AppendAttempt(op);
      r := Perform(op, request);
      if r.Threw? && op !in outcomes {
        var _ :- AppendOutcome(op, Failed);
      }
    }

    // ----- The next start -----

    /** src/proposals/proposalService.ts:569-621, for one journal */
    method ReconcileOne(op: string) returns (r: Ending)
      requires Valid() && op in journals && auditHealthy && storeHealthy
      modifies this`journals, this`outcomes, this`auditHealthy, this`storeHealthy, this`ready, this`debris
      ensures Valid() && Tidy(r, old(debris))
      ensures r.Done? ==> op in outcomes && journals == old(journals) - {op} && auditHealthy && storeHealthy
      ensures r.Done? ==> !Ambiguous(store, old(journals)[op])
      ensures Elsewhere(op, old(outcomes), outcomes) && Extends(old(outcomes), outcomes)
      ensures op in outcomes && op !in old(outcomes) ==>
                outcomes[op] == if Committed(store, old(journals)[op]) then Reconciled else Failed
      ensures crashOnly ==> !r.Threw?
      ensures calm ==> !r.Crashed? && (r.Threw? <==> Ambiguous(store, old(journals)[op]))
      ensures ready == (if r.Crashed? then false else old(ready))
    {
      var journal := journals[op];
      assert Sound(store, View(op), crashOnly);
      var committed := Current(store, journal.proposal) == Some(After(journal));
      var untouched := Current(store, journal.proposal) == Before(journal);
      if (!committed && !untouched) || (!committed && !journal.phase.Prepared?) {
        storeHealthy := false;
        return Threw(false);
      }
      if op !in outcomes {
        var _ :- AppendOutcome(op, if committed then Reconciled else Failed);
      }
      if committed && !journal.phase.OutcomeCommitted? {
        r := Close(op);
      } else {
        r := RemoveJournal(op, journal);
      }
    }

    /** src/proposals/proposalService.ts:568-624 */
    method ReconcileAll() returns (r: Ending)
      requires Valid() && auditHealthy && storeHealthy
      modifies this`journals, this`outcomes, this`auditHealthy, this`storeHealthy, this`ready, this`debris
      ensures Valid() && Tidy(r, old(debris))
      ensures r.Done? ==> journals == map[] && auditHealthy && storeHealthy
      ensures r.Done? ==> forall op | op in old(journals) :: op in outcomes && !Ambiguous(store, old(journals)[op])
      ensures Extends(old(outcomes), outcomes) && Verdicts(old(outcomes), outcomes, store, old(journals))
      ensures crashOnly ==> !r.Threw?
      ensures calm && r.Threw? ==> exists op :: op in old(journals) && Ambiguous(store, old(journals)[op])
      ensures calm ==> !r.Crashed?
      ensures ready == (if r.Crashed? then false else old(ready))
    {
      while journals != map[]
        invariant Valid() && auditHealthy && storeHealthy && ready == old(ready) && debris == old(debris)
        invariant forall op | op in journals :: op in old(journals) && journals[op] == old(journals)[op]
        invariant forall op | op in old(journals) && op !in journals :: op in outcomes && !Ambiguous(store, old(journals)[op])
        invariant Extends(old(outcomes), outcomes) && Verdicts(old(outcomes), outcomes, store, old(journals))
        decreases |journals|
      {
        var op :| op in journals;
        var _ :- ReconcileOne(op);
      }
      return Done(());
    }

    /** Both directories are scanned; that succeeds only if there is nothing to clean up. */
    method ScanBoth() returns (r: Ending)
      requires Valid() && storeHealthy
      modifies this`store, this`quarantine, this`lost, this`debris, this`journals, this`storeHealthy, this`ready
      ensures Valid()
      ensures r.Done? ==> store == old(store) && quarantine == old(quarantine) && journals == old(journals)
      ensures r.Done? ==> storeHealthy && debris == old(debris) && Files(debris) == 0
      ensures Shrinks(old(store), store) && Conserved(old(store), old(quarantine), store, quarantine) && debris.tail == old(debris).tail
      ensures (crashOnly || calm) && r.Threw? ==> OneFileLess(old(debris), debris)
      ensures crashOnly || calm ==> store == old(store) && journals == old(journals)
      ensures calm ==> !r.Crashed?
      ensures ready == (if r.Crashed? then false else old(ready))
    {
      r := ScanProposals();
      if r.Done? {
        r := ScanJournals();
      }
    }

    /** Without a journal the operation has not written, or has lost what it wrote. */
    method SettleOne(op: string) returns (r: Ending)
      requires Valid() && journals == map[] && auditHealthy && op in attempts && op !in outcomes
      modifies this`outcomes, this`auditHealthy, this`ready, this`debris
      ensures Valid() && Tidy(r, old(debris))
      ensures Settles(old(outcomes), outcomes)
      ensures r.Done? ==> auditHealthy && outcomes.Keys == old(outcomes).Keys + {op}
      ensures crashOnly || calm ==> !r.Threw?
      ensures calm ==> !r.Crashed?
      ensures ready == (if r.Crashed? then false else old(ready))
    {
      assert Sound(store, View(op), crashOnly);
      r := AppendOutcome(op, Failed);
    }

    /** src/proposals/proposalService.ts:626-637 */
    method SettlePendingAttempts() returns (r: Ending)
      requires Valid() && journals == map[] && auditHealthy
      modifies this`outcomes, this`auditHealthy, this`ready, this`debris
      ensures Valid() && Tidy(r, old(debris))
      ensures r.Done? ==> auditHealthy && attempts <= outcomes.Keys
      ensures Settles(old(outcomes), outcomes)
      ensures crashOnly || calm ==> !r.Threw?
      ensures calm ==> !r.Crashed?
      ensures ready == (if r.Crashed? then false else old(ready))
    {
      var open := attempts - outcomes.Keys;
      while open != {}
        invariant Valid() && auditHealthy && ready == old(ready) && debris == old(debris)
        invariant open == attempts - outcomes.Keys
        invariant Settles(old(outcomes), outcomes)
        decreases |open|
      {
        var op :| op in open;
        OneFewer(attempts, outcomes.Keys, op);
        var _ :- SettleOne(op);
        open := open - {op};
      }
      return Done(());
    }

    lemma StartableIfUnambiguous()
      requires Valid()
      ensures Startable(store, journals) <==> forall op | op in journals :: !Ambiguous(store, journals[op])
      ensures crashOnly ==> Startable(store, journals)
    {
      forall op | op in journals
        ensures Ambiguous(store, journals[op]) <==> MovedOn(store, journals[op]) || Missing(store, journals[op])
        ensures crashOnly ==> !Ambiguous(store, journals[op])
      {
        assert Sound(store, View(op), crashOnly);
        AmbiguousIffMovedOn(store, journals[op], op in writes, op in lost);
      }
    }

    /** src/proposals/proposalService.ts:565-624, after the scans with which the store starts (storage.ts:408-410) */
    method Reconcile() returns (r: Ending)
      requires Valid() && auditHealthy && storeHealthy
      modifies this`store, this`quarantine, this`lost, this`debris, this`journals, this`outcomes,
               this`auditHealthy, this`storeHealthy, this`ready
      ensures Valid() && Shrinks(old(store), store) && Conserved(old(store), old(quarantine), store, quarantine)
      ensures r.Done? ==>
                journals == map[] && auditHealthy && storeHealthy && store == old(store) && Startable(old(store), old(journals))
      ensures r.Done? ==> debris == old(debris) && Files(debris) == 0
      ensures r.Done? ==> forall op | op in old(journals) :: op in outcomes
      ensures Extends(old(outcomes), outcomes)
      ensures r.Done? ==> Verdicts(old(outcomes), outcomes, store, old(journals))
      ensures (crashOnly || (calm && 0 < Files(old(debris)))) && r.Threw? ==>
                OneFileLess(old(debris), debris) && outcomes == old(outcomes)
      ensures calm ==>
                !r.Crashed? && store == old(store) && (r.Done? <==> Startable(old(store), old(journals)) && Files(old(debris)) == 0)
      ensures ready == (if r.Crashed? then false else old(ready))
    {
      StartableIfUnambiguous();
      for scans := 0 to 2
        invariant Valid() && store == old(store) && journals == old(journals) && outcomes == old(outcomes)
        invariant quarantine == old(quarantine) && auditHealthy && storeHealthy && ready == old(ready)
        invariant debris == old(debris) && (0 < scans ==> Files(debris) == 0)
      {
        var scanned := ScanBoth();
        if !scanned.Done? {
          return scanned;
        }
      }
      r := ReconcileAll();
    }

    lemma OutcomesAttempted()
      requires Valid()
      ensures outcomes.Keys <= attempts
    {
      forall op | op in outcomes ensures op in attempts {
        assert Sound(store, View(op), crashOnly);
      }
    }

    /** What a start does once the audit has been read (src/proposals/proposalService.ts:83-85). */
    method Recover() returns (r: Ending)
      requires Valid() && auditHealthy && storeHealthy && !debris.tail
      modifies this`store, this`quarantine, this`lost, this`debris, this`journals, this`outcomes,
               this`auditHealthy, this`storeHealthy, this`ready
      ensures Valid() && Shrinks(old(store), store) && Conserved(old(store), old(quarantine), store, quarantine) && Extends(old(outcomes), outcomes)
      ensures r.Done? ==>
                journals == map[] && auditHealthy && storeHealthy && store == old(store) && Startable(old(store), old(journals))
      ensures r.Done? ==> outcomes.Keys == attempts && Verdicts(old(outcomes), outcomes, store, old(journals))
      ensures r.Done? ==> debris == old(debris) && Clean(debris)
      ensures (crashOnly || (calm && !Clean(old(debris)))) && r.Threw? ==>
                OneFileLess(old(debris), debris) && outcomes == old(outcomes)
      ensures calm ==> (r.Done? <==> Startable(old(store), old(journals)) && Clean(old(debris)))
      ensures ready == (if r.Crashed? then false else old(ready))
    {
      r := Reconcile();
      if r.Done? {
        ghost var between := outcomes;
        r := SettlePendingAttempts();
        VerdictsSettled(old(outcomes), between, outcomes, store, old(journals));
        OutcomesAttempted();
      }
    }

    /**
     A start of the service (src/proposals/proposalService.ts:81-86). If it succeeds, no journal is left and
     every attempt has its one outcome; outcomes already recorded, and all proposals, stay. Without failures it
     succeeds exactly if no proposal of a leftover journal has moved on or is missing, and interrupted writes have
     left nothing; after a history of nothing but crashes only the latter can stop it, apart from another crash.
     */
    method Initialize() returns (r: Ending)
      requires Valid()
      modifies this`store, this`quarantine, this`lost, this`debris, this`journals, this`outcomes,
               this`auditHealthy, this`storeHealthy, this`ready
      ensures Valid() && ready == r.Done? && Shrinks(old(store), store) && Conserved(old(store), old(quarantine), store, quarantine)
      ensures r.Done? ==> Quiet() && journals == map[] && outcomes.Keys == attempts && store == old(store)
      ensures Extends(old(outcomes), outcomes)
      ensures r.Done? ==>
                Startable(old(store), old(journals)) && Verdicts(old(outcomes), outcomes, store, old(journals)) && Clean(old(debris))
      ensures old(debris).tail ==> !r.Done? && store == old(store) && outcomes == old(outcomes) && debris == old(debris)
      ensures calm ==> (r.Done? <==> Startable(old(store), old(journals)) && Clean(old(debris)))
      ensures (crashOnly || (calm && !Clean(old(debris)))) && r.Threw? ==>
                old(debris).tail || (OneFileLess(old(debris), debris) && outcomes == old(outcomes))
    {
      ready := false;
      auditHealthy, storeHealthy := false, false;
      var _ :- MayCrash();
      var fails: bool := *;
      if debris.tail || (fails && !crashOnly && !calm) {
        return Threw(false);
      }
      auditHealthy, storeHealthy := true, true;
      var _ :- Recover();
      ready := true;
      return Done(());
    }

    /** Starts until the files that interrupted writes have left are out of the way, or the process dies. */
    method Restart() returns (r: Ending)
      requires Valid()
      modifies this`store, this`quarantine, this`lost, this`debris, this`journals, this`outcomes,
               this`auditHealthy, this`storeHealthy, this`ready
      ensures Valid() && ready == r.Done? && Conserved(old(store), old(quarantine), store, quarantine)
      ensures r.Done? ==> journals == map[] && outcomes.Keys == attempts
      ensures crashOnly && r.Threw? ==> debris.tail
    {
      var files := Files(debris);
      r := Initialize();
      for starts := 0 to files
        invariant Valid() && ready == r.Done? && Conserved(old(store), old(quarantine), store, quarantine)
        invariant r.Done? ==> journals == map[] && outcomes.Keys == attempts
        invariant crashOnly && r.Threw? ==> debris.tail || Files(debris) + starts < files
      {
        if r.Threw? {
          r := Initialize();
        }
      }
    }

    // ----- Whole runs -----

    /**
     Any sequence of operations and starts, each cut short by crashes anywhere, and then starts until what is left
     behind is out of the way. If that succeeds, every attempt has its outcome; and if nothing but crashes ever went
     wrong, it can only be stopped by a crash or by an audit record that was cut behind a brace, and an operation is
     reported as failed exactly if its effect is absent.
     */
    method AnyRun(requests: seq<(string, Request)>) returns (r: Ending)
      requires Valid()
      modifies this
      ensures Valid() && Conserved(old(store), old(quarantine), store, quarantine)
      ensures r.Done? ==> journals == map[] && outcomes.Keys == attempts
      ensures crashOnly && r.Threw? ==> debris.tail
      ensures crashOnly ==> forall op | op in outcomes :: Faithful(outcomes[op], op in writes, op in idle)
    {
      r := Initialize();
      for i := 0 to |requests|
        invariant Valid() && Conserved(old(store), old(quarantine), store, quarantine) && (ready ==> Quiet())
      {
        var op, request := requests[i].0, requests[i].1;
        if ready && op !in attempts && (request.ProposeNew? ==> Unused(request.proposal)) {
          var _ := Operate(op, request);
        }
        var restarted: bool := *;
        if !ready || restarted {
          r := Initialize();
        }
      }
      r := Restart();
      forall op | crashOnly && op in outcomes ensures Faithful(outcomes[op], op in writes, op in idle) {
        assert Sound(store, View(op), crashOnly);
      }
    }
  }
}
