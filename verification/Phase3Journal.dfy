/**
 The durable journal (src/phase3/journal.ts): one directory entry for each record, created by an
 exclusive hard link and made durable by synchronizing the directory. Several calls, also of
 several processes, may be under way at once; a crash may lose any entry not yet synchronized.
 */
module Phase3Journal {
  import opened Wrappers
  import opened Phase3Contracts
  import opened Phase3World

  const TRANSACTIONS: nat := 64
  const FINAL_ENTRIES: nat := 512
  const HISTORY_PER_TRANSACTION: nat := 128
  const RECORD_BYTES: nat := 64 * 1024
  const AGGREGATE_BYTES: nat := 32 * 1024 * 1024

  /** The name of an entry. */
  datatype Key = Key(id: string, version: nat)

  function KeyOf(r: Record): Key {
    Key(r.identity.transactionId, r.version)
  }

  predicate SameKey(r: Record, s: Record) {
    KeyOf(r) == KeyOf(s)
  }

  ghost predicate Taken(f: set<Record>, r: Record) {
    exists s :: s in f && SameKey(s, r)
  }

  /** Different entries have different names. */
  ghost predicate Distinct(f: set<Record>) {
    forall r, s :: r in f && s in f && SameKey(r, s) ==> r == s
  }

  /** The record is a first one, or follows another one of the entries. */
  ghost predicate Rooted(f: set<Record>, r: Record) {
    SchemaOk(r) && if r.version == 0 then IsInitial(r) else exists p :: p in f && IsSuccessor(p, r)
  }

  /** Entries that a scan accepts, apart from its limits. */
  ghost predicate Accepted(f: set<Record>) {
    forall r | r in f :: Rooted(f, r)
  }

  // ----- The journal as a system of concurrent calls -----

  datatype Call =
    | Prepared(record: Record)
    | Linked(record: Record)
    | Confirmed(record: Record)
    | Unconfirmed(record: Record)
    | Refused
    | Lost

  datatype Store = Store(finals: set<Record>, synced: set<Record>, calls: map<nat, Call>)

  const EMPTY := Store({}, {}, map[])

  datatype Action =
    | Intend(call: nat, record: Record)
    | Transit(call: nat, previous: Record, state: State, patch: Patch, now: int)
    | Abandon(call: nat)
    | Link(call: nat)
    | Sync(call: nat, ok: bool)
    | Crash(kept: set<Record>)

  ghost predicate Latest(f: set<Record>, r: Record) {
    r in f && forall s :: s in f && s.identity.transactionId == r.identity.transactionId ==> s.version <= r.version
  }

  function AfterCrash(c: Call): Call {
    if c.Prepared? || c.Linked? then Lost else c
  }

  /** src/phase3/journal.ts:195-281 for the first two actions, 302-382 for the others. */
  ghost predicate Next(s: Store, a: Action, t: Store) {
    match a
    case Intend(c, record) =>
      && c !in s.calls && Accepted(s.finals) && IsInitial(record) && SchemaOk(record)
      && (forall r :: r in s.finals ==> r.identity.transactionId != record.identity.transactionId)
      && t == s.(calls := s.calls[c := Prepared(record)])
    case Transit(c, previous, state, patch, now) =>
      && c !in s.calls && Accepted(s.finals) && Latest(s.finals, previous)
      && Allowed(previous, state, patch) && PatchOk(patch)
      && t == s.(calls := s.calls[c := Prepared(NextRecord(previous, state, patch, now))])
    case Abandon(c) =>
      && c in s.calls && s.calls[c].Prepared?
      && t == s.(calls := s.calls[c := Refused])
    case Link(c) =>
      && c in s.calls && s.calls[c].Prepared?
      && t == if Taken(s.finals, s.calls[c].record) then s.(calls := s.calls[c := Refused])
              else s.(finals := s.finals + {s.calls[c].record}, calls := s.calls[c := Linked(s.calls[c].record)])
    case Sync(c, ok) =>
      && c in s.calls && s.calls[c].Linked?
      && t == if ok then s.(synced := s.finals, calls := s.calls[c := Confirmed(s.calls[c].record)])
              else s.(calls := s.calls[c := Unconfirmed(s.calls[c].record)])
    case Crash(kept) =>
      && s.synced <= kept <= s.finals
      && t == Store(kept, kept, map c | c in s.calls :: AfterCrash(s.calls[c]))
  }

  /** The i-th state of the run comes about by this action. */
  ghost predicate Does(run: seq<Store>, i: nat, a: Action) {
    0 < i < |run| && Next(run[i - 1], a, run[i])
  }

  ghost predicate Moves(run: seq<Store>, i: nat) {
    exists a :: Does(run, i, a)
  }

  ghost predicate IsRun(run: seq<Store>) {
    run != [] && run[0] == EMPTY && forall i | 0 < i < |run| :: Moves(run, i)
  }

  // ----- What every step keeps -----

  ghost predicate Holds(s: Store, c: nat, r: Record) {
    c in s.calls && (s.calls[c] == Linked(r) || s.calls[c] == Confirmed(r))
  }

  /** The successes are durable entries, and no two of them have the same name. */
  ghost predicate Owned(s: Store) {
    && (forall c, r :: Holds(s, c, r) ==> r in s.finals)
    && (forall c | c in s.calls && s.calls[c].Confirmed? :: s.calls[c].record in s.synced)
    && (forall c, d, r, q :: Holds(s, c, r) && Holds(s, d, q) && SameKey(r, q) ==> c == d)
  }

  /** Every record about to be linked will be acceptable, whatever the other calls do first. */
  ghost predicate Ready(s: Store) {
    forall c | c in s.calls && s.calls[c].Prepared? :: Accepted(s.finals) && Rooted(s.finals, s.calls[c].record)
  }

  ghost predicate Inv(s: Store) {
    s.synced <= s.finals && Distinct(s.finals) && Owned(s) && Ready(s)
  }

  lemma RootedGrows(f: set<Record>, g: set<Record>, r: Record)
    requires Rooted(f, r) && f <= g
    ensures Rooted(g, r)
  {
  }

  lemma AcceptedGrows(f: set<Record>, r: Record)
    requires Accepted(f) && Rooted(f, r)
    ensures Accepted(f + {r})
  {
    forall q | q in f + {r} ensures Rooted(f + {r}, q) {
      RootedGrows(f, f + {r}, q);
    }
  }

  /** An allowed transition yields a successor that the schema accepts. */
  lemma NextIsSuccessor(previous: Record, state: State, patch: Patch, now: int)
    requires SchemaOk(previous) && Allowed(previous, state, patch) && PatchOk(patch)
    ensures IsSuccessor(previous, NextRecord(previous, state, patch, now)) && SchemaOk(NextRecord(previous, state, patch, now))
  {
  }

  lemma BeginKeepsInv(s: Store, a: Action, t: Store)
    requires Inv(s) && (a.Intend? || a.Transit?) && Next(s, a, t)
    ensures Inv(t)
  {
    if a.Transit? {
      assert Rooted(s.finals, a.previous);
      NextIsSuccessor(a.previous, a.state, a.patch, a.now);
    }
    assert Rooted(s.finals, t.calls[a.call].record);
    assert forall c, r :: Holds(t, c, r) ==> Holds(s, c, r);
  }

  lemma LinkKeepsInv(s: Store, c: nat, t: Store)
    requires Inv(s) && Next(s, Link(c), t)
    ensures Inv(t)
  {
    var record := s.calls[c].record;
    if Taken(s.finals, record) {
      assert forall d, r :: Holds(t, d, r) ==> Holds(s, d, r);
    } else {
      AcceptedGrows(s.finals, record);
      assert forall d, r :: Holds(t, d, r) ==> (d == c && r == record) || Holds(s, d, r);
      forall d | d in t.calls && t.calls[d].Prepared? ensures Rooted(t.finals, t.calls[d].record) {
        RootedGrows(s.finals, t.finals, t.calls[d].record);
      }
    }
  }

  lemma CrashKeepsInv(s: Store, kept: set<Record>, t: Store)
    requires Inv(s) && Next(s, Crash(kept), t)
    ensures Inv(t)
  {
    assert forall c | c in t.calls :: t.calls[c] == AfterCrash(s.calls[c]);
    assert forall c, r :: Holds(t, c, r) ==> Holds(s, c, r) && s.calls[c] == Confirmed(r);
  }

  lemma StepKeepsInv(s: Store, a: Action, t: Store)
    requires Inv(s) && Next(s, a, t)
    ensures Inv(t)
  {
    match a
    case Intend(_, _) => BeginKeepsInv(s, a, t);
    case Transit(_, _, _, _, _) => BeginKeepsInv(s, a, t);
    case Abandon(_) => assert forall c, r :: Holds(t, c, r) ==> Holds(s, c, r);
    case Link(c) => LinkKeepsInv(s, c, t);
    case Sync(c, _) =>
      assert Holds(s, c, s.calls[c].record);
      assert forall d, r :: Holds(t, d, r) ==> Holds(s, d, r);
    case Crash(kept) => CrashKeepsInv(s, kept, t);
  }

  lemma {:induction false} RunKeepsInv(run: seq<Store>, i: nat)
    requires IsRun(run) && i < |run|
    ensures Inv(run[i])
  {
    if 0 < i {
      RunKeepsInv(run, i - 1);
      assert Moves(run, i);
      var a :| Does(run, i, a);
      StepKeepsInv(run[i - 1], a, run[i]);
    }
  }

  // ----- Over whole runs -----

  lemma ConfirmedStays(s: Store, a: Action, t: Store, c: nat)
    requires Inv(s) && Next(s, a, t) && c in s.calls && s.calls[c].Confirmed?
    ensures c in t.calls && t.calls[c] == s.calls[c]
  {
  }

  /** A confirmed record is an entry of every later state, through every crash. */
  lemma {:induction false} ConfirmedForever(run: seq<Store>, i: nat, j: nat, c: nat)
    requires IsRun(run) && i <= j < |run| && c in run[i].calls && run[i].calls[c].Confirmed?
    ensures c in run[j].calls && run[j].calls[c] == run[i].calls[c]
    ensures run[i].calls[c].record in run[j].synced && run[i].calls[c].record in run[j].finals
    decreases j
  {
    RunKeepsInv(run, j);
    if i < j {
      ConfirmedForever(run, i, j - 1, c);
      RunKeepsInv(run, j - 1);
      assert Moves(run, j);
      var a :| Does(run, j, a);
      ConfirmedStays(run[j - 1], a, run[j], c);
    }
  }

  /** Of all the calls that ever write one version of one transaction, at most one is confirmed. */
  lemma OneCommitForEachVersion(run: seq<Store>, i: nat, j: nat, c: nat, d: nat)
    requires IsRun(run) && i < |run| && j < |run|
    requires c in run[i].calls && run[i].calls[c].Confirmed? && d in run[j].calls && run[j].calls[d].Confirmed?
    requires SameKey(run[i].calls[c].record, run[j].calls[d].record)
    ensures c == d
  {
    var k := if i < j then j else i;
    ConfirmedForever(run, i, k, c);
    ConfirmedForever(run, j, k, d);
    RunKeepsInv(run, k);
    assert Holds(run[k], c, run[i].calls[c].record) && Holds(run[k], d, run[j].calls[d].record);
  }

  // ----- What a crash may leave behind -----

  /** Every entry that others follow is durable. */
  ghost predicate Anchored(s: Store) {
    forall r, p :: r in s.finals && p in s.finals && IsSuccessor(p, r) ==> p in s.synced
  }

  lemma SuccessorKey(p: Record, q: Record, r: Record)
    requires IsSuccessor(p, r) && IsSuccessor(q, r)
    ensures SameKey(p, q)
  {
  }

  lemma CrashMayLose(s: Store, p: Record, r: Record)
    requires Inv(s) && r in s.finals && p in s.finals && IsSuccessor(p, r) && p !in s.synced
    ensures s.synced <= s.finals - {p} <= s.finals && !Accepted(s.finals - {p})
  {
    var kept := s.finals - {p};
    assert r in kept;
    if Accepted(kept) {
      assert Rooted(kept, r);
      var q :| q in kept && IsSuccessor(q, r);
      SuccessorKey(p, q, r);
      assert false;
    }
  }

  /** The journal is readable after every crash exactly when no lost entry could have a successor. */
  lemma ReadableAfterEveryCrash(s: Store)
    requires Inv(s) && Accepted(s.finals)
    ensures (forall kept :: s.synced <= kept <= s.finals ==> Accepted(kept)) <==> Anchored(s)
  {
    if Anchored(s) {
      forall kept | s.synced <= kept <= s.finals ensures Accepted(kept) {
        forall r | r in kept ensures Rooted(kept, r) {
          assert Rooted(s.finals, r);
        }
      }
    } else {
      var r, p :| r in s.finals && p in s.finals && IsSuccessor(p, r) && p !in s.synced;
      CrashMayLose(s, p, r);
    }
  }

  // ----- Runs that stay readable -----

  /** Only a crash can make the entries unacceptable, and only if an entry that others follow is not durable. */
  lemma StepKeepsAccepted(s: Store, a: Action, t: Store)
    requires Inv(s) && Accepted(s.finals) && Next(s, a, t) && (a.Crash? ==> Anchored(s))
    ensures Accepted(t.finals)
  {
    match a
    case Link(c) => AcceptedGrows(s.finals, s.calls[c].record);
    case Crash(kept) => ReadableAfterEveryCrash(s);
    case _ =>
  }

  /** Every crash of the run finds each entry that others follow durable. */
  ghost predicate CrashesAnchored(run: seq<Store>) {
    forall i, a | Does(run, i, a) && a.Crash? :: Anchored(run[i - 1])
  }

  /** Whatever the calls do, and however they interleave, such crashes leave acceptable entries. */
  lemma {:induction false} AnchoredRunsStayReadable(run: seq<Store>, i: nat)
    requires IsRun(run) && CrashesAnchored(run) && i < |run|
    ensures Accepted(run[i].finals)
  {
    if 0 < i {
      AnchoredRunsStayReadable(run, i - 1);
      RunKeepsInv(run, i - 1);
      assert Moves(run, i);
      var a :| Does(run, i, a);
      StepKeepsAccepted(run[i - 1], a, run[i]);
    }
  }

  /** Any sequence of calls, concurrent ones and failed synchronizations included, leaves acceptable entries. */
  lemma RunsWithoutCrashStayReadable(run: seq<Store>, i: nat)
    requires IsRun(run) && i < |run| && forall k, a | Does(run, k, a) :: !a.Crash?
    ensures Accepted(run[i].finals)
  {
    AnchoredRunsStayReadable(run, i);
  }

  /** Every transition of the run starts from entries that are all durable. */
  ghost predicate Careful(run: seq<Store>) {
    forall i, a | Does(run, i, a) && a.Transit? :: run[i - 1].synced == run[i - 1].finals
  }

  /** Entries, and records about to become entries, only follow durable entries. */
  ghost predicate Grounded(s: Store) {
    && Anchored(s)
    && (forall c | c in s.calls && s.calls[c].Prepared? && 0 < s.calls[c].record.version ::
          Rooted(s.synced, s.calls[c].record))
  }

  /** The new entry follows a durable one, and nothing follows it yet. */
  lemma NewEntryIsAnchored(s: Store, record: Record, r: Record, p: Record)
    requires s.synced <= s.finals && Distinct(s.finals) && Accepted(s.finals) && Anchored(s) && !Taken(s.finals, record)
    requires 0 < record.version ==> Rooted(s.synced, record)
    requires (r in s.finals || r == record) && (p in s.finals || p == record) && IsSuccessor(p, r)
    ensures p in s.synced
  {
    if r == record {
      var q :| q in s.synced && IsSuccessor(q, record);
      SuccessorKey(p, q, record);
    } else {
      assert Rooted(s.finals, r);
      var q :| q in s.finals && IsSuccessor(q, r);
      SuccessorKey(p, q, r);
    }
  }

  lemma CarefulLink(s: Store, c: nat, t: Store)
    requires Inv(s) && Grounded(s) && Next(s, Link(c), t)
    ensures Grounded(t)
  {
    var record := s.calls[c].record;
    if !Taken(s.finals, record) {
      forall r, p | r in t.finals && p in t.finals && IsSuccessor(p, r) ensures p in t.synced {
        NewEntryIsAnchored(s, record, r, p);
      }
    }
  }

  lemma CarefulStep(s: Store, a: Action, t: Store)
    requires Inv(s) && Grounded(s) && Next(s, a, t) && (a.Transit? ==> s.synced == s.finals)
    ensures Grounded(t)
  {
    match a
    case Intend(_, _) =>
    case Transit(_, previous, state, patch, now) =>
      assert Rooted(s.finals, previous);
      NextIsSuccessor(previous, state, patch, now);
    case Abandon(_) =>
    case Link(c) => CarefulLink(s, c, t);
    case Sync(_, _) =>
      forall c | c in t.calls && t.calls[c].Prepared? && 0 < t.calls[c].record.version ensures Rooted(t.synced, t.calls[c].record) {
        RootedGrows(s.synced, t.synced, t.calls[c].record);
      }
    case Crash(_) =>
  }

  lemma CarefulAt(run: seq<Store>, i: nat, a: Action)
    requires Careful(run) && Does(run, i, a) && Inv(run[i - 1]) && Grounded(run[i - 1])
    ensures Grounded(run[i])
  {
    CarefulStep(run[i - 1], a, run[i]);
  }

  lemma {:induction false} CarefulRunsAreGrounded(run: seq<Store>, i: nat)
    requires IsRun(run) && Careful(run) && i < |run|
    ensures Grounded(run[i])
  {
    if 0 < i {
      CarefulRunsAreGrounded(run, i - 1);
      RunKeepsInv(run, i - 1);
      assert Moves(run, i);
      var a :| Does(run, i, a);
      CarefulAt(run, i, a);
    }
  }

  /** If every transition starts from a fully synchronized journal, no crash ever makes it unreadable. */
  lemma CarefulRunsStayReadable(run: seq<Store>, i: nat)
    requires IsRun(run) && Careful(run) && i < |run|
    ensures Accepted(run[i].finals) && Anchored(run[i])
  {
    forall k: nat, a | Does(run, k, a) && a.Crash? ensures Anchored(run[k - 1]) {
      CarefulRunsAreGrounded(run, k - 1);
    }
    AnchoredRunsStayReadable(run, i);
    CarefulRunsAreGrounded(run, i);
  }

  // ----- A run that does not -----

  lemma RunGrows(run: seq<Store>, a: Action, t: Store) returns (longer: seq<Store>)
    requires IsRun(run) && Next(run[|run| - 1], a, t)
    ensures IsRun(longer) && longer == run + [t] && Does(longer, |run|, a)
  {
    longer := run + [t];
    assert Does(longer, |run|, a);
    forall i | 0 < i < |longer| ensures Moves(longer, i) {
      if i < |run| {
        assert Moves(run, i);
        var b :| Does(run, i, b);
        assert Does(longer, i, b);
      }
    }
  }

  lemma LosingCrash(s: Store) returns (kept: set<Record>, t: Store)
    requires Inv(s) && Accepted(s.finals) && !Anchored(s)
    ensures Next(s, Crash(kept), t) && !Accepted(t.finals)
  {
    ReadableAfterEveryCrash(s);
    kept :| s.synced <= kept <= s.finals && !Accepted(kept);
    t := Store(kept, kept, map c | c in s.calls :: AfterCrash(s.calls[c]));
  }

  /** From any state in which an entry that others follow is not durable, one crash can make the journal unreadable. */
  lemma UnanchoredMayBecomeUnreadable(run: seq<Store>) returns (longer: seq<Store>, kept: set<Record>)
    requires IsRun(run) && Accepted(run[|run| - 1].finals) && !Anchored(run[|run| - 1])
    ensures IsRun(longer) && |longer| == |run| + 1 && longer[..|run|] == run
    ensures Does(longer, |run|, Crash(kept)) && !Accepted(longer[|run|].finals)
  {
    RunKeepsInv(run, |run| - 1);
    var t: Store;
    kept, t := LosingCrash(run[|run| - 1]);
    longer := RunGrows(run, Crash(kept), t);
  }

  /** A first entry whose synchronization fails. */
  lemma FailedSync(first: Record) returns (run: seq<Store>)
    requires IsInitial(first) && SchemaOk(first)
    ensures IsRun(run) && |run| == 4 && Does(run, 3, Sync(0, false))
    ensures run[3] == Store({first}, {}, map[0 := Unconfirmed(first)])
  {
    run := RunGrows([EMPTY], Intend(0, first), Store({}, {}, map[0 := Prepared(first)]));
    run := RunGrows(run, Link(0), Store({first}, {}, map[0 := Linked(first)]));
    run := RunGrows(run, Sync(0, false), Store({first}, {}, map[0 := Unconfirmed(first)]));
  }

  lemma TransitStep(s: Store, first: Record, t: Store)
    requires s == Store({first}, {}, map[0 := Unconfirmed(first)])
    requires SchemaOk(first) && IsInitial(first) && Allowed(first, ManualRecoveryRequired, NO_PATCH)
    requires t == s.(calls := s.calls[1 := Prepared(NextRecord(first, ManualRecoveryRequired, NO_PATCH, 1))])
    ensures Next(s, Transit(1, first, ManualRecoveryRequired, NO_PATCH, 1), t)
  {
  }

  lemma LinkStep(s: Store, first: Record, second: Record, t: Store)
    requires s == Store({first}, {}, map[0 := Unconfirmed(first), 1 := Prepared(second)]) && !SameKey(first, second)
    requires t == Store({first, second}, {}, s.calls[1 := Linked(second)])
    ensures Next(s, Link(1), t)
  {
    assert s.finals + {second} == {first, second};
  }

  /**
   Without that care a crash can: a first entry whose synchronization failed is followed by a second one, and
   the directory keeps only the second.
   */
  lemma UnreadableRun() returns (run: seq<Store>)
    ensures IsRun(run) && !Careful(run) && !Accepted(run[|run| - 1].finals)
    ensures |run| == 7 && Does(run, 3, Sync(0, false)) && Does(run, 6, Crash(run[6].finals))
  {
    var first := SampleIntent(None);
    var second := NextRecord(first, ManualRecoveryRequired, NO_PATCH, 1);
    var failed := FailedSync(first);
    var s4 := failed[3].(calls := failed[3].calls[1 := Prepared(second)]);
    var s5 := Store({first, second}, {}, s4.calls[1 := Linked(second)]);
    var s6 := Store({second}, {second}, map c | c in s5.calls :: AfterCrash(s5.calls[c]));
    TransitStep(failed[3], first, s4);
    LinkStep(s4, first, second, s5);
    var following := RunGrows(failed, Transit(1, first, ManualRecoveryRequired, NO_PATCH, 1), s4);
    run := RunGrows(following, Link(1), s5);
    run := RunGrows(run, Crash({second}), s6);
    assert Does(run, 3, Sync(0, false)) && Does(run, 4, Transit(1, first, ManualRecoveryRequired, NO_PATCH, 1));
    assert second in s6.finals && !Rooted(s6.finals, second);
  }
}
