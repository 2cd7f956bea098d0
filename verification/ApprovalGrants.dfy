/**
 Consuming a single-use approval grant (src/phase3/durableApproval.ts). Any number of consumers race
 for one hard link, used.json, in the directory of the grant. Directory entries are volatile until
 they are persisted; a crash forgets the others and kills every consumer.
 */
module ApprovalGrants {

  const USED_STAGES: nat := 4

  /** The names in the directory of a grant: the receipt, and the places where receipts are prepared. */
  datatype Name = Used | Stage(index: nat)

  type Directory = map<Name, nat>

  datatype Outcome =
    /** The grant is granted. */
    | Consumed
    /** Lost the race to another consumer. */
    | Replayed
    /** Refused by the first look at the directory. */
    | Refused
    /** Failed for certain. */
    | NotCommitted
    | Unknown
    /** Killed by a crash. */
    | Killed

  /** Where a consumer is; from Staged on it has a file of its own, with this stage and inode. */
  datatype Phase =
    | Scanned
    | Staged(index: nat, inode: nat)
    | LinkFailed(index: nat, inode: nat)
    | Syncing(index: nat, inode: nat)
    | Synced(index: nat, inode: nat)
    | Cleaning(own: bool, index: nat, inode: nat)
    | Finished(outcome: Outcome)

  /** The directory as seen and as stored, who wrote which inode, and every consumer there has been. */
  datatype Slot = Slot(seen: Directory, disk: Directory, author: map<nat, nat>, consumers: map<nat, Phase>)

  const NEW_SLOT := Slot(map[], map[], map[], map[])

  datatype Action =
    | Begin(p: nat)
    | Prepare(p: nat, index: nat, inode: nat)
    | GiveUp(p: nat)
    | Link(p: nat, failed: bool, effect: bool)
    | Observe(p: nat, readable: bool)
    | Sync(p: nat, ok: bool)
    | Check(p: nat, readable: bool)
    | Clean(p: nat, removed: bool)
    | Persist(names: set<Name>)
    | Crash
    | Remediate(index: nat)

  predicate Is(d: Directory, n: Name, inode: nat) {
    n in d && d[n] == inode
  }

  /** Stored entries, with these names brought up to date. */
  function Merge(disk: Directory, seen: Directory, names: set<Name>): Directory {
    map n | n in disk.Keys + seen.Keys && (if n in names then n in seen else n in disk) :: if n in names then seen[n] else disk[n]
  }

  predicate InUse(s: Slot, inode: nat) {
    inode in s.seen.Values || inode in s.disk.Values
  }

  predicate Alive(phase: Phase) {
    !phase.Finished?
  }

  function With(s: Slot, p: nat, phase: Phase): Slot {
    s.(consumers := s.consumers[p := phase])
  }

  predicate At(s: Slot, p: nat) {
    p in s.consumers
  }

  /** src/phase3/durableApproval.ts:935-967, 1456-1621, 2696-2717; remediation from 1663. */
  ghost predicate Next(s: Slot, a: Action, t: Slot) {
    match a
    case Begin(p) =>
      !At(s, p) && t == With(s, p, if Used in s.seen then Finished(Refused) else Scanned)
    case Prepare(p, index, inode) =>
      && At(s, p) && s.consumers[p].Scanned? && index < USED_STAGES && Stage(index) !in s.seen && !InUse(s, inode)
      && t == With(s, p, Staged(index, inode)).(seen := s.seen[Stage(index) := inode], author := s.author[inode := p])
    case GiveUp(p) =>
      && At(s, p) && (s.consumers[p].Scanned? || s.consumers[p].Staged?)
      && t == With(s, p, Finished(NotCommitted))
    case Link(p, failed, effect) =>
      && At(s, p) && s.consumers[p].Staged?
      && (effect ==> Used !in s.seen) && (!failed ==> effect)
      && (var index, inode := s.consumers[p].index, s.consumers[p].inode;
          t == With(s, p, if failed then LinkFailed(index, inode) else Syncing(index, inode))
               .(seen := if effect then s.seen[Used := inode] else s.seen))
    case Observe(p, readable) =>
      && At(s, p) && s.consumers[p].LinkFailed?
      && (var index, inode := s.consumers[p].index, s.consumers[p].inode;
          t == With(s, p, if !readable then Finished(Unknown)
                          else if Used !in s.seen && Is(s.seen, Stage(index), inode) then Finished(NotCommitted)
                          else Syncing(index, inode)))
    case Sync(p, ok) =>
      && At(s, p) && s.consumers[p].Syncing?
      && t == if ok then With(s, p, Synced(s.consumers[p].index, s.consumers[p].inode)).(disk := s.seen)
              else With(s, p, Finished(Unknown))
    case Check(p, readable) =>
      && At(s, p) && s.consumers[p].Synced?
      && (var index, inode := s.consumers[p].index, s.consumers[p].inode;
          t == With(s, p, if !readable || Used !in s.seen then Finished(Unknown)
                          else Cleaning(Is(s.seen, Used, inode), index, inode)))
    case Clean(p, removed) =>
      && At(s, p) && s.consumers[p].Cleaning?
      && (var c := s.consumers[p];
          t == With(s, p, Finished(if c.own then Consumed else Replayed))
               .(seen := if removed && Is(s.seen, Stage(c.index), c.inode) then s.seen - {Stage(c.index)} else s.seen))
    case Persist(names) =>
      t == s.(disk := Merge(s.disk, s.seen, names))
    case Crash =>
      t == s.(seen := s.disk,
              consumers := map p | p in s.consumers :: if Alive(s.consumers[p]) then Finished(Killed) else s.consumers[p])
    case Remediate(index) =>
      && (forall p | p in s.consumers :: !Alive(s.consumers[p]))
      && t == s.(seen := s.seen - {Stage(index)})
  }

  ghost predicate Does(run: seq<Slot>, i: nat, a: Action) {
    0 < i < |run| && Next(run[i - 1], a, run[i])
  }

  ghost predicate Moves(run: seq<Slot>, i: nat) {
    exists a :: Does(run, i, a)
  }

  ghost predicate IsRun(run: seq<Slot>) {
    run != [] && run[0] == NEW_SLOT && forall i | 0 < i < |run| :: Moves(run, i)
  }

  // ----- What every step keeps -----

  predicate HasFile(phase: Phase) {
    !phase.Scanned? && !phase.Finished?
  }

  /** The inode is behind this name now, or will be again after a crash. */
  ghost predicate Behind(s: Slot, n: Name, inode: nat) {
    Is(s.seen, n, inode) || Is(s.disk, n, inode)
  }

  /** The receipt was written by this consumer. */
  predicate WrittenBy(s: Slot, d: Directory, p: nat) {
    Used in d && Wrote(s.author, p, d[Used])
  }

  predicate Wrote(author: map<nat, nat>, p: nat, inode: nat) {
    inode in author && author[inode] == p
  }

  ghost predicate Files(s: Slot) {
    && (Used in s.disk ==> Is(s.seen, Used, s.disk[Used]))
    && (forall i, j, inode {:trigger Behind(s, Stage(i), inode), Behind(s, Stage(j), inode)} ::
          Behind(s, Stage(i), inode) && Behind(s, Stage(j), inode) ==> i == j)
    && (forall n, inode :: Behind(s, n, inode) ==> inode in s.author)
    && (forall inode | inode in s.author :: s.author[inode] in s.consumers)
  }

  /** What is true of a consumer in its phase. */
  ghost predicate Sound(s: Slot, p: nat, phase: Phase) {
    && (HasFile(phase) ==>
          && Is(s.seen, Stage(phase.index), phase.inode) && Wrote(s.author, p, phase.inode)
          && (forall inode :: Wrote(s.author, p, inode) ==> inode == phase.inode))
    && (phase.Scanned? ==> forall inode :: !Wrote(s.author, p, inode))
    && (phase.Syncing? ==> Used in s.seen)
    && (phase.Synced? || phase.Cleaning? ==> Used in s.disk)
    && (phase.Scanned? || phase.Staged? || phase == Finished(NotCommitted) || phase == Finished(Refused) ==>
          !WrittenBy(s, s.seen, p))
    && (phase.Cleaning? || phase == Finished(Consumed) || phase == Finished(Replayed) ==>
          Used in s.disk && (WrittenBy(s, s.disk, p) <==> phase == Finished(Consumed) || (phase.Cleaning? && phase.own)))
  }

  ghost predicate Inv(s: Slot) {
    Files(s) && forall p | p in s.consumers :: Sound(s, p, s.consumers[p])
  }

  /** Steps that move one consumer and leave the files alone. */
  lemma MoveKeepsInv(s: Slot, p: nat, phase: Phase)
    requires Inv(s) && Sound(s, p, phase)
    ensures Inv(With(s, p, phase))
  {
    var t := With(s, p, phase);
    assert forall n, inode :: Behind(t, n, inode) <==> Behind(s, n, inode);
    forall q | q in t.consumers ensures Sound(t, q, t.consumers[q]) {
      assert q != p ==> Sound(s, q, s.consumers[q]);
    }
  }

  lemma BeginKeepsInv(s: Slot, p: nat, t: Slot)
    requires Inv(s) && Next(s, Begin(p), t)
    ensures Inv(t)
  {
    MoveKeepsInv(s, p, t.consumers[p]);
  }

  lemma PrepareKeepsInv(s: Slot, p: nat, index: nat, inode: nat, t: Slot)
    requires Inv(s) && Next(s, Prepare(p, index, inode), t)
    ensures Inv(t)
  {
    assert Sound(s, p, s.consumers[p]);
    assert forall n :: !Behind(s, n, inode);
    assert forall n, x :: Behind(t, n, x) ==> Behind(s, n, x) || (n == Stage(index) && x == inode);
    assert forall q, x :: Wrote(t.author, q, x) ==> (q == p && x == inode) || Wrote(s.author, q, x);
    forall q | q in t.consumers ensures Sound(t, q, t.consumers[q]) {
      if q != p {
        assert Sound(s, q, s.consumers[q]);
        if HasFile(s.consumers[q]) {
          assert Behind(s, Stage(s.consumers[q].index), s.consumers[q].inode);
        }
      }
    }
  }

  lemma LinkKeepsInv(s: Slot, p: nat, failed: bool, effect: bool, t: Slot)
    requires Inv(s) && Next(s, Link(p, failed, effect), t)
    ensures Inv(t)
  {
    var inode := s.consumers[p].inode;
    assert Sound(s, p, s.consumers[p]);
    forall n, x | Behind(t, n, x) ensures Behind(s, n, x) || (n == Used && x == inode) {
    }
    assert Behind(s, Stage(s.consumers[p].index), inode);
    forall q | q in t.consumers ensures Sound(t, q, t.consumers[q]) {
      assert q != p ==> Sound(s, q, s.consumers[q]);
    }
  }

  lemma ObserveKeepsInv(s: Slot, p: nat, readable: bool, t: Slot)
    requires Inv(s) && Next(s, Observe(p, readable), t)
    ensures Inv(t)
  {
    assert Sound(s, p, s.consumers[p]);
    MoveKeepsInv(s, p, t.consumers[p]);
  }

  lemma SyncKeepsInv(s: Slot, p: nat, ok: bool, t: Slot)
    requires Inv(s) && Next(s, Sync(p, ok), t)
    ensures Inv(t)
  {
    assert Sound(s, p, s.consumers[p]);
    assert forall n, x :: Behind(t, n, x) ==> Behind(s, n, x);
    forall q | q in t.consumers ensures Sound(t, q, t.consumers[q]) {
      assert q != p ==> Sound(s, q, s.consumers[q]);
    }
  }

  lemma CheckKeepsInv(s: Slot, p: nat, readable: bool, t: Slot)
    requires Inv(s) && Next(s, Check(p, readable), t)
    ensures Inv(t)
  {
    assert Sound(s, p, s.consumers[p]);
    MoveKeepsInv(s, p, t.consumers[p]);
  }

  lemma CleanKeepsInv(s: Slot, p: nat, removed: bool, t: Slot)
    requires Inv(s) && Next(s, Clean(p, removed), t)
    ensures Inv(t)
  {
    assert Sound(s, p, s.consumers[p]);
    assert forall n, x :: Behind(t, n, x) ==> Behind(s, n, x);
    forall q | q in t.consumers ensures Sound(t, q, t.consumers[q]) {
      assert q != p ==> Sound(s, q, s.consumers[q]);
    }
  }

  lemma IdleKeepsInv(s: Slot, a: Action, t: Slot)
    requires Inv(s) && (a.Persist? || a.Crash? || a.Remediate?) && Next(s, a, t)
    ensures Inv(t)
  {
    assert forall n, x :: Behind(t, n, x) ==> Behind(s, n, x);
    forall q | q in t.consumers ensures Sound(t, q, t.consumers[q]) {
      assert Sound(s, q, s.consumers[q]);
    }
  }

  lemma StepKeepsInv(s: Slot, a: Action, t: Slot)
    requires Inv(s) && Next(s, a, t)
    ensures Inv(t)
  {
    match a
    case Begin(p) => BeginKeepsInv(s, p, t);
    case Prepare(p, index, inode) => PrepareKeepsInv(s, p, index, inode, t);
    case GiveUp(p) =>
      assert Sound(s, p, s.consumers[p]);
      MoveKeepsInv(s, p, t.consumers[p]);
    case Link(p, failed, effect) => LinkKeepsInv(s, p, failed, effect, t);
    case Observe(p, readable) => ObserveKeepsInv(s, p, readable, t);
    case Sync(p, ok) => SyncKeepsInv(s, p, ok, t);
    case Check(p, readable) => CheckKeepsInv(s, p, readable, t);
    case Clean(p, removed) => CleanKeepsInv(s, p, removed, t);
    case Persist(_) => IdleKeepsInv(s, a, t);
    case Crash => IdleKeepsInv(s, a, t);
    case Remediate(_) => IdleKeepsInv(s, a, t);
  }

  lemma {:induction false} RunKeepsInv(run: seq<Slot>, i: nat)
    requires IsRun(run) && i < |run|
    ensures Inv(run[i])
  {
    if 0 < i {
      RunKeepsInv(run, i - 1);
      assert Moves(run, i);
      var a :| Does(run, i, a);
      StepKeepsInv(run[i - 1], a, run[i]);
    }
  }

  // ----- Over whole runs -----

  predicate Ended(s: Slot, p: nat, outcome: Outcome) {
    p in s.consumers && s.consumers[p] == Finished(outcome)
  }

  /** The receipt of this consumer is stored for good. */
  predicate Holds(s: Slot, p: nat) {
    WrittenBy(s, s.disk, p) && Is(s.seen, Used, s.disk[Used])
  }

  /** An outcome, and a stored receipt, stay what they are through every step. */
  lemma StepKeepsResults(s: Slot, a: Action, t: Slot, p: nat)
    requires Inv(s) && Next(s, a, t) && p in s.consumers && s.consumers[p].Finished?
    ensures p in t.consumers && t.consumers[p] == s.consumers[p]
    ensures Used in s.disk ==> Is(t.disk, Used, s.disk[Used])
    ensures Holds(s, p) ==> Holds(t, p)
  {
    StepKeepsInv(s, a, t);
    if Used in s.disk {
      assert Behind(s, Used, s.disk[Used]);
      assert !a.Prepare? || a.inode != s.disk[Used];
    }
  }

  lemma {:induction false} ResultsLast(run: seq<Slot>, i: nat, j: nat, p: nat)
    requires IsRun(run) && i <= j < |run| && p in run[i].consumers && run[i].consumers[p].Finished?
    ensures p in run[j].consumers && run[j].consumers[p] == run[i].consumers[p]
    ensures Holds(run[i], p) ==> Holds(run[j], p)
    ensures Used in run[i].disk ==> Used in run[j].disk
    decreases j
  {
    if i < j {
      ResultsLast(run, i, j - 1, p);
      RunKeepsInv(run, j - 1);
      assert Moves(run, j);
      var a :| Does(run, j, a);
      StepKeepsResults(run[j - 1], a, run[j], p);
    }
  }

  /** Of all the consumers there ever are, whatever the interleaving and the crashes, at most one succeeds. */
  lemma ConsumedAtMostOnce(run: seq<Slot>, i: nat, j: nat, p: nat, q: nat)
    requires IsRun(run) && i < |run| && j < |run| && Ended(run[i], p, Consumed) && Ended(run[j], q, Consumed)
    ensures p == q
  {
    var k := if i < j then j else i;
    ResultsLast(run, i, k, p);
    ResultsLast(run, j, k, q);
    RunKeepsInv(run, k);
    assert Sound(run[k], p, run[k].consumers[p]) && Sound(run[k], q, run[k].consumers[q]);
  }

  /** The receipt of a success is stored for good, and every consumer that begins later is refused at once. */
  lemma SuccessIsFinal(run: seq<Slot>, i: nat, j: nat, p: nat)
    requires IsRun(run) && i <= j < |run| && Ended(run[i], p, Consumed)
    ensures Holds(run[j], p)
    ensures forall q | Does(run, j, Begin(q)) && i < j :: Ended(run[j], q, Refused)
  {
    RunKeepsInv(run, i);
    assert Sound(run[i], p, run[i].consumers[p]);
    ResultsLast(run, i, j, p);
    if i < j {
      ResultsLast(run, i, j - 1, p);
    }
  }

  /** A consumer told that it lost the race, too, leaves a stored receipt: that of another consumer. */
  lemma ReplayIsFinal(run: seq<Slot>, i: nat, j: nat, p: nat)
    requires IsRun(run) && i <= j < |run| && Ended(run[i], p, Replayed)
    ensures Used in run[j].disk && !WrittenBy(run[j], run[j].disk, p)
  {
    ResultsLast(run, i, j, p);
    RunKeepsInv(run, i);
    assert Sound(run[i], p, run[i].consumers[p]);
    RunKeepsInv(run, j);
    assert Sound(run[j], p, run[j].consumers[p]);
  }

  /** A certain failure is one: no later state has that consumer's receipt. */
  lemma FailureIsCertain(run: seq<Slot>, i: nat, j: nat, p: nat)
    requires IsRun(run) && i <= j < |run| && (Ended(run[i], p, NotCommitted) || Ended(run[i], p, Refused))
    ensures !WrittenBy(run[j], run[j].seen, p) && !WrittenBy(run[j], run[j].disk, p)
  {
    ResultsLast(run, i, j, p);
    RunKeepsInv(run, j);
    assert Sound(run[j], p, run[j].consumers[p]);
  }

  // ----- The link counts that a scan checks -----

  ghost function Entries(d: Directory, inode: nat): set<Name> {
    set n | n in d && d[n] == inode
  }

  ghost function LinkCount(d: Directory, inode: nat): nat {
    |Entries(d, inode)|
  }

  /** src/phase3/durableApproval.ts:2544-2562 */
  ghost predicate TopologyOk(d: Directory) {
    && (forall i | Stage(i) in d ::
          || LinkCount(d, d[Stage(i)]) == 1
          || (LinkCount(d, d[Stage(i)]) == 2 && Used in d && d[Used] == d[Stage(i)]))
    && (Used in d && LinkCount(d, d[Used]) == 2 ==>
          exists i :: Is(d, Stage(i), d[Used]) && forall j :: Is(d, Stage(j), d[Used]) ==> j == i)
  }

  lemma StageEntries(s: Slot, i: nat)
    requires Inv(s) && Stage(i) in s.seen
    ensures Entries(s.seen, s.seen[Stage(i)]) ==
            if Is(s.seen, Used, s.seen[Stage(i)]) then {Stage(i), Used} else {Stage(i)}
  {
    var inode := s.seen[Stage(i)];
    forall n | n in Entries(s.seen, inode) ensures n == Stage(i) || n == Used {
      if n.Stage? {
        assert Behind(s, Stage(n.index), inode) && Behind(s, Stage(i), inode);
      }
    }
  }

  lemma UnstagedCount(d: Directory)
    requires Used in d && forall i :: !Is(d, Stage(i), d[Used])
    ensures LinkCount(d, d[Used]) == 1
  {
    forall n | n in Entries(d, d[Used]) ensures n == Used {
      assert n.Stage? ==> Is(d, Stage(n.index), d[Used]);
    }
    assert Entries(d, d[Used]) == {Used};
  }

  /** In every reachable state, also right after a crash, the link counts are as a scan demands. */
  lemma TopologyStaysOk(run: seq<Slot>, k: nat)
    requires IsRun(run) && k < |run|
    ensures TopologyOk(run[k].seen)
  {
    var s := run[k];
    RunKeepsInv(run, k);
    forall i | Stage(i) in s.seen
      ensures Entries(s.seen, s.seen[Stage(i)]) ==
              if Is(s.seen, Used, s.seen[Stage(i)]) then {Stage(i), Used} else {Stage(i)}
    {
      StageEntries(s, i);
    }
    if Used in s.seen && LinkCount(s.seen, s.seen[Used]) == 2 {
      var inode := s.seen[Used];
      if forall i :: !Is(s.seen, Stage(i), inode) {
        UnstagedCount(s.seen);
      }
      var i :| Is(s.seen, Stage(i), inode);
      assert forall j :: Is(s.seen, Stage(j), inode) ==> Behind(s, Stage(j), inode) && Behind(s, Stage(i), inode);
    }
  }
}
