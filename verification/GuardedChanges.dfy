/**
 Guarded changes, which have no conditional write to rely on (src/guardedChanges.ts:55-106, 191-347,
 489-516). Applications of different proposals run concurrently in one process; records become
 durable step by step, and a crash forgets the process and whatever was not durable.
 */
module GuardedChanges {
  datatype Status = Prepared | Verified | NotSent

  /** What a proposal is about; an archival moves these records out of the way. */
  datatype Plan = Plan(target: string, archives: set<nat>)

  /** The record of an application, in the active directory or in the archive. */
  datatype Record = Record(target: string, status: Status, archived: bool)

  datatype Item = Pending | Applying | Settled

  /** How far an application has got. */
  datatype Stage = Started | Checked | Opened | Synced | Sent

  /** Plans and sends are the history; items, busy targets and running applications belong to the process. */
  datatype System = System(
    plans: map<nat, Plan>, sends: seq<nat>,
    items: map<nat, Item>, busy: set<string>, running: map<nat, Stage>,
    seen: map<nat, Record>, disk: map<nat, Record>)

  const NEW_SYSTEM := System(map[], [], map[], {}, map[], map[], map[])

  datatype Action =
    | Propose(p: nat, plan: Plan)
    | Expire(p: nat)
    | Start(p: nat)
    | Check(p: nat)
    | Open(p: nat)
    | Sync(p: nat)
    | Send(p: nat)
    | Move(p: nat, id: nat)
    | Finish(p: nat)
    | Fail(p: nat, noted: bool)
    | PersistStatus(id: nat)
    | PersistPlace(id: nat)
    | Crash

  predicate IsSettled(r: Record) {
    !r.status.Prepared?
  }

  predicate Runs(s: System, p: nat, stage: Stage) {
    p in s.running && s.running[p] == stage && p in s.plans
  }

  /** An unsettled record of the target, not archived, other than the application's own. */
  predicate Blocks(seen: map<nat, Record>, id: nat, p: nat, target: string) {
    id in seen && id != p && seen[id].target == target && !seen[id].archived && !IsSettled(seen[id])
  }

  ghost predicate Clear(seen: map<nat, Record>, p: nat, target: string) {
    forall id :: !Blocks(seen, id, p, target)
  }

  /** Only settled records that are there and not yet archived. */
  predicate Archivable(s: System, ids: set<nat>) {
    forall id | id in ids :: id in s.seen && IsSettled(s.seen[id]) && !s.seen[id].archived
  }

  function Ended(s: System, p: nat, item: Item): System
    requires p in s.plans
  {
    s.(items := s.items[p := item], busy := s.busy - {s.plans[p].target}, running := s.running - {p})
  }

  function WithStatus(r: Record, status: Status): Record {
    r.(status := status)
  }

  ghost predicate Next(s: System, a: Action, t: System) {
    match a
    case Propose(p, plan) =>
      p !in s.plans && t == s.(plans := s.plans[p := plan], items := s.items[p := Pending])
    case Expire(p) =>
      p in s.items && !s.items[p].Applying? && t == s.(items := s.items - {p})
    case Start(p) =>
      && p in s.items && s.items[p].Pending? && p in s.plans && s.plans[p].target !in s.busy
      && t == s.(items := s.items[p := Applying], busy := s.busy + {s.plans[p].target}, running := s.running[p := Started])
    case Check(p) =>
      && Runs(s, p, Started) && Clear(s.seen, p, s.plans[p].target)
      && t == s.(running := s.running[p := Checked])
    case Open(p) =>
      && Runs(s, p, Checked) && p !in s.seen
      && t == s.(running := s.running[p := Opened], seen := s.seen[p := Record(s.plans[p].target, Prepared, false)])
    case Sync(p) =>
      && Runs(s, p, Opened) && p in s.seen
      && t == s.(running := s.running[p := Synced], disk := s.disk[p := s.seen[p]])
    case Send(p) =>
      && Runs(s, p, Synced) && Archivable(s, s.plans[p].archives)
      && t == s.(running := s.running[p := Sent], sends := s.sends + [p])
    case Move(p, id) =>
      && Runs(s, p, Sent) && id in s.plans[p].archives && id in s.seen && !s.seen[id].archived
      && t == s.(seen := s.seen[id := s.seen[id].(archived := true)])
    case Finish(p) =>
      && Runs(s, p, Sent) && p in s.seen && p in s.disk
      && t == Ended(s, p, Settled).(seen := s.seen[p := WithStatus(s.seen[p], Verified)],
                                    disk := s.disk[p := WithStatus(s.disk[p], Verified)])
    case Fail(p, noted) =>
      && p in s.running && p in s.plans
      && (noted ==> p in s.seen && (s.running[p].Opened? || s.running[p].Synced? || s.running[p].Sent?))
      && t == Ended(s, p, if s.running[p].Started? || s.running[p].Checked? then Pending else Settled)
              .(seen := if noted then s.seen[p := WithStatus(s.seen[p], if s.running[p].Sent? then Verified else NotSent)]
                        else s.seen)
    case PersistStatus(id) =>
      && id in s.seen
      && t == s.(disk := s.disk[id := if id in s.disk then WithStatus(s.disk[id], s.seen[id].status)
                                      else s.seen[id].(archived := false)])
    case PersistPlace(id) =>
      && id in s.seen && id in s.disk
      && t == s.(disk := s.disk[id := s.disk[id].(archived := s.seen[id].archived)])
    case Crash =>
      t == System(s.plans, s.sends, map[], {}, map[], s.disk, s.disk)
  }

  ghost predicate Does(run: seq<System>, i: nat, a: Action) {
    0 < i < |run| && Next(run[i - 1], a, run[i])
  }

  ghost predicate Moves(run: seq<System>, i: nat) {
    exists a :: Does(run, i, a)
  }

  ghost predicate IsRun(run: seq<System>) {
    run != [] && run[0] == NEW_SYSTEM && forall i | 0 < i < |run| :: Moves(run, i)
  }

  // ----- What every step keeps -----

  /** The record on the disk lags behind the one seen, but never contradicts it. */
  predicate Lags(d: Record, r: Record) {
    && d.target == r.target && (d.archived ==> r.archived) && (IsSettled(d) ==> IsSettled(r))
  }

  ghost predicate Records(s: System) {
    && (forall id | id in s.disk :: id in s.seen && Lags(s.disk[id], s.seen[id]))
    && (forall id | id in s.seen :: id in s.plans && s.seen[id].target == s.plans[id].target)
    && (forall i | 0 <= i < |s.sends| :: s.sends[i] in s.disk)
    && (forall i, j | 0 <= i < j < |s.sends| :: s.sends[i] != s.sends[j])
  }

  /** Only what has not been attempted can be started, and only one application at a time for each target. */
  ghost predicate Processes(s: System) {
    && (forall p | p in s.running :: p in s.items && s.items[p].Applying? && p in s.plans && s.plans[p].target in s.busy)
    && (forall p, q | p in s.running && q in s.running && s.plans[p].target == s.plans[q].target :: p == q)
    && (forall p | p in s.items :: p in s.plans && (s.items[p].Pending? ==> p !in s.seen))
  }

  /** What holds of a running application. */
  ghost predicate Guarded(s: System, p: nat, stage: Stage) {
    && p in s.plans
    && (stage.Started? || stage.Checked? ==> p !in s.seen)
    && (stage.Opened? || stage.Synced? ==> p in s.seen && p !in s.sends && !IsSettled(s.seen[p]) && !s.seen[p].archived)
    && (stage.Synced? || stage.Sent? ==> p in s.seen && p in s.disk)
    && (stage.Sent? ==> p in s.sends && forall id | id in s.plans[p].archives :: id in s.seen && IsSettled(s.seen[id]))
    && (!stage.Started? ==> Clear(s.seen, p, s.plans[p].target))
  }

  ghost predicate Inv(s: System) {
    Records(s) && Processes(s) && forall p | p in s.running :: Guarded(s, p, s.running[p])
  }

  lemma ProposeKeepsInv(s: System, p: nat, plan: Plan, t: System)
    requires Inv(s) && Next(s, Propose(p, plan), t)
    ensures Inv(t)
  {
    forall q | q in t.running ensures Guarded(t, q, t.running[q]) {
      assert Guarded(s, q, s.running[q]);
    }
  }

  lemma ExpireKeepsInv(s: System, p: nat, t: System)
    requires Inv(s) && Next(s, Expire(p), t)
    ensures Inv(t)
  {
    forall q | q in t.running ensures Guarded(t, q, t.running[q]) {
      assert Guarded(s, q, s.running[q]);
    }
  }

  lemma StartKeepsInv(s: System, p: nat, t: System)
    requires Inv(s) && Next(s, Start(p), t)
    ensures Inv(t)
  {
    forall q | q in t.running ensures Guarded(t, q, t.running[q]) {
      assert q != p ==> Guarded(s, q, s.running[q]);
    }
  }

  lemma CheckKeepsInv(s: System, p: nat, t: System)
    requires Inv(s) && Next(s, Check(p), t)
    ensures Inv(t)
  {
    forall q | q in t.running ensures Guarded(t, q, t.running[q]) {
      assert Guarded(s, q, s.running[q]);
    }
  }

  /** A new record of a target blocks nobody: no other application of the target is running. */
  lemma OpenKeepsGuards(s: System, p: nat, t: System)
    requires Inv(s) && Next(s, Open(p), t)
    ensures forall q | q in t.running :: Guarded(t, q, t.running[q])
  {
    assert Guarded(s, p, s.running[p]);
    forall q | q in t.running ensures Guarded(t, q, t.running[q]) {
      assert Guarded(s, q, s.running[q]);
      forall id | Blocks(t.seen, id, q, t.plans[q].target) ensures t.running[q].Started? {
        assert id != p ==> Blocks(s.seen, id, q, s.plans[q].target);
      }
    }
  }

  lemma OpenKeepsInv(s: System, p: nat, t: System)
    requires Inv(s) && Next(s, Open(p), t)
    ensures Inv(t)
  {
    OpenKeepsGuards(s, p, t);
  }

  /** Records only become settled and archived. */
  ghost predicate Calmer(seen: map<nat, Record>, seen': map<nat, Record>) {
    && seen.Keys == seen'.Keys
    && forall id | id in seen :: Lags(seen[id], seen'[id])
  }

  /** What the other applications do does not disturb this one. */
  lemma StaysGuarded(s: System, t: System, q: nat, stage: Stage)
    requires Guarded(s, q, stage) && t.plans == s.plans && s.disk.Keys <= t.disk.Keys && Calmer(s.seen, t.seen)
    requires q in s.seen ==> t.seen[q] == s.seen[q]
    requires q in t.sends <==> q in s.sends
    ensures Guarded(t, q, stage)
  {
    assert forall id, target :: Blocks(t.seen, id, q, target) ==> Blocks(s.seen, id, q, target);
  }

  lemma SyncKeepsInv(s: System, p: nat, t: System)
    requires Inv(s) && Next(s, Sync(p), t)
    ensures Inv(t)
  {
    assert Guarded(s, p, s.running[p]);
    forall q | q in t.running ensures Guarded(t, q, t.running[q]) {
      if q != p {
        StaysGuarded(s, t, q, s.running[q]);
      }
    }
  }

  lemma SendKeepsInv(s: System, p: nat, t: System)
    requires Inv(s) && Next(s, Send(p), t)
    ensures Inv(t)
  {
    assert Guarded(s, p, s.running[p]);
    forall q | q in t.running ensures Guarded(t, q, t.running[q]) {
      if q != p {
        StaysGuarded(s, t, q, s.running[q]);
      }
    }
  }

  lemma MoveKeepsInv(s: System, p: nat, id: nat, t: System)
    requires Inv(s) && Next(s, Move(p, id), t)
    ensures Inv(t)
  {
    assert Guarded(s, p, s.running[p]);
    forall q | q in t.running ensures Guarded(t, q, t.running[q]) {
      assert Guarded(s, q, s.running[q]);
      if q != id {
        StaysGuarded(s, t, q, s.running[q]);
      } else {
        assert forall other, target :: Blocks(t.seen, other, q, target) ==> Blocks(s.seen, other, q, target);
      }
    }
  }

  lemma Settles(seen: map<nat, Record>, p: nat, status: Status)
    requires p in seen && !status.Prepared?
    ensures Calmer(seen, seen[p := WithStatus(seen[p], status)])
  {
  }

  /** The application ends, and its own record, if it has one, may be settled. */
  ghost predicate Ends(s: System, p: nat, item: Item, t: System) {
    && p in s.running && p in s.plans
    && t.running == s.running - {p} && t.items == s.items[p := item]
    && t.plans == s.plans && t.busy == s.busy - {s.plans[p].target} && t.sends == s.sends
    && Calmer(s.seen, t.seen) && (forall q | q in s.seen && q != p :: t.seen[q] == s.seen[q])
    && t.disk.Keys == s.disk.Keys && forall id | id in t.disk :: id in t.seen && Lags(t.disk[id], t.seen[id])
  }

  lemma EndKeepsProcesses(s: System, p: nat, item: Item, t: System)
    requires Processes(s) && Ends(s, p, item, t) && (item.Pending? ==> p !in s.seen)
    ensures Processes(t)
  {
  }

  lemma EndKeepsRecords(s: System, p: nat, item: Item, t: System)
    requires Records(s) && Ends(s, p, item, t)
    ensures Records(t)
  {
    assert forall id :: id in t.disk <==> id in s.disk;
  }

  lemma EndKeepsGuards(s: System, p: nat, item: Item, t: System)
    requires (forall q | q in s.running :: Guarded(s, q, s.running[q])) && Ends(s, p, item, t)
    ensures forall q | q in t.running :: Guarded(t, q, t.running[q])
  {
    forall q | q in t.running ensures Guarded(t, q, t.running[q]) {
      StaysGuarded(s, t, q, s.running[q]);
    }
  }

  lemma EndKeepsInv(s: System, p: nat, item: Item, t: System)
    requires Inv(s) && Ends(s, p, item, t) && (item.Pending? ==> p !in s.seen)
    ensures Inv(t)
  {
    EndKeepsProcesses(s, p, item, t);
    EndKeepsRecords(s, p, item, t);
    EndKeepsGuards(s, p, item, t);
  }

  lemma FinishKeepsInv(s: System, p: nat, t: System)
    requires Inv(s) && Next(s, Finish(p), t)
    ensures Inv(t)
  {
    Settles(s.seen, p, Verified);
    EndKeepsInv(s, p, Settled, t);
  }

  lemma SilentFailKeepsInv(s: System, p: nat, t: System)
    requires Inv(s) && Next(s, Fail(p, false), t)
    ensures Inv(t)
  {
    assert Guarded(s, p, s.running[p]);
    EndKeepsInv(s, p, t.items[p], t);
  }

  lemma NotedFailKeepsInv(s: System, p: nat, t: System)
    requires Inv(s) && Next(s, Fail(p, true), t)
    ensures Inv(t)
  {
    Settles(s.seen, p, t.seen[p].status);
    EndKeepsInv(s, p, Settled, t);
  }

  lemma DiskKeepsInv(s: System, a: Action, t: System)
    requires Inv(s) && (a.PersistStatus? || a.PersistPlace? || a.Crash?) && Next(s, a, t)
    ensures Inv(t)
  {
    forall q | q in t.running ensures Guarded(t, q, t.running[q]) {
      StaysGuarded(s, t, q, s.running[q]);
    }
  }

  lemma StepKeepsInv(s: System, a: Action, t: System)
    requires Inv(s) && Next(s, a, t)
    ensures Inv(t)
  {
    match a
    case Propose(p, plan) => ProposeKeepsInv(s, p, plan, t);
    case Expire(p) => ExpireKeepsInv(s, p, t);
    case Start(p) => StartKeepsInv(s, p, t);
    case Check(p) => CheckKeepsInv(s, p, t);
    case Open(p) => OpenKeepsInv(s, p, t);
    case Sync(p) => SyncKeepsInv(s, p, t);
    case Send(p) => SendKeepsInv(s, p, t);
    case Move(p, id) => MoveKeepsInv(s, p, id, t);
    case Finish(p) => FinishKeepsInv(s, p, t);
    case Fail(p, noted) =>
      if noted {
        NotedFailKeepsInv(s, p, t);
      } else {
        SilentFailKeepsInv(s, p, t);
      }
    case PersistStatus(_) => DiskKeepsInv(s, a, t);
    case PersistPlace(_) => DiskKeepsInv(s, a, t);
    case Crash => DiskKeepsInv(s, a, t);
  }

  lemma {:induction false} RunKeepsInv(run: seq<System>, i: nat)
    requires IsRun(run) && i < |run|
    ensures Inv(run[i])
  {
    if 0 < i {
      RunKeepsInv(run, i - 1);
      assert Moves(run, i);
      var a :| Does(run, i, a);
      StepKeepsInv(run[i - 1], a, run[i]);
    }
  }

  // ----- Over whole runs -----

  /**
   A change is sent at most once, and only with its prepared record on the disk and no other unsettled record of
   its target in sight.
   */
  lemma SentAtMostOnce(run: seq<System>, i: nat, j: nat, p: nat)
    requires IsRun(run) && Does(run, i, Send(p)) && Does(run, j, Send(p))
    ensures i == j
    ensures p in run[i - 1].disk && !IsSettled(run[i - 1].disk[p])
    ensures Clear(run[i - 1].seen, p, run[i - 1].plans[p].target)
  {
    RunKeepsInv(run, i - 1);
    RunKeepsInv(run, j - 1);
    assert Guarded(run[i - 1], p, Synced) && Guarded(run[j - 1], p, Synced);
    if i < j {
      SendsGrow(run, i, j - 1, p);
    } else if j < i {
      SendsGrow(run, j, i - 1, p);
    }
  }

  lemma {:induction false} SendsGrow(run: seq<System>, i: nat, j: nat, p: nat)
    requires IsRun(run) && i <= j < |run| && p in run[i].sends
    ensures p in run[j].sends
    decreases j
  {
    if i < j {
      SendsGrow(run, i, j - 1, p);
      assert Moves(run, j);
    }
  }

  /** The outcome is not known: the change was sent, nobody is at work on it any more, and its record is still there. */
  predicate Uncertain(s: System, p: nat) {
    p in s.sends && p in s.seen && !IsSettled(s.seen[p]) && !s.seen[p].archived && p !in s.running
  }

  lemma StaysUncertain(s: System, a: Action, t: System, p: nat)
    requires Inv(s) && Next(s, a, t) && Uncertain(s, p)
    ensures Uncertain(t, p) && t.seen[p].target == s.seen[p].target
    ensures a.Send? ==> s.plans[a.p].target != s.seen[p].target
  {
    assert p in s.disk;
    if a.Move? {
      assert Guarded(s, a.p, s.running[a.p]);
    }
    if a.Send? {
      assert Guarded(s, a.p, s.running[a.p]);
      assert !Blocks(s.seen, p, a.p, s.plans[a.p].target);
    }
  }

  /** After an uncertain change nothing is ever sent to its target again, through any number of restarts. */
  lemma {:induction false} UncertainBlocksForever(run: seq<System>, i: nat, j: nat, p: nat)
    requires IsRun(run) && i <= j < |run| && Uncertain(run[i], p)
    ensures Uncertain(run[j], p) && run[j].seen[p].target == run[i].seen[p].target
    ensures i < j ==> forall q | Does(run, j, Send(q)) :: run[j - 1].plans[q].target != run[i].seen[p].target
    decreases j
  {
    if i < j {
      UncertainBlocksForever(run, i, j - 1, p);
      RunKeepsInv(run, j - 1);
      assert Moves(run, j);
      var a :| Does(run, j, a);
      StaysUncertain(run[j - 1], a, run[j], p);
      forall q | Does(run, j, Send(q)) ensures run[j - 1].plans[q].target != run[i].seen[p].target {
        StaysUncertain(run[j - 1], Send(q), run[j], p);
      }
    }
  }

  /** Only settled records are archived, and the archive loses none. */
  lemma OnlySettledIsArchived(run: seq<System>, i: nat, p: nat, id: nat)
    requires IsRun(run) && Does(run, i, Move(p, id))
    ensures IsSettled(run[i - 1].seen[id]) && run[i].seen == run[i - 1].seen[id := run[i - 1].seen[id].(archived := true)]
  {
    RunKeepsInv(run, i - 1);
    assert Guarded(run[i - 1], p, Sent);
  }

  /** Whatever was sent has a record, seen and on the disk, in every later state. */
  lemma SentIsRecorded(run: seq<System>, i: nat, j: nat, p: nat)
    requires IsRun(run) && i <= j < |run| && p in run[i].sends
    ensures p in run[j].disk && p in run[j].seen && p in run[j].plans && run[j].seen[p].target == run[j].plans[p].target
  {
    SendsGrow(run, i, j, p);
    RunKeepsInv(run, j);
  }
}
