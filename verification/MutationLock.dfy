/** The single mutation lock with its bounded queue (src/phase3/resourceLocks.ts). */
module MutationLock {
  import opened Wrappers

  datatype LockError = DeadlineExceeded | OperationCancelled | MaxWaitersExceeded

  /** Requests are numbered in the order of their arrival. */
  datatype Waiter = Waiter(ticket: nat, deadline: int)

  /** What an acquisition returns at once: a lease, a place in the queue, or an error. */
  datatype Answer = Leased | Queued | Refused(error: LockError)

  predicate Increasing(s: seq<nat>) {
    forall i, j | 0 <= i < j < |s| :: s[i] < s[j]
  }

  ghost predicate Waits(queue: seq<Waiter>, ticket: nat) {
    exists i :: 0 <= i < |queue| && queue[i].ticket == ticket
  }

  ghost predicate Known(granted: seq<nat>, queue: seq<Waiter>, rejected: map<nat, LockError>, t: nat) {
    t in granted || Waits(queue, t) || t in rejected
  }

  /**
   Every request has been granted, waits, or has been rejected; grants follow the order of arrival, and
   everybody who waits arrived after everybody who was granted.
   */
  ghost predicate InOrder(granted: seq<nat>, queue: seq<Waiter>, rejected: map<nat, LockError>, arrivals: nat) {
    && Increasing(granted)
    && (forall i, j | 0 <= i < j < |queue| :: queue[i].ticket < queue[j].ticket)
    && (forall i, j | 0 <= i < |granted| && 0 <= j < |queue| :: granted[i] < queue[j].ticket)
    && (forall i | 0 <= i < |granted| :: granted[i] < arrivals && granted[i] !in rejected)
    && (forall i | 0 <= i < |queue| :: queue[i].ticket < arrivals && queue[i].ticket !in rejected)
    && (forall t | t in rejected :: t < arrivals)
    && (forall t: nat | t < arrivals :: Known(granted, queue, rejected, t))
  }

  lemma Join(granted: seq<nat>, queue: seq<Waiter>, rejected: map<nat, LockError>, arrivals: nat, deadline: int)
    requires InOrder(granted, queue, rejected, arrivals)
    ensures InOrder(granted, queue + [Waiter(arrivals, deadline)], rejected, arrivals + 1)
  {
    var grown := queue + [Waiter(arrivals, deadline)];
    assert grown[|queue|].ticket == arrivals;
    forall t: nat | t < arrivals + 1 ensures Known(granted, grown, rejected, t) {
      assert t < arrivals ==> Known(granted, queue, rejected, t);
      if Waits(queue, t) {
        var i :| 0 <= i < |queue| && queue[i].ticket == t;
        assert grown[i].ticket == t;
      }
    }
  }

  lemma Leave(granted: seq<nat>, queue: seq<Waiter>, rejected: map<nat, LockError>, arrivals: nat, k: nat, error: LockError)
    requires InOrder(granted, queue, rejected, arrivals) && k < |queue|
    ensures InOrder(granted, queue[..k] + queue[k + 1..], rejected[queue[k].ticket := error], arrivals)
  {
    var rest, more := queue[..k] + queue[k + 1..], rejected[queue[k].ticket := error];
    forall t: nat | t < arrivals ensures Known(granted, rest, more, t) {
      assert Known(granted, queue, rejected, t);
      if Waits(queue, t) && t != queue[k].ticket {
        var i :| 0 <= i < |queue| && queue[i].ticket == t;
        assert rest[if i < k then i else i - 1].ticket == t;
      }
    }
  }

  lemma Promote(granted: seq<nat>, queue: seq<Waiter>, rejected: map<nat, LockError>, arrivals: nat)
    requires InOrder(granted, queue, rejected, arrivals) && queue != []
    ensures InOrder(granted + [queue[0].ticket], queue[1..], rejected, arrivals)
  {
    var more := granted + [queue[0].ticket];
    assert more[|granted|] == queue[0].ticket;
    forall t: nat | t < arrivals ensures Known(more, queue[1..], rejected, t) {
      assert Known(granted, queue, rejected, t);
      if Waits(queue, t) {
        var i :| 0 <= i < |queue| && queue[i].ticket == t;
        if 0 < i {
          assert queue[1..][i - 1].ticket == t;
        }
      }
    }
  }

  lemma Grant(granted: seq<nat>, rejected: map<nat, LockError>, arrivals: nat)
    requires InOrder(granted, [], rejected, arrivals)
    ensures InOrder(granted + [arrivals], [], rejected, arrivals + 1)
  {
    assert (granted + [arrivals])[|granted|] == arrivals;
    forall t: nat | t < arrivals + 1 ensures Known(granted + [arrivals], [], rejected, t) {
      assert t < arrivals ==> Known(granted, [], rejected, t);
    }
  }

  lemma Turn(granted: seq<nat>, queue: seq<Waiter>, rejected: map<nat, LockError>, arrivals: nat, error: LockError)
    requires InOrder(granted, queue, rejected, arrivals)
    ensures InOrder(granted, queue, rejected[arrivals := error], arrivals + 1)
  {
    var more := rejected[arrivals := error];
    forall t: nat | t < arrivals + 1 ensures Known(granted, queue, more, t) {
      assert t < arrivals ==> Known(granted, queue, rejected, t);
    }
  }

  lemma WaitsLonger(queue: seq<Waiter>, w: Waiter, t: nat)
    requires t == w.ticket || Waits(queue, t)
    ensures Waits(queue + [w], t)
  {
    var grown := queue + [w];
    if t == w.ticket {
      assert grown[|queue|].ticket == t;
    } else {
      var i :| 0 <= i < |queue| && queue[i].ticket == t;
      assert grown[i].ticket == t;
    }
  }

  lemma WaitsStill(queue: seq<Waiter>, k: nat, t: nat)
    requires k < |queue| && t != queue[k].ticket && Waits(queue, t)
    ensures Waits(queue[..k] + queue[k + 1..], t)
  {
    var rest := queue[..k] + queue[k + 1..];
    var i :| 0 <= i < |queue| && queue[i].ticket == t;
    assert rest[if i < k then i else i - 1].ticket == t;
  }

  ghost predicate Keeps(rejected: map<nat, LockError>, rejected': map<nat, LockError>) {
    forall t | t in rejected :: t in rejected' && rejected'[t] == rejected[t]
  }

  /** A waiter that a hand-over passes by, and what it is told. */
  predicate PassedBy(w: Waiter, aborted: set<nat>, rejected: map<nat, LockError>, later: int) {
    && (w.ticket in aborted || w.deadline <= later) && w.ticket in rejected
    && rejected[w.ticket] == if w.ticket in aborted then OperationCancelled else DeadlineExceeded
  }

  ghost predicate AllPassedBy(queue: seq<Waiter>, aborted: set<nat>, rejected: map<nat, LockError>, later: int) {
    forall i | 0 <= i < |queue| :: PassedBy(queue[i], aborted, rejected, later)
  }

  lemma AllPassedLater(queue: seq<Waiter>, aborted: set<nat>, rejected: map<nat, LockError>,
                       rejected': map<nat, LockError>, later: int, later': int)
    requires AllPassedBy(queue, aborted, rejected, later) && Keeps(rejected, rejected') && later <= later'
    ensures AllPassedBy(queue, aborted, rejected', later')
  {
  }

  lemma NoneInTime(queue: seq<Waiter>, aborted: set<nat>, rejected: map<nat, LockError>, later: int)
    requires AllPassedBy(queue[..|queue|], aborted, rejected, later)
    ensures !exists w :: w in queue && w.ticket !in aborted && later < w.deadline
  {
    assert queue[..|queue|] == queue;
  }

  lemma OneMorePassedBy(queue: seq<Waiter>, k: nat, aborted: set<nat>, rejected: map<nat, LockError>,
                        rejected': map<nat, LockError>, later: int, later': int)
    requires k < |queue| && AllPassedBy(queue[..k], aborted, rejected, later)
    requires Keeps(rejected, rejected') && later <= later' && PassedBy(queue[k], aborted, rejected', later')
    ensures AllPassedBy(queue[..k + 1], aborted, rejected', later')
  {
    var more := queue[..k + 1];
    forall i | 0 <= i < |more| ensures PassedBy(more[i], aborted, rejected', later') {
      assert i < k ==> PassedBy(queue[..k][i], aborted, rejected, later);
    }
  }

  /** A lease is handed out, or taken back. */
  datatype Event = Granted(ticket: nat) | Returned(ticket: nat)

  /** A lease has been handed out last. */
  predicate Out(log: seq<Event>) {
    log != [] && log[|log| - 1].Granted?
  }

  /** Every lease is taken back, and by nobody else, before the next one is handed out. */
  ghost predicate Alternates(log: seq<Event>) {
    && (log != [] ==> log[0].Granted?)
    && forall i, j | 0 <= i < |log| && j == i + 1 && j < |log| ::
         if log[i].Granted? then log[j] == Returned(log[i].ticket) else log[j].Granted?
  }

  lemma LogGrows(log: seq<Event>, e: Event)
    requires Alternates(log) && if Out(log) then e == Returned(log[|log| - 1].ticket) else e.Granted?
    ensures Alternates(log + [e]) && (Out(log + [e]) <==> e.Granted?)
  {
  }

  class MutationLock {
    const maxWaiters: nat
    var held: bool
    var queue: seq<Waiter>
    /** The waiters that are still active. */
    var active: set<nat>
    /** The number of requests so far. */
    var arrivals: nat
    /** The requests whose signal has been aborted; its listeners run one after the other. */
    var aborted: set<nat>
    /** The requests that were given a lease, in that order, and those that have returned it. */
    var granted: seq<nat>
    var released: set<nat>
    var rejected: map<nat, LockError>
    ghost var log: seq<Event>

    constructor (maxWaiters: nat)
      ensures Valid() && !held && queue == [] && granted == [] && log == [] && this.maxWaiters == maxWaiters
    {
      this.maxWaiters := maxWaiters;
      held, queue, active, arrivals, aborted := false, [], {}, 0, {};
      granted, released, rejected := [], {}, map[];
      log := [];
    }

    ghost predicate Core()
      reads this
    {
      && InOrder(granted, queue, rejected, arrivals) && |queue| <= maxWaiters
      && (forall t | t in released :: t in granted)
      && (forall i | 0 <= i < |queue| :: queue[i].ticket in active) && (forall t | t in active :: Waits(queue, t))
    }

    /**
     The lock is held exactly as long as the last lease has not been returned, and all others have been.
     Nobody waits for a free lock, and exactly those who wait are active.
     */
    ghost predicate Valid()
      reads this
    {
      && Core() && (!held ==> queue == []) && (held ==> granted != [])
      && (forall i | 0 <= i < |granted| :: granted[i] !in released <==> held && i == |granted| - 1)
      && Alternates(log) && (Out(log) <==> held) && (held ==> log[|log| - 1] == Granted(granted[|granted| - 1]))
    }

    /** While the lock is handed over, every lease has been returned. */
    ghost predicate Passing()
      reads this
    {
      && Core() && held && granted != [] && (forall i | 0 <= i < |granted| :: granted[i] in released)
      && Alternates(log) && !Out(log)
    }

    /** What has been decided stays decided. */
    twostate predicate Continues()
      reads this
    {
      && old(granted) <= granted && old(released) <= released && old(log) <= log && old(arrivals) <= arrivals
      && Keeps(old(rejected), rejected)
    }

    /** Time only moves on. */
    method Later(now: int) returns (later: int)
      ensures now <= later
    {
      var clock: int := *;
      later := if now < clock then clock else now;
    }

    /** src/phase3/resourceLocks.ts:202-210 */
    function AssertActive(isAborted: bool, deadline: int, now: int): (r: Outcome<LockError>)
      ensures r.Pass? <==> !isAborted && now < deadline
      ensures r.Fail? ==> r.error == if isAborted then OperationCancelled else DeadlineExceeded
    {
      if isAborted then Fail(OperationCancelled)
      else if now >= deadline then Fail(DeadlineExceeded)
      else Pass
    }

    method Reject(error: LockError) returns (answer: Answer)
      requires Valid()
      modifies this`arrivals, this`rejected
      ensures Valid() && answer == Refused(error)
      ensures rejected == old(rejected)[old(arrivals) := error] && arrivals == old(arrivals) + 1
    {
      Turn(granted, queue, rejected, arrivals, error);
      rejected := rejected[arrivals := error];
      arrivals := arrivals + 1;
      return Refused(error);
    }

    method GrantAtOnce()
      requires Valid() && !held
      modifies this`held, this`arrivals, this`granted, this`log
      ensures Valid() && held && granted == old(granted) + [old(arrivals)] && arrivals == old(arrivals) + 1
      ensures log == old(log) + [Granted(old(arrivals))]
    {
      Grant(granted, rejected, arrivals);
      LogGrows(log, Granted(arrivals));
      held := true;
      granted := granted + [arrivals];
      log := log + [Granted(arrivals)];
      arrivals := arrivals + 1;
    }

    method Enqueue(deadline: int)
      requires Valid() && held && |queue| < maxWaiters
      modifies this`queue, this`active, this`arrivals
      ensures Valid() && queue == old(queue) + [Waiter(old(arrivals), deadline)] && arrivals == old(arrivals) + 1
    {
      Join(granted, queue, rejected, arrivals, deadline);
      forall t: nat | t == arrivals || Waits(queue, t) ensures Waits(queue + [Waiter(arrivals, deadline)], t) {
        WaitsLonger(queue, Waiter(arrivals, deadline), t);
      }
      queue, active := queue + [Waiter(arrivals, deadline)], active + {arrivals};
      arrivals := arrivals + 1;
    }

    /**
     The part of an acquisition that meets a held lock (src/phase3/resourceLocks.ts:76-135). It reads the clock
     twice more: for the check, and for the delay of the timer.
     */
    method Wait(isAborted: bool, deadline: int, now: int) returns (answer: Answer, checked: int, at: int)
      requires Valid() && held && !isAborted && now < deadline
      modifies this`queue, this`active, this`arrivals, this`rejected
      ensures Valid() && arrivals == old(arrivals) + 1 && now <= checked <= at
      ensures queue == if answer.Queued? then old(queue) + [Waiter(old(arrivals), deadline)] else old(queue)
      ensures rejected == if answer.Refused? then old(rejected)[old(arrivals) := answer.error] else old(rejected)
      ensures |old(queue)| == maxWaiters ==> answer == Refused(MaxWaitersExceeded) && checked == now
      ensures |old(queue)| < maxWaiters ==>
        answer == if deadline <= checked then Refused(DeadlineExceeded)
                  else if deadline <= at then Refused(OperationCancelled) else Queued
    {
      checked, at := now, now;
      if |queue| >= maxWaiters {
        answer := Reject(MaxWaitersExceeded);
        return;
      }
      checked := Later(now);
      at := checked;
      var check := AssertActive(isAborted, deadline, checked);
      if check.Fail? {
        answer := Reject(check.error);
        return;
      }
      at := Later(checked);
      if deadline - at <= 0 {
        answer := Reject(OperationCancelled);
        return;
      }
      Enqueue(deadline);
      answer := Queued;
    }

    /**
     A request, with the clock as read by its last check and at its end (src/phase3/resourceLocks.ts:60-135). In
     time, and not cancelled, it gets a free lock at once, or a place in the queue of a held one; each refusal
     has one reason.
     */
    method AcquireQueue(isAborted: bool, deadline: int, now: int) returns (answer: Answer, checked: int, at: int)
      requires Valid()
      modifies this`held, this`queue, this`active, this`arrivals, this`granted, this`rejected, this`log
      ensures Valid() && Continues() && arrivals == old(arrivals) + 1 && now <= checked <= at
      ensures answer.Leased? <==> !old(held) && !isAborted && checked < deadline
      ensures answer.Queued? <==> old(held) && |old(queue)| < maxWaiters && !isAborted && at < deadline
      ensures answer == Refused(MaxWaitersExceeded) <==>
              old(held) && |old(queue)| == maxWaiters && !isAborted && now < deadline
      ensures answer == Refused(DeadlineExceeded) <==> !isAborted && deadline <= checked
      ensures answer == Refused(OperationCancelled) <==>
              isAborted || (old(held) && |old(queue)| < maxWaiters && checked < deadline <= at)
      ensures held == (old(held) || answer.Leased?)
      ensures granted == if answer.Leased? then old(granted) + [old(arrivals)] else old(granted)
      ensures log == if answer.Leased? then old(log) + [Granted(old(arrivals))] else old(log)
      ensures queue == if answer.Queued? then old(queue) + [Waiter(old(arrivals), deadline)] else old(queue)
      ensures rejected == if answer.Refused? then old(rejected)[old(arrivals) := answer.error] else old(rejected)
    {
      checked, at := now, now;
      var check := AssertActive(isAborted, deadline, now);
      if check.Pass? {
        if held {
          answer, checked, at := Wait(isAborted, deadline, now);
          return;
        }
        checked := Later(now);
        at := checked;
        check := AssertActive(isAborted, deadline, checked);
        if check.Pass? {
          GrantAtOnce();
          answer := Leased;
          return;
        }
      }
      answer := Reject(check.error);
    }

    /** A waiter becomes inactive and leaves the queue at position `k`, with an error. */
    method RemoveWaiter(k: nat, error: LockError)
      requires Core() && k < |queue|
      modifies this`queue, this`active, this`rejected
      ensures Core() && queue == old(queue)[..k] + old(queue)[k + 1..]
      ensures rejected == old(rejected)[old(queue)[k].ticket := error]
    {
      Leave(granted, queue, rejected, arrivals, k, error);
      forall t: nat | t != queue[k].ticket && Waits(queue, t) ensures Waits(queue[..k] + queue[k + 1..], t) {
        WaitsStill(queue, k, t);
      }
      var ticket := queue[k].ticket;
      active := active - {ticket};
      queue := queue[..k] + queue[k + 1..];
      rejected := rejected[ticket := error];
    }

    /** The position of an active waiter in the queue. */
    method IndexOf(ticket: nat) returns (k: nat)
      requires Waits(queue, ticket)
      ensures k < |queue| && queue[k].ticket == ticket
    {
      k := 0;
      while queue[k].ticket != ticket
        invariant k < |queue| && exists i :: k <= i < |queue| && queue[i].ticket == ticket
        decreases |queue| - k
      {
        k := k + 1;
      }
    }

    /** A signal is aborted; its listeners have not run yet. */
    method Signal(ticket: nat)
      requires Valid()
      modifies this`aborted
      ensures Valid() && aborted == old(aborted) + {ticket}
    {
      aborted := aborted + {ticket};
    }

    /** The waiter has left the queue with an error, if it was in it; nothing else has changed. */
    twostate predicate Left(ticket: nat, error: LockError)
      reads this
    {
      && !Waits(queue, ticket) && (forall w :: w in queue <==> w in old(queue) && w.ticket != ticket)
      && (if Waits(old(queue), ticket) then rejected == old(rejected)[ticket := error]
          else rejected == old(rejected) && queue == old(queue))
    }

    /** The waiter's own listener (src/phase3/resourceLocks.ts:89-100). */
    method Abort(ticket: nat)
      requires Valid() && ticket in aborted
      modifies this`queue, this`active, this`rejected
      ensures Valid() && Continues() && Left(ticket, OperationCancelled)
    {
      if ticket !in active {
        return;
      }
      var k := IndexOf(ticket);
      RemoveWaiter(k, OperationCancelled);
    }

    /** The timer of a waiter fires (src/phase3/resourceLocks.ts:121-132). */
    method Timeout(ticket: nat)
      requires Valid()
      modifies this`queue, this`active, this`rejected
      ensures Valid() && Continues() && Left(ticket, DeadlineExceeded)
    {
      if ticket !in active {
        return;
      }
      var k := IndexOf(ticket);
      RemoveWaiter(k, DeadlineExceeded);
    }

    method GrantFirst()
      requires Passing() && queue != []
      modifies this`queue, this`active, this`granted, this`log
      ensures Valid() && granted == old(granted) + [old(queue)[0].ticket] && queue == old(queue)[1..]
      ensures log == old(log) + [Granted(old(queue)[0].ticket)]
    {
      var ticket := queue[0].ticket;
      Promote(granted, queue, rejected, arrivals);
      forall t: nat | t != ticket && Waits(queue, t) ensures Waits(queue[1..], t) {
        WaitsStill(queue, 0, t);
        assert queue[..0] + queue[0 + 1..] == queue[1..];
      }
      LogGrows(log, Granted(ticket));
      assert ticket !in granted;
      active := active - {ticket};
      granted, queue := granted + [ticket], queue[1..];
      log := log + [Granted(ticket)];
    }

    /** The lock is offered to the first waiter, who takes it unless it is too late (src/phase3/resourceLocks.ts:159-184). */
    method Offer(now: int) returns (given: bool, later: int)
      requires Passing() && queue != []
      modifies this`queue, this`active, this`granted, this`rejected, this`log
      ensures now <= later && queue == old(queue)[1..] && Keeps(old(rejected), rejected)
      ensures given <==> old(queue)[0].ticket !in aborted && later < old(queue)[0].deadline
      ensures if given
              then Valid() && granted == old(granted) + [old(queue)[0].ticket] && log == old(log) + [Granted(old(queue)[0].ticket)]
              else Passing() && granted == old(granted) && log == old(log) && PassedBy(old(queue)[0], aborted, rejected, later)
    {
      var waiter := queue[0];
      if waiter.ticket !in active {
        assert false;
      }
      later := Later(now);
      var check := AssertActive(waiter.ticket in aborted, waiter.deadline, later);
      given := check.Pass?;
      if given {
        GrantFirst();
      } else {
        RemoveWaiter(0, check.error);
      }
    }

    /**
     The lock goes to the first waiter whose signal is not aborted and whose deadline has not passed
     (src/phase3/resourceLocks.ts:156-186). The waiters before it are rejected; a lock is only left free when there
     is nobody else. No inactive waiter is ever found in the queue.
     */
    method HandOver(now: int) returns (later: int, ghost skipped: nat)
      requires Passing()
      modifies this`held, this`queue, this`active, this`granted, this`rejected, this`log
      ensures Valid() && now <= later && skipped <= |old(queue)|
      ensures AllPassedBy(old(queue)[..skipped], aborted, rejected, later)
      ensures if skipped < |old(queue)|
              then held && granted == old(granted) + [old(queue)[skipped].ticket] && queue == old(queue)[skipped + 1..]
                   && old(queue)[skipped].ticket !in aborted && later < old(queue)[skipped].deadline
                   && log == old(log) + [Granted(old(queue)[skipped].ticket)]
              else !held && granted == old(granted) && queue == [] && log == old(log)
      ensures Keeps(old(rejected), rejected)
    {
      later, skipped := now, 0;
      while queue != []
        invariant Passing() && now <= later && skipped <= |old(queue)|
        invariant granted == old(granted) && log == old(log) && queue == old(queue)[skipped..]
        invariant Keeps(old(rejected), rejected) && AllPassedBy(old(queue)[..skipped], aborted, rejected, later)
        decreases |queue|
      {
        ghost var before, earlier := rejected, later;
        var given: bool;
        given, later := Offer(later);
        if given {
          AllPassedLater(old(queue)[..skipped], aborted, before, rejected, earlier, later);
          return;
        }
        OneMorePassedBy(old(queue), skipped, aborted, before, rejected, earlier, later);
        skipped := skipped + 1;
      }
      held := false;
    }

    method TakeBack(ticket: nat)
      requires Valid() && ticket in granted && ticket !in released
      modifies this`released, this`log
      ensures Passing() && released == old(released) + {ticket} && log == old(log) + [Returned(ticket)]
    {
      LogGrows(log, Returned(ticket));
      released := released + {ticket};
      log := log + [Returned(ticket)];
    }

    /** A lease is returned; a second time, to no effect (src/phase3/resourceLocks.ts:144-154). */
    method ReleaseLease(ticket: nat, now: int) returns (later: int, ghost skipped: nat)
      requires Valid() && ticket in granted
      modifies this`held, this`queue, this`active, this`granted, this`released, this`rejected, this`log
      ensures Valid() && Continues() && now <= later && released == old(released) + {ticket}
      ensures ticket in old(released) ==>
        && held == old(held) && queue == old(queue) && granted == old(granted) && rejected == old(rejected)
        && log == old(log)
      ensures ticket !in old(released) ==>
        && skipped <= |old(queue)| && AllPassedBy(old(queue)[..skipped], aborted, rejected, later)
        && (if skipped < |old(queue)|
            then held && granted == old(granted) + [old(queue)[skipped].ticket] && queue == old(queue)[skipped + 1..]
                 && log == old(log) + [Returned(ticket), Granted(old(queue)[skipped].ticket)]
            else !held && granted == old(granted) && queue == [] && log == old(log) + [Returned(ticket)])
      ensures (exists w :: w in old(queue) && w.ticket !in aborted && later < w.deadline) ==> held
    {
      later, skipped := now, 0;
      if ticket in released {
        return;
      }
      TakeBack(ticket);
      later, skipped := HandOver(now);
      if !held {
        NoneInTime(old(queue), aborted, rejected, later);
      }
    }

    // ----- Whole runs -----

    /** The lease has been granted and not been returned. */
    ghost predicate Outstanding(ticket: nat)
      reads this
    {
      ticket in granted && ticket !in released
    }

    /** Whoever is in its lease is alone, and the last to have been granted one. */
    lemma MutualExclusion(t: nat, u: nat)
      requires Valid() && Outstanding(t) && Outstanding(u)
      ensures t == u && held && forall other | other in granted :: other <= t
    {
      var i :| 0 <= i < |granted| && granted[i] == t;
      var j :| 0 <= j < |granted| && granted[j] == u;
    }

    /** Of two requests that were granted, the earlier one was granted first; a waiter was overtaken by none. */
    lemma FirstComeFirstServed(t: nat, u: nat)
      requires Valid() && u in granted && t < u
      ensures t in granted || t in rejected
      ensures t in granted ==> exists i, j :: 0 <= i < j < |granted| && granted[i] == t && granted[j] == u
    {
      assert Known(granted, queue, rejected, t);
      var j :| 0 <= j < |granted| && granted[j] == u;
      if t in granted {
        var i :| 0 <= i < |granted| && granted[i] == t;
        assert i < j;
      }
    }

    /** Any one of the things that can happen to the lock. */
    method Once(ticket: nat, deadline: int, now: int)
      requires Valid()
      modifies this
      ensures Valid() && Continues()
    {
      var isAborted: bool := *;
      if * {
        var _, _, _ := AcquireQueue(isAborted, deadline, now);
      } else if * {
        Signal(ticket);
      } else if * {
        Timeout(ticket);
      } else if * {
        if ticket in aborted {
          Abort(ticket);
        }
      } else if ticket in granted {
        var _, _ := ReleaseLease(ticket, now);
      }
    }

    /**
     Any sequence of requests, aborted signals, listeners, timers and releases, also repeated ones. Each lease was
     returned before the next one was granted; grants follow the order of arrival; nobody waits for a free lock,
     and never too many wait for a held one.
     */
    method AnyRun(events: seq<(nat, int, int)>)
      requires Valid()
      modifies this
      ensures Valid() && Continues()
      ensures Alternates(log) && Increasing(granted) && |queue| <= maxWaiters && (!held ==> queue == [])
      ensures forall t, u | Outstanding(t) && Outstanding(u) :: t == u
      ensures forall t: nat, u | u in granted && t < u :: t in granted || t in rejected
    {
      for i := 0 to |events|
        invariant Valid() && Continues()
      {
        Once(events[i].0, events[i].1, events[i].2);
      }
      forall t: nat, u | u in granted && t < u ensures t in granted || t in rejected {
        FirstComeFirstServed(t, u);
      }
      forall t, u | Outstanding(t) && Outstanding(u) ensures t == u {
        MutualExclusion(t, u);
      }
    }
  }
}
