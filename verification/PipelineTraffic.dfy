/** Unanswered service requests are in bijection with the scheduler's in-flight slots, so the service
    is never busy, never full, and every completion finds its mailbox open. */
module PipelineTraffic {
  import opened Basics
  import opened Search
  import opened Scheduler
  import opened CommandService
  import opened SchedulerInvariant
  import opened Pipeline

  ghost predicate Traffic(s: Sys) {
    && SysShaped(s) && Inv(s.sched)
    && Balanced(Unanswered(s), InflightSlots(s.sched))
    && (forall j :: 0 <= j < |s.queue| ==> QueueEntryOk(s, j))
    && (forall k :: 0 <= k < MAX_PENDING ==> PendingEntryOk(s, k))
    && (s.pc.Submitting? ==> s.pc.slot < MAX_JOBS && s.pc.request == s.sched.slots[s.pc.slot].job.request)
    && !s.pc.Refused? && s.sched.conflicts == 0 && s.busy == 0 && s.queueFull == 0
  }

  /** Each slot number occurs in the multiset exactly when it is in the set, and then once. */
  ghost predicate Balanced(m: multiset<nat>, a: set<nat>) { m == multiset(a) }

  lemma {:induction false} BalancedAdd(m: multiset<nat>, a: set<nat>, i: nat)
    requires Balanced(m, a) && i !in a
    ensures Balanced(m + multiset{i}, a + {i})
  {
  }

  lemma {:induction false} BalancedRemove(m: multiset<nat>, a: set<nat>, i: nat)
    requires Balanced(m + multiset{i}, a)
    ensures i in a && Balanced(m, a - {i})
  {
    var n := m + multiset{i};
    assert n[i] == m[i] + 1;
    assert forall x :: x in a <==> n[x] == 1;
    assert m == multiset(a - {i});
  }

  /** Handing a request from the worker to the queue changes nothing overall. */
  lemma {:induction false} MovesToQueue(b: multiset<nat>, c: multiset<nat>, d: multiset<nat>, i: nat)
    ensures multiset{} + (b + multiset{i}) + c + d == multiset{i} + b + c + d
  {
  }

  lemma {:induction false} MovesToWorker(b: multiset<nat>, c: multiset<nat>, d: multiset<nat>, i: nat)
    ensures multiset{i} + b + c + d == (multiset{} + b + c + d) + multiset{i}
  {
  }

  lemma {:induction false} MovesOut(a: multiset<nat>, i: nat)
    ensures a + multiset{i} == (a + multiset{}) + multiset{i}
  {
  }

  /** A queued submission is for the slot it names. */
  ghost predicate QueueEntryOk(s: Sys, j: int)
    requires SysShaped(s) && 0 <= j < |s.queue|
  {
    s.queue[j].ctx < MAX_JOBS && s.queue[j].request == s.sched.slots[s.queue[j].ctx].job.request
  }

  /** A pending request is for the slot it names. */
  ghost predicate PendingEntryOk(s: Sys, k: int)
    requires SysShaped(s) && 0 <= k < MAX_PENDING
  {
    var p := s.svc.pending[k];
    p.inUse ==> p.ctx < MAX_JOBS && Carries(p, s.sched.slots[p.ctx].job.request)
  }

  /** The pending entry was made from the request. */
  predicate Carries(p: Pending, q: Request) { p.device == q.device && p.command == q.command }

  lemma {:induction false} BootTraffic()
    ensures Traffic(Boot())
  {
    InitialInv();
    PendingNone(ServiceInitial().pending);
    assert InflightSlots(Initial()) == {};
  }

  /** Every unanswered request is for an in-flight slot and is there once. */
  lemma {:induction false} UnansweredOnce(s: Sys, c: nat)
    requires Traffic(s) && c in Unanswered(s)
    ensures c < MAX_JOBS && s.sched.slots[c].state.Inflight? && Unanswered(s)[c] == 1
  {
    assert c in InflightSlots(s.sched);
  }

  /** The places a request can be in hold at most one of each, four in all. */
  lemma {:induction false} UnansweredSize(s: Sys)
    requires Traffic(s)
    ensures |PcRequests(s.pc)| + |QueueRequests(s.queue)| + |PendingRequests(s.svc.pending)| <= MAX_INFLIGHT
  {
    InflightBound(s.sched);
    assert |Unanswered(s)| == |InflightSlots(s.sched)|;
  }

  ghost predicate SameInflight(a: Sched, b: Sched) {
    && Shaped(a) && Shaped(b) && b.conflicts == a.conflicts
    && forall i :: 0 <= i < MAX_JOBS && (a.slots[i].state.Inflight? || b.slots[i].state.Inflight?) ==> a.slots[i] == b.slots[i]
  }

  /** Scheduler steps that leave in-flight slots alone keep the bijection. */
  lemma {:induction false} TrafficKept(s: Sys, t: Sys)
    requires Traffic(s) && SysShaped(t) && Inv(t.sched) && SameInflight(s.sched, t.sched)
    requires t.queue == s.queue && t.svc == s.svc && t.owed == s.owed && t.busy == s.busy && t.queueFull == s.queueFull
    requires t.pc == s.pc || (PcRequests(t.pc) == PcRequests(s.pc) == multiset{} && !t.pc.Refused?)
    ensures Traffic(t)
  {
    assert InflightSlots(t.sched) == InflightSlots(s.sched);
    forall j | 0 <= j < |t.queue| ensures QueueEntryOk(t, j) {
      assert QueueEntryOk(s, j);
      QueueMember(s.queue, j);
      UnansweredOnce(s, s.queue[j].ctx);
    }
    forall k | 0 <= k < MAX_PENDING ensures PendingEntryOk(t, k) {
      assert PendingEntryOk(s, k);
      if s.svc.pending[k].inUse {
        PendingMember(s.svc.pending, k);
        UnansweredOnce(s, s.svc.pending[k].ctx);
      }
    }
    if s.pc.Submitting? {
      assert s.pc.slot in PcRequests(s.pc);
      UnansweredOnce(s, s.pc.slot);
    }
  }

  /** The entries still describe their slots after any change that keeps jobs. */
  lemma {:induction false} EntriesKept(s: Sys, t: Sys)
    requires Traffic(s) && SysShaped(t) && t.queue == s.queue && t.svc == s.svc
    requires forall i :: 0 <= i < MAX_JOBS ==> t.sched.slots[i].job == s.sched.slots[i].job
    ensures forall j :: 0 <= j < |t.queue| ==> QueueEntryOk(t, j)
    ensures forall k :: 0 <= k < MAX_PENDING ==> PendingEntryOk(t, k)
  {
    forall j | 0 <= j < |t.queue| ensures QueueEntryOk(t, j) { assert QueueEntryOk(s, j); }
    forall k | 0 <= k < MAX_PENDING ensures PendingEntryOk(t, k) { assert PendingEntryOk(s, k); }
  }

  lemma {:induction false} DispatchUnanswered(s: Sys)
    requires SysShaped(s) && s.pc.Idle? && DispatchChoice(s.sched) >= 0
    ensures Unanswered(Apply(s, DispatchTurn)) == Unanswered(s) + multiset{DispatchChoice(s.sched)}
  {
    MovesToWorker(QueueRequests(s.queue), PendingRequests(s.svc.pending), OwedRequests(s.owed), DispatchChoice(s.sched));
  }

  lemma {:induction false} DispatchSlots(s: Sched)
    requires Inv(s) && DispatchChoice(s) >= 0
    ensures var i := DispatchChoice(s); i !in InflightSlots(s) && InflightSlots(Dispatch(s)) == InflightSlots(s) + {i}
  {
  }

  lemma {:induction false} DispatchTraffic(s: Sys)
    requires Traffic(s) && s.pc.Idle?
    ensures Traffic(Apply(s, DispatchTurn))
  {
    var t := Apply(s, DispatchTurn);
    var i := DispatchChoice(s.sched);
    DispatchInv(s.sched);
    if i >= 0 {
      assert Balanced(Unanswered(t), InflightSlots(t.sched)) by {
        DispatchSlots(s.sched);
        DispatchUnanswered(s);
        BalancedAdd(Unanswered(s), InflightSlots(s.sched), i);
      }
      EntriesKept(s, t);
    }
  }

  lemma {:induction false} EnqueueUnanswered(s: Sys)
    requires SysShaped(s) && s.pc.Submitting? && |s.queue| < QUEUE_LEN
    ensures Unanswered(Apply(s, EnqueueTurn)) == Unanswered(s)
  {
    QueueAppend(s.queue, Submission(s.pc.request, s.pc.slot));
    MovesToQueue(QueueRequests(s.queue), PendingRequests(s.svc.pending), OwedRequests(s.owed), s.pc.slot);
  }

  lemma {:induction false} QueueHasRoom(s: Sys)
    requires Traffic(s) && s.pc.Submitting?
    ensures |s.queue| < QUEUE_LEN
  {
    UnansweredSize(s);
    QueueSize(s.queue);
  }

  /** The submit queue has room whenever the worker submits. */
  lemma {:induction false} EnqueueTraffic(s: Sys)
    requires Traffic(s) && s.pc.Submitting?
    ensures |s.queue| < QUEUE_LEN && Traffic(Apply(s, EnqueueTurn))
  {
    var t := Apply(s, EnqueueTurn);
    QueueHasRoom(s);
    EnqueueUnanswered(s);
    forall j | 0 <= j < |t.queue| ensures QueueEntryOk(t, j) { assert j < |s.queue| ==> QueueEntryOk(s, j); }
    forall k | 0 <= k < MAX_PENDING ensures PendingEntryOk(t, k) { assert PendingEntryOk(s, k); }
  }

  /** The service never finds the device busy nor the table full. */
  lemma {:induction false} ServeNeverRefused(s: Sys)
    requires Traffic(s) && |s.queue| > 0
    ensures FirstIndex(s.svc.pending, OnDevice(s.queue[0].request.device)) == -1
    ensures FirstIndex(s.svc.pending, Vacant()) >= 0
  {
    var q := s.queue[0];
    assert QueueEntryOk(s, 0);
    QueueMember(s.queue, 0);
    UnansweredOnce(s, q.ctx);
    forall k | 0 <= k < MAX_PENDING && s.svc.pending[k].inUse ensures s.svc.pending[k].device != q.request.device {
      var p := s.svc.pending[k];
      assert PendingEntryOk(s, k);
      PendingMember(s.svc.pending, k);
      UnansweredOnce(s, p.ctx);
      assert p.ctx != q.ctx;
      InflightDevicesDiffer(s.sched, p.ctx, q.ctx);
    }
    UnansweredSize(s);
    QueueSize(s.queue);
    if forall k :: 0 <= k < MAX_PENDING ==> s.svc.pending[k].inUse {
      PendingSize(s.svc.pending);
      assert false;
    }
  }

  /** A served request moves into the pending table or is answered on the spot. */
  lemma {:induction false} SubmitRequests(v: Service, q: Submission, env: Env)
    requires ServiceShaped(v) && FirstIndex(v.pending, Vacant()) >= 0
    ensures var e := SubmitEvent(q, env);
            PendingRequests(Handle(v, e).pending) + OwedRequests(AnswerOf(v, e)) == PendingRequests(v.pending) + multiset{q.ctx}
  {
    var e := SubmitEvent(q, env);
    if Refusal(v, q, env).None? && env.sendOk {
      PendingUpdate(v.pending, FirstIndex(v.pending, Vacant()), NewPending(q, Candidate(v.nextId, Draws(v)), env.now));
      assert AnswerOf(v, e).None?;
    } else {
      assert AnswerOf(v, e).Some? && AnswerOf(v, e).value.ctx == q.ctx;
    }
  }

  /** An urgent event answers the request it takes out of the table, and touches no other. */
  lemma {:induction false} UrgentRequests(v: Service, e: Event)
    requires ServiceShaped(v) && !e.SubmitEvent?
    ensures PendingRequests(v.pending) == PendingRequests(Handle(v, e).pending) + OwedRequests(AnswerOf(v, e))
  {
    var k := Closes(v, e);
    if k >= 0 { PendingUpdate(v.pending, k, NO_PENDING); }
  }

  lemma {:induction false} ServeUnanswered(s: Sys, t: Sys, q: Submission)
    requires |s.queue| > 0 && s.queue[0] == q && t.queue == s.queue[1..] && t.pc == s.pc && s.owed.None?
    requires PendingRequests(t.svc.pending) + OwedRequests(t.owed) == PendingRequests(s.svc.pending) + multiset{q.ctx}
    ensures Unanswered(t) == Unanswered(s)
  {
    var a, b := PcRequests(s.pc), QueueRequests(t.queue);
    assert Unanswered(t) == a + b + (PendingRequests(t.svc.pending) + OwedRequests(t.owed));
    assert Unanswered(s) == a + b + (PendingRequests(s.svc.pending) + multiset{q.ctx});
  }

  lemma {:induction false} UrgentUnanswered(s: Sys, t: Sys)
    requires t.queue == s.queue && t.pc == s.pc && s.owed.None?
    requires PendingRequests(s.svc.pending) == PendingRequests(t.svc.pending) + OwedRequests(t.owed)
    ensures Unanswered(t) == Unanswered(s)
  {
    var a, b := PcRequests(s.pc), QueueRequests(t.queue);
    assert Unanswered(t) == a + b + (PendingRequests(t.svc.pending) + OwedRequests(t.owed));
  }

  /** The service's half of a step: the scheduler and the worker stay put. */
  lemma {:induction false} ServiceStep(s: Sys, t: Sys)
    requires Traffic(s) && t.sched == s.sched && t.pc == s.pc && ServiceShaped(t.svc) && t.busy == 0 && t.queueFull == 0
    requires Unanswered(t) == Unanswered(s)
    requires forall j :: 0 <= j < |t.queue| ==> t.queue[j] in s.queue
    requires forall k :: 0 <= k < MAX_PENDING && t.svc.pending[k].inUse ==>
               t.svc.pending[k] in s.svc.pending
               || exists q :: q in s.queue && t.svc.pending[k].ctx == q.ctx && Carries(t.svc.pending[k], q.request)
    ensures Traffic(t)
  {
    forall q | q in s.queue ensures q.ctx < MAX_JOBS && q.request == s.sched.slots[q.ctx].job.request {
      var j :| 0 <= j < |s.queue| && s.queue[j] == q;
      assert QueueEntryOk(s, j);
    }
    forall p | p in s.svc.pending ensures p.inUse ==> p.ctx < MAX_JOBS && Carries(p, s.sched.slots[p.ctx].job.request) {
      var k :| 0 <= k < |s.svc.pending| && s.svc.pending[k] == p;
      assert PendingEntryOk(s, k);
    }
    forall k | 0 <= k < MAX_PENDING ensures PendingEntryOk(t, k) {}
  }

  lemma {:induction false} ServeTraffic(s: Sys, env: Env)
    requires Traffic(s) && Enabled(s, ServeTurn(env))
    ensures Traffic(Apply(s, ServeTurn(env)))
  {
    var t := Apply(s, ServeTurn(env));
    ServeNeverRefused(s);
    ServeFields(s, env);
    assert Unanswered(t) == Unanswered(s) by {
      SubmitRequests(s.svc, s.queue[0], env);
      ServeUnanswered(s, t, s.queue[0]);
    }
    ServiceStep(s, t);
  }

  lemma {:induction false} ServeFields(s: Sys, env: Env)
    requires SysShaped(s) && Enabled(s, ServeTurn(env))
    requires FirstIndex(s.svc.pending, OnDevice(s.queue[0].request.device)) == -1 && FirstIndex(s.svc.pending, Vacant()) >= 0
    ensures var t := Apply(s, ServeTurn(env)); var e := SubmitEvent(s.queue[0], env);
            && t.svc == Handle(s.svc, e) && t.owed == AnswerOf(s.svc, e) && t.queue == s.queue[1..]
            && t.sched == s.sched && t.pc == s.pc && t.busy == s.busy && t.queueFull == s.queueFull
            && forall k :: 0 <= k < MAX_PENDING && t.svc.pending[k].inUse ==>
                 t.svc.pending[k] in s.svc.pending
                 || (t.svc.pending[k].ctx == s.queue[0].ctx && Carries(t.svc.pending[k], s.queue[0].request))
  {
  }

  lemma {:induction false} UrgentTraffic(s: Sys, e: Event)
    requires Traffic(s) && Enabled(s, UrgentTurn(e))
    ensures Traffic(Apply(s, UrgentTurn(e)))
  {
    UrgentRequests(s.svc, e);
    UrgentFields(s, e);
    UrgentUnanswered(s, Apply(s, UrgentTurn(e)));
    ServiceStep(s, Apply(s, UrgentTurn(e)));
  }

  lemma {:induction false} UrgentFields(s: Sys, e: Event)
    requires SysShaped(s) && Enabled(s, UrgentTurn(e))
    ensures var t := Apply(s, UrgentTurn(e));
            && t.svc == Handle(s.svc, e) && t.owed == AnswerOf(s.svc, e) && t.queue == s.queue
            && t.sched == s.sched && t.pc == s.pc && t.busy == s.busy && t.queueFull == s.queueFull
            && forall k :: 0 <= k < MAX_PENDING && t.svc.pending[k].inUse ==> t.svc.pending[k] in s.svc.pending
  {
  }

  /** A delivered completion is never a mailbox conflict. */
  lemma {:induction false} DeliverOpen(s: Sys)
    requires Traffic(s) && s.owed.Some?
    ensures var p := s.owed.value.ctx; p < MAX_JOBS && s.sched.slots[p].state.Inflight? && MailboxOpen(s.sched, p)
  {
    var p := s.owed.value.ctx;
    assert p in OwedRequests(s.owed);
    UnansweredOnce(s, p);
    ServiceCompleteInv(s.sched, p, s.owed.value.result);
  }

  lemma {:induction false} DeliverTraffic(s: Sys)
    requires Traffic(s) && s.owed.Some?
    ensures Traffic(Apply(s, DeliverTurn))
  {
    var t := Apply(s, DeliverTurn);
    var p := s.owed.value.ctx;
    DeliverOpen(s);
    ServiceCompleteInv(s.sched, p, s.owed.value.result);
    assert InflightSlots(t.sched) == InflightSlots(s.sched) - {p};
    DeliverUnanswered(s);
    BalancedRemove(Unanswered(t), InflightSlots(s.sched), p);
    EntriesKept(s, t);
  }

  lemma {:induction false} DeliverUnanswered(s: Sys)
    requires SysShaped(s) && s.owed.Some?
    ensures Unanswered(s) == Unanswered(Apply(s, DeliverTurn)) + multiset{s.owed.value.ctx}
  {
    MovesOut(PcRequests(s.pc) + QueueRequests(s.queue) + PendingRequests(s.svc.pending), s.owed.value.ctx);
  }
}
