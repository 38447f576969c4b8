/** The scheduler and the command service run together. Every critical section and every call made
    outside the locks is one action; a run is any interleaving of enabled actions, with ACKs, timeouts,
    disconnects, cancels, clock values and link results chosen freely. */
module Pipeline {
  import opened Basics
  import opened Search
  import opened Scheduler
  import opened CommandService
  import opened SchedulerInvariant

  /** Where the scheduler's single worker task stands between two critical sections. */
  datatype Pc = Idle | Calling(slot: nat, cb: Callback) | Called(slot: nat)
              | Submitting(slot: nat, request: Request) | Refused(slot: nat) | LeaseCalling(leaseId: nat, granted: bool)

  /** Both components, the submit queue between them, the callback the service task is about to make (`owed`),
      and the history: accepted job ids, completion callbacks made, service answers by job id, accepted lease ids,
      lease callbacks made. `busy` and `queueFull` are the service's rejection counters. */
  datatype Sys = Sys(sched: Sched, svc: Service, queue: seq<Submission>, owed: Option<Answer>, pc: Pc,
                     accepted: set<nat>, called: seq<Callback>, answered: map<nat, CommandResult>,
                     leaseAccepted: set<nat>, leaseCalled: seq<(nat, bool)>, busy: nat, queueFull: nat)

  function Boot(): Sys {
    Sys(Initial(), ServiceInitial(), [], None, Idle, {}, [], map[], {}, [], 0, 0)
  }

  datatype Action =
    | SubmitJob(job: Job, now: int) | CancelJobs(key: CancelKey) | AcquireLease(q: LeaseRequest) | ReleaseLease(id: nat)
    | BlockDevice(device: string) | UnblockDevice(device: string)
    | PromoteTurn(now: int) | LeaseTurn(record: nat) | LeaseCallTurn | CompleteTurn(slot: nat) | CallTurn | FreeTurn
    | DispatchTurn | EnqueueTurn | RefusedTurn
    | ServeTurn(env: Env) | UrgentTurn(event: Event) | DeliverTurn

  predicate SysShaped(s: Sys) { Shaped(s.sched) && ServiceShaped(s.svc) }

  /** Worker actions follow the worker's program order; the service task makes an owed callback before anything else. */
  predicate Enabled(s: Sys, a: Action)
    requires SysShaped(s)
  {
    match a
    case PromoteTurn(_) => s.pc.Idle?
    case LeaseTurn(i) => s.pc.Idle? && i < MAX_DEVICES
    case LeaseCallTurn => s.pc.LeaseCalling?
    case CompleteTurn(i) => s.pc.Idle? && i < MAX_JOBS
    case CallTurn => s.pc.Calling?
    case FreeTurn => s.pc.Called?
    case DispatchTurn => s.pc.Idle?
    case EnqueueTurn => s.pc.Submitting?
    case RefusedTurn => s.pc.Refused?
    case ServeTurn(env) => s.owed.None? && |s.queue| > 0 && !env.validation.Busy? && !env.validation.QueueFull?
    case UrgentTurn(e) => s.owed.None? && !e.SubmitEvent?
    case DeliverTurn => s.owed.Some?
    case _ => true
  }

  /** The service owes answer `x`; the history notes it under the id of the job it is for. */
  function Owe(s: Sys, svc: Service, x: Option<Answer>): Sys {
    if x.None? then s.(svc := svc)
    else if x.value.ctx < |s.sched.slots| then
      s.(svc := svc, owed := x, answered := s.answered[s.sched.slots[x.value.ctx].id := x.value.result])
    else s.(svc := svc, owed := x)
  }

  function Apply(s: Sys, a: Action): Sys
    requires SysShaped(s) && Enabled(s, a)
  {
    match a
    case SubmitJob(job, now) =>
      var t := s.(sched := Submit(s.sched, job, now));
      var r := SubmitResultOf(s.sched, job);
      if r.Accepted? then t.(accepted := s.accepted + {r.id}) else t
    case CancelJobs(key) => s.(sched := Cancel(s.sched, key))
    case AcquireLease(q) =>
      var t := s.(sched := Acquire(s.sched, q));
      if AcquireAccepted(s.sched, q) then t.(leaseAccepted := s.leaseAccepted + {t.sched.nextLease}) else t
    case ReleaseLease(id) => s.(sched := Release(s.sched, id))
    case BlockDevice(dev) => s.(sched := Block(s.sched, dev))
    case UnblockDevice(dev) => s.(sched := Unblock(s.sched, dev))
    case PromoteTurn(now) => s.(sched := Promote(s.sched, now))
    case LeaseTurn(i) =>
      var cb := LeaseCallback(s.sched, i);
      var t := s.(sched := ProcessLease(s.sched, i));
      if cb.Some? then t.(pc := LeaseCalling(cb.value.0, cb.value.1)) else t
    case LeaseCallTurn => s.(leaseCalled := s.leaseCalled + [(s.pc.leaseId, s.pc.granted)], pc := Idle)
    case CompleteTurn(i) =>
      var cb := CompletionOf(s.sched, i);
      var t := s.(sched := CompleteBegin(s.sched, i));
      if cb.Some? then t.(pc := Calling(i, cb.value)) else t
    case CallTurn => s.(called := s.called + [s.pc.cb], pc := Called(s.pc.slot))
    case FreeTurn => s.(sched := CompleteEnd(s.sched, s.pc.slot), pc := Idle)
    case DispatchTurn =>
      var i := DispatchChoice(s.sched);
      if i < 0 then s else s.(sched := Dispatch(s.sched), pc := Submitting(i, s.sched.slots[i].job.request))
    case EnqueueTurn =>
      if |s.queue| < QUEUE_LEN then s.(queue := s.queue + [Submission(s.pc.request, s.pc.slot)], pc := Idle)
      else s.(queueFull := s.queueFull + 1, pc := Refused(s.pc.slot))
    case RefusedTurn => s.(sched := DispatchFailed(s.sched, s.pc.slot, true), pc := Idle)
    case ServeTurn(env) =>
      var e := SubmitEvent(s.queue[0], env);
      var t := Owe(s, Handle(s.svc, e), AnswerOf(s.svc, e)).(queue := s.queue[1..]);
      var why := Refusal(s.svc, s.queue[0], env);
      if why == Some(Busy) then t.(busy := s.busy + 1)
      else if why == Some(QueueFull) then t.(queueFull := s.queueFull + 1) else t
    case UrgentTurn(e) => Owe(s, Handle(s.svc, e), AnswerOf(s.svc, e))
    case DeliverTurn => s.(sched := ServiceComplete(s.sched, s.owed.value.ctx, s.owed.value.result), owed := None)
  }

  // ----- requests between the components: one per in-flight slot, wherever it currently is

  function PcRequests(pc: Pc): multiset<nat> { if pc.Submitting? || pc.Refused? then multiset{pc.slot} else multiset{} }

  function QueueRequests(q: seq<Submission>): multiset<nat> {
    if |q| == 0 then multiset{} else multiset{q[0].ctx} + QueueRequests(q[1..])
  }

  function PendingRequest(p: Pending): multiset<nat> { if p.inUse then multiset{p.ctx} else multiset{} }

  function PendingRequests(p: seq<Pending>): multiset<nat> {
    if |p| == 0 then multiset{} else PendingRequest(p[0]) + PendingRequests(p[1..])
  }

  function OwedRequests(o: Option<Answer>): multiset<nat> { if o.Some? then multiset{o.value.ctx} else multiset{} }

  /** Requests the scheduler has handed out and the service has not answered. */
  function Unanswered(s: Sys): multiset<nat> {
    PcRequests(s.pc) + QueueRequests(s.queue) + PendingRequests(s.svc.pending) + OwedRequests(s.owed)
  }

  lemma {:induction false} QueueAppend(q: seq<Submission>, x: Submission)
    ensures QueueRequests(q + [x]) == QueueRequests(q) + multiset{x.ctx}
  {
    if |q| > 0 {
      assert (q + [x])[1..] == q[1..] + [x];
      QueueAppend(q[1..], x);
    }
  }

  lemma {:induction false} QueueSize(q: seq<Submission>)
    ensures |QueueRequests(q)| == |q|
  {
    if |q| > 0 { QueueSize(q[1..]); }
  }

  lemma {:induction false} QueueMember(q: seq<Submission>, j: nat)
    requires j < |q|
    ensures q[j].ctx in QueueRequests(q)
  {
    if j > 0 {
      assert q[1..][j - 1] == q[j];
      QueueMember(q[1..], j - 1);
    }
  }

  lemma {:induction false} Regroup(head: multiset<nat>, a: multiset<nat>, b: multiset<nat>, c: multiset<nat>, d: multiset<nat>)
    requires a + b == c + d
    ensures (head + a) + b == (head + c) + d
  {
    assert (head + a) + b == head + (a + b);
  }

  lemma {:induction false} PendingUpdate(p: seq<Pending>, k: nat, x: Pending)
    requires k < |p|
    ensures PendingRequests(p[k := x]) + PendingRequest(p[k]) == PendingRequests(p) + PendingRequest(x)
  {
    if k > 0 {
      assert p[k := x][1..] == p[1..][k - 1 := x];
      PendingUpdate(p[1..], k - 1, x);
      assert p[1..][k - 1] == p[k] && p[k := x][0] == p[0];
      Regroup(PendingRequest(p[0]), PendingRequests(p[1..][k - 1 := x]), PendingRequest(p[k]), PendingRequests(p[1..]), PendingRequest(x));
    } else {
      assert p[k := x][1..] == p[1..];
    }
  }

  lemma {:induction false} PendingMember(p: seq<Pending>, k: nat)
    requires k < |p| && p[k].inUse
    ensures p[k].ctx in PendingRequests(p)
  {
    if k > 0 {
      assert p[1..][k - 1] == p[k];
      PendingMember(p[1..], k - 1);
    }
  }

  lemma {:induction false} PendingSize(p: seq<Pending>)
    requires forall i :: 0 <= i < |p| ==> p[i].inUse
    ensures |PendingRequests(p)| == |p|
  {
    if |p| > 0 { PendingSize(p[1..]); }
  }

  lemma {:induction false} PendingNone(p: seq<Pending>)
    requires forall i :: 0 <= i < |p| ==> !p[i].inUse
    ensures PendingRequests(p) == multiset{}
  {
    if |p| > 0 { PendingNone(p[1..]); }
  }
}
