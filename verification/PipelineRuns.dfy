/** Whole runs of the command pipeline. The invariant is carried through every action; the theorems at
    the end hold in every state any interleaving can reach. */
module PipelineRuns {
  import opened Basics
  import opened Search
  import opened Scheduler
  import opened CommandService
  import opened SchedulerInvariant
  import opened Pipeline
  import opened PipelineTraffic
  import opened PipelineJobs
  import opened PipelineLeases

  ghost predicate Safe(s: Sys) { Traffic(s) && Jobs(s) && Answers(s) && Leases(s) }

  /** Nothing has been accepted, sent or asked for. */
  lemma {:induction false} NoHistorySafe(b: Sys)
    requires b.pc.Idle? && b.owed.None? && b.accepted == {} && b.called == [] && b.answered == map[] && b.leaseAccepted == {} && b.leaseCalled == []
    requires forall i :: 0 <= i < |b.sched.slots| ==> b.sched.slots[i].state.Free?
    requires forall j :: 0 <= j < |b.sched.leases| ==> b.sched.leases[j].state.LeaseFree?
    ensures Jobs(b) && Answers(b) && Leases(b)
  {
    forall i: nat ensures AnswerOk(b, i) && !Live(b, i) {}
    forall n: nat ensures !LeaseOwed(b, n) && !LeaseWasCalled(b, n) {}
  }

  lemma {:induction false} BootSafe()
    ensures Safe(Boot())
  {
    BootTraffic();
    NoHistorySafe(Boot());
  }

  // ----- scheduler steps that only settle queued jobs

  ghost predicate Settled(x: Slot, y: Slot) {
    || y == x
    || (!x.state.Free? && !x.state.Inflight? && y.state.CompletionPending? && !y.terminal.Command?
        && y.id == x.id && y.job == x.job && y.device == x.device)
    || (x.state.EnqueuePending? && y == x.(state := Queued))
  }

  ghost predicate SettledAll(a: Sched, b: Sched) {
    && Shaped(a) && Shaped(b) && b.conflicts == a.conflicts && b.nextJob == a.nextJob
    && (forall i :: 0 <= i < MAX_JOBS ==> Settled(a.slots[i], b.slots[i]))
    && (forall d :: 0 <= d < MAX_DEVICES ==> b.devices[d].inflightSlot in {a.devices[d].inflightSlot, -1})
  }

  /** Everything but the sched and pc fields of t agrees with s. */
  ghost predicate OnlySched(s: Sys, t: Sys) {
    && t.svc == s.svc && t.queue == s.queue && t.owed == s.owed && t.accepted == s.accepted && t.called == s.called
    && t.answered == s.answered && t.busy == s.busy && t.queueFull == s.queueFull
  }

  lemma {:induction false} SettledPc(s: Sys, t: Sys)
    requires PcOk(s) && Shaped(s.sched) && SettledAll(s.sched, t.sched)
    requires t.pc == s.pc || (!s.pc.Calling? && !s.pc.Called? && !t.pc.Calling? && !t.pc.Called?)
    ensures PcOk(t)
  {
  }

  lemma {:induction false} SettledSafe(s: Sys, t: Sys)
    requires Safe(s) && OnlySched(s, t) && SettledAll(s.sched, t.sched) && Inv(t.sched) && Leases(t)
    requires t.pc == s.pc || (s.pc in {Idle} && t.pc.LeaseCalling?) || (s.pc.LeaseCalling? && t.pc.Idle?)
    ensures Safe(t)
  {
    TrafficKept(s, t);
    SettledPc(s, t);
    JobsKept(s, t);
    if s.owed.Some? { DeliverOpen(s); }
    AnswersKept(s, t);
  }

  // ----- one lemma per action

  lemma {:induction false} SubmitTraffic(s: Sys, job: Job, now: int)
    requires Traffic(s)
    ensures Traffic(Apply(s, SubmitJob(job, now)))
  {
    SubmitInv(s.sched, job, now);
    SubmitSlots(s.sched, job, now);
    TrafficKept(s, Apply(s, SubmitJob(job, now)));
  }

  lemma {:induction false} SubmitAnswers(s: Sys, job: Job, now: int)
    requires Traffic(s) && Answers(s)
    ensures Answers(Apply(s, SubmitJob(job, now)))
  {
    SubmitSlots(s.sched, job, now);
    if s.owed.Some? { DeliverOpen(s); }
    AnswersKept(s, Apply(s, SubmitJob(job, now)));
  }

  lemma {:induction false} SubmitLeases(s: Sys, job: Job, now: int)
    requires SysShaped(s) && Leases(s)
    ensures Leases(Apply(s, SubmitJob(job, now)))
  {
    LeasesKept(s, Apply(s, SubmitJob(job, now)));
  }

  lemma {:induction false} SubmitSafe(s: Sys, job: Job, now: int)
    requires Safe(s)
    ensures Safe(Apply(s, SubmitJob(job, now)))
  {
    SubmitTraffic(s, job, now);
    SubmitJobs(s, job, now);
    SubmitAnswers(s, job, now);
    SubmitLeases(s, job, now);
  }

  lemma {:induction false} CancelSafe(s: Sys, key: CancelKey)
    requires Safe(s)
    ensures Safe(Apply(s, CancelJobs(key)))
  {
    var t := Apply(s, CancelJobs(key));
    CancelInv(s.sched, key);
    LeasesKept(s, t);
    SettledSafe(s, t);
  }

  lemma {:induction false} AcquireSettled(s: Sys, q: LeaseRequest)
    requires SysShaped(s)
    ensures var t := Apply(s, AcquireLease(q)); OnlySched(s, t) && SettledAll(s.sched, t.sched) && t.pc == s.pc
  {
  }

  lemma {:induction false} AcquireSafe(s: Sys, q: LeaseRequest)
    requires Safe(s)
    ensures Safe(Apply(s, AcquireLease(q)))
  {
    AcquireInv(s.sched, q);
    AcquireLeases(s, q);
    AcquireSettled(s, q);
    SettledSafe(s, Apply(s, AcquireLease(q)));
  }

  lemma {:induction false} ReleaseSafe(s: Sys, id: nat)
    requires Safe(s)
    ensures Safe(Apply(s, ReleaseLease(id)))
  {
    ReleaseInv(s.sched, id);
    LeasesKept(s, Apply(s, ReleaseLease(id)));
    SettledSafe(s, Apply(s, ReleaseLease(id)));
  }

  lemma {:induction false} BlockSafe(s: Sys, device: string)
    requires Safe(s)
    ensures Safe(Apply(s, BlockDevice(device)))
  {
    BlockInv(s.sched, device);
    LeasesKept(s, Apply(s, BlockDevice(device)));
    SettledSafe(s, Apply(s, BlockDevice(device)));
  }

  lemma {:induction false} UnblockSafe(s: Sys, device: string)
    requires Safe(s)
    ensures Safe(Apply(s, UnblockDevice(device)))
  {
    BlockInv(s.sched, device);
    LeasesKept(s, Apply(s, UnblockDevice(device)));
    SettledSafe(s, Apply(s, UnblockDevice(device)));
  }

  lemma {:induction false} PromoteSafe(s: Sys, now: int)
    requires Safe(s) && s.pc.Idle?
    ensures Safe(Apply(s, PromoteTurn(now)))
  {
    PromoteInv(s.sched, now);
    LeasesKept(s, Apply(s, PromoteTurn(now)));
    SettledSafe(s, Apply(s, PromoteTurn(now)));
  }

  lemma {:induction false} LeaseTurnSafe(s: Sys, i: nat)
    requires Safe(s) && s.pc.Idle? && i < MAX_DEVICES
    ensures Safe(Apply(s, LeaseTurn(i)))
  {
    ProcessLeaseInv(s.sched, i);
    TurnLeases(s, i);
    TurnSettled(s, i);
    SettledSafe(s, Apply(s, LeaseTurn(i)));
  }

  lemma {:induction false} TurnSettled(s: Sys, i: nat)
    requires SysShaped(s) && s.pc.Idle? && i < MAX_DEVICES
    ensures var t := Apply(s, LeaseTurn(i)); OnlySched(s, t) && SettledAll(s.sched, t.sched) && (t.pc == s.pc || t.pc.LeaseCalling?)
  {
  }

  lemma {:induction false} LeaseCallSafe(s: Sys)
    requires Safe(s) && s.pc.LeaseCalling?
    ensures Safe(Apply(s, LeaseCallTurn))
  {
    CallLeases(s);
    SettledSafe(s, Apply(s, LeaseCallTurn));
  }

  lemma {:induction false} CompleteTurnJobs(s: Sys, i: nat)
    requires SysShaped(s) && Jobs(s) && Inv(s.sched) && s.pc.Idle? && i < MAX_JOBS
    ensures Jobs(Apply(s, CompleteTurn(i)))
  {
    var t := Apply(s, CompleteTurn(i));
    assert SlotOk(s.sched, i);
    assert PcOk(t);
    JobsKept(s, t);
  }

  lemma {:induction false} CompleteTurnAnswers(s: Sys, i: nat)
    requires Traffic(s) && Answers(s) && s.pc.Idle? && i < MAX_JOBS
    ensures Answers(Apply(s, CompleteTurn(i)))
  {
    assert AnswerOk(s, i);
    if s.owed.Some? { DeliverOpen(s); }
    AnswersKept(s, Apply(s, CompleteTurn(i)));
  }

  lemma {:induction false} CompleteTurnSafe(s: Sys, i: nat)
    requires Safe(s) && s.pc.Idle? && i < MAX_JOBS
    ensures Safe(Apply(s, CompleteTurn(i)))
  {
    CompleteTurnTraffic(s, i);
    CompleteTurnLeases(s, i);
    CompleteTurnJobs(s, i);
    CompleteTurnAnswers(s, i);
  }

  lemma {:induction false} CompleteTurnLeases(s: Sys, i: nat)
    requires SysShaped(s) && Leases(s) && s.pc.Idle? && i < MAX_JOBS
    ensures Leases(Apply(s, CompleteTurn(i)))
  {
    LeasesKept(s, Apply(s, CompleteTurn(i)));
  }

  lemma {:induction false} CompleteTurnTraffic(s: Sys, i: nat)
    requires Traffic(s) && s.pc.Idle? && i < MAX_JOBS
    ensures Traffic(Apply(s, CompleteTurn(i)))
  {
    CompleteBeginInv(s.sched, i);
    TrafficKept(s, Apply(s, CompleteTurn(i)));
  }

  lemma {:induction false} CallAnswers(s: Sys)
    requires SysShaped(s) && Answers(s) && s.pc.Calling?
    ensures Answers(Apply(s, CallTurn))
  {
    forall i: nat ensures AnswerOk(Apply(s, CallTurn), i) { assert AnswerOk(s, i); }
  }

  lemma {:induction false} CallTraffic(s: Sys)
    requires Traffic(s) && s.pc.Calling?
    ensures Traffic(Apply(s, CallTurn))
  {
    TrafficKept(s, Apply(s, CallTurn));
  }

  lemma {:induction false} CallSafe(s: Sys)
    requires Safe(s) && s.pc.Calling?
    ensures Safe(Apply(s, CallTurn))
  {
    CallJobs(s);
    CallTraffic(s);
    LeasesKept(s, Apply(s, CallTurn));
    CallAnswers(s);
  }

  lemma {:induction false} FreeSafe(s: Sys)
    requires Safe(s) && s.pc.Called?
    ensures Safe(Apply(s, FreeTurn))
  {
    FreeJobs(s);
    FreeTraffic(s);
    LeasesKept(s, Apply(s, FreeTurn));
    FreeAnswers(s);
  }

  lemma {:induction false} FreeTraffic(s: Sys)
    requires Traffic(s) && PcOk(s) && s.pc.Called?
    ensures Traffic(Apply(s, FreeTurn))
  {
    CompleteEndInv(s.sched, s.pc.slot);
    TrafficKept(s, Apply(s, FreeTurn));
  }

  lemma {:induction false} FreeAnswers(s: Sys)
    requires Traffic(s) && PcOk(s) && Answers(s) && s.pc.Called?
    ensures Answers(Apply(s, FreeTurn))
  {
    if s.owed.Some? { DeliverOpen(s); }
    AnswersKept(s, Apply(s, FreeTurn));
  }

  lemma {:induction false} DispatchJobs(s: Sys)
    requires SysShaped(s) && Jobs(s) && s.pc.Idle?
    ensures Jobs(Apply(s, DispatchTurn))
  {
    var t := Apply(s, DispatchTurn);
    assert PcOk(t);
    JobsKept(s, t);
  }

  lemma {:induction false} DispatchSafe(s: Sys)
    requires Safe(s) && s.pc.Idle?
    ensures Safe(Apply(s, DispatchTurn))
  {
    DispatchTraffic(s);
    DispatchAnswers(s);
    DispatchJobs(s);
    DispatchLeases(s);
  }

  lemma {:induction false} DispatchLeases(s: Sys)
    requires SysShaped(s) && Leases(s) && s.pc.Idle?
    ensures Leases(Apply(s, DispatchTurn))
  {
    LeasesKept(s, Apply(s, DispatchTurn));
  }

  lemma {:induction false} EnqueueAnswers(s: Sys)
    requires SysShaped(s) && Answers(s) && s.pc.Submitting?
    ensures Answers(Apply(s, EnqueueTurn))
  {
    var t := Apply(s, EnqueueTurn);
    forall i: nat ensures AnswerOk(t, i) { assert AnswerOk(s, i); }
  }

  lemma {:induction false} EnqueueSafe(s: Sys)
    requires Safe(s) && s.pc.Submitting?
    ensures Safe(Apply(s, EnqueueTurn))
  {
    EnqueueTraffic(s);
    EnqueueAnswers(s);
    EnqueueJobs(s);
  }

  lemma {:induction false} EnqueueJobs(s: Sys)
    requires SysShaped(s) && Jobs(s) && Leases(s) && s.pc.Submitting?
    ensures Jobs(Apply(s, EnqueueTurn)) && Leases(Apply(s, EnqueueTurn))
  {
    LeasesKept(s, Apply(s, EnqueueTurn));
    JobsKept(s, Apply(s, EnqueueTurn));
  }

  /** The service's own steps leave jobs and leases alone and add at most one answer. */
  ghost predicate OnlyOwes(s: Sys, t: Sys, x: Option<Answer>) {
    && t.sched == s.sched && t.pc == s.pc && t.accepted == s.accepted && t.called == s.called
    && t.leaseAccepted == s.leaseAccepted && t.leaseCalled == s.leaseCalled
    && t.owed == x && (x.None? ==> t.answered == s.answered)
    && (x.Some? ==> !x.value.result.status.Busy? && !x.value.result.status.QueueFull?)
    && (x.Some? && x.value.ctx < |s.sched.slots| ==> t.answered == s.answered[s.sched.slots[x.value.ctx].id := x.value.result])
  }

  lemma {:induction false} ServiceSafe(s: Sys, t: Sys, x: Option<Answer>)
    requires Safe(s) && Traffic(t) && s.owed.None? && OnlyOwes(s, t, x)
    ensures Safe(t)
  {
    assert Leases(t) by { LeasesKept(s, t); }
    assert Jobs(t) by { JobsKept(s, t); }
    ServiceAnswers(s, t, x);
  }

  lemma {:induction false} ServiceAnswers(s: Sys, t: Sys, x: Option<Answer>)
    requires Traffic(s) && Answers(s) && Traffic(t) && s.owed.None? && OnlyOwes(s, t, x)
    ensures Answers(t)
  {
    if x.Some? {
      DeliverOpen(t);
      OweAnswers(s, t, x.value.ctx, x.value.result);
    } else {
      forall i: nat ensures AnswerOk(t, i) { assert AnswerOk(s, i); }
    }
  }

  lemma {:induction false} ServeOwes(s: Sys, env: Env)
    requires SysShaped(s) && Enabled(s, ServeTurn(env))
    requires FirstIndex(s.svc.pending, OnDevice(s.queue[0].request.device)) == -1 && FirstIndex(s.svc.pending, Vacant()) >= 0
    ensures OnlyOwes(s, Apply(s, ServeTurn(env)), AnswerOf(s.svc, SubmitEvent(s.queue[0], env)))
  {
  }

  lemma {:induction false} ServeSafe(s: Sys, env: Env)
    requires Safe(s) && Enabled(s, ServeTurn(env))
    ensures Safe(Apply(s, ServeTurn(env)))
  {
    ServeTraffic(s, env);
    ServeNeverRefused(s);
    ServeOwes(s, env);
    ServiceSafe(s, Apply(s, ServeTurn(env)), AnswerOf(s.svc, SubmitEvent(s.queue[0], env)));
  }

  lemma {:induction false} UrgentOwes(s: Sys, e: Event)
    requires SysShaped(s) && Enabled(s, UrgentTurn(e))
    ensures OnlyOwes(s, Apply(s, UrgentTurn(e)), AnswerOf(s.svc, e))
  {
  }

  lemma {:induction false} UrgentSafe(s: Sys, e: Event)
    requires Safe(s) && Enabled(s, UrgentTurn(e))
    ensures Safe(Apply(s, UrgentTurn(e)))
  {
    UrgentTraffic(s, e);
    UrgentOwes(s, e);
    ServiceSafe(s, Apply(s, UrgentTurn(e)), AnswerOf(s.svc, e));
  }

  lemma {:induction false} DeliverSafe(s: Sys)
    requires Safe(s) && s.owed.Some?
    ensures Safe(Apply(s, DeliverTurn))
  {
    DeliverTraffic(s);
    DeliverAnswers(s);
    DeliverOpen(s);
    DeliverJobs(s);
    LeasesKept(s, Apply(s, DeliverTurn));
  }

  lemma {:induction false} DeliverJobs(s: Sys)
    requires SysShaped(s) && Inv(s.sched) && Jobs(s) && s.owed.Some?
    requires var p := s.owed.value.ctx; p < MAX_JOBS && s.sched.slots[p].state.Inflight? && MailboxOpen(s.sched, p)
    ensures Jobs(Apply(s, DeliverTurn))
  {
    ServiceCompleteInv(s.sched, s.owed.value.ctx, s.owed.value.result);
    JobsKept(s, Apply(s, DeliverTurn));
  }

  /** Every enabled action keeps the invariant. */
  lemma {:induction false} StepSafe(s: Sys, a: Action)
    requires Safe(s) && Enabled(s, a)
    ensures Safe(Apply(s, a))
  {
    match a
    case SubmitJob(job, now) => SubmitSafe(s, job, now);
    case CancelJobs(key) => CancelSafe(s, key);
    case AcquireLease(q) => AcquireSafe(s, q);
    case ReleaseLease(id) => ReleaseSafe(s, id);
    case BlockDevice(dev) => BlockSafe(s, dev);
    case UnblockDevice(dev) => UnblockSafe(s, dev);
    case PromoteTurn(now) => PromoteSafe(s, now);
    case LeaseTurn(i) => LeaseTurnSafe(s, i);
    case LeaseCallTurn => LeaseCallSafe(s);
    case CompleteTurn(i) => CompleteTurnSafe(s, i);
    case CallTurn => CallSafe(s);
    case FreeTurn => FreeSafe(s);
    case DispatchTurn => DispatchSafe(s);
    case EnqueueTurn => EnqueueSafe(s);
    case RefusedTurn =>
    case ServeTurn(env) => ServeSafe(s, env);
    case UrgentTurn(e) => UrgentSafe(s, e);
    case DeliverTurn => DeliverSafe(s);
  }

  // ----- runs

  /** Every action of the sequence is enabled in its turn. */
  ghost predicate Fires(s: Sys, acts: seq<Action>)
    requires SysShaped(s)
    decreases |acts|
  {
    |acts| == 0 || (Enabled(s, acts[0]) && SysShaped(Apply(s, acts[0])) && Fires(Apply(s, acts[0]), acts[1..]))
  }

  ghost function After(s: Sys, acts: seq<Action>): (r: Sys)
    requires SysShaped(s) && Fires(s, acts)
    ensures SysShaped(r)
    decreases |acts|
  {
    if |acts| == 0 then s else After(Apply(s, acts[0]), acts[1..])
  }

  lemma {:induction false} RunSafe(s: Sys, acts: seq<Action>)
    requires Safe(s) && Fires(s, acts)
    ensures Safe(After(s, acts))
    decreases |acts|
  {
    if |acts| > 0 {
      StepSafe(s, acts[0]);
      RunSafe(Apply(s, acts[0]), acts[1..]);
    }
  }

  lemma {:induction false} RunsPrepend(s: Sys, x: Action, rest: seq<Action>)
    requires SysShaped(s) && Enabled(s, x) && SysShaped(Apply(s, x)) && Fires(Apply(s, x), rest)
    ensures Fires(s, [x] + rest) && After(s, [x] + rest) == After(Apply(s, x), rest)
  {
    assert ([x] + rest)[0] == x && ([x] + rest)[1..] == rest;
  }

  /** One more enabled action. */
  lemma {:induction false} RunGrows(s: Sys, a: seq<Action>, x: Action)
    requires SysShaped(s) && Fires(s, a) && Enabled(After(s, a), x) && SysShaped(Apply(After(s, a), x))
    ensures Fires(s, a + [x]) && After(s, a + [x]) == Apply(After(s, a), x)
    decreases |a|
  {
    if |a| == 0 {
      assert a + [x] == [x] + [];
      RunsPrepend(s, x, []);
    } else {
      RunGrows(Apply(s, a[0]), a[1..], x);
      RunsPrepend(s, a[0], a[1..] + [x]);
      assert [a[0]] + (a[1..] + [x]) == a + [x];
    }
  }

  /** A run is a run up to any point. */
  lemma {:induction false} RunPrefix(s: Sys, a: seq<Action>, j: nat)
    requires SysShaped(s) && Fires(s, a) && j <= |a|
    ensures Fires(s, a[..j]) && Fires(After(s, a[..j]), a[j..]) && After(s, a) == After(After(s, a[..j]), a[j..])
    decreases |a|
  {
    if j == 0 {
      assert a[..0] == [] && a[0..] == a;
    } else {
      assert a[..j][1..] == a[1..][..j - 1] && a[1..][j - 1..] == a[j..] && a[..j][0] == a[0];
      RunPrefix(Apply(s, a[0]), a[1..], j - 1);
    }
  }

  // ----- theorems

  /** In every run: the service answered no job BUSY or QUEUE_FULL and counted no rejection, the submit queue never
      filled, no completion hit a mailbox conflict, and the jobs in flight are exactly the unanswered requests. */
  lemma {:induction false} ServiceNeverRefuses(acts: seq<Action>)
    requires Fires(Boot(), acts)
    ensures var s := After(Boot(), acts);
            && s.busy == 0 && s.queueFull == 0 && s.sched.conflicts == 0 && |s.queue| <= MAX_INFLIGHT < QUEUE_LEN
            && (forall n :: n in s.answered ==> !s.answered[n].status.Busy? && !s.answered[n].status.QueueFull?)
            && Unanswered(s) == multiset(InflightSlots(s.sched)) && |InflightSlots(s.sched)| <= MAX_INFLIGHT
  {
    BootSafe();
    RunSafe(Boot(), acts);
    var s := After(Boot(), acts);
    UnansweredSize(s);
    QueueSize(s.queue);
    InflightBound(s.sched);
  }

  ghost function LiveSlots(s: Sys): set<nat> { set i: nat | i < |s.sched.slots| && Live(s, i) }

  /** In every run no accepted job is called back twice, none is lost, and accepted jobs equal callbacks made plus
      occupied slots not yet called. */
  lemma {:induction false} ExactlyOnceCallbacks(acts: seq<Action>)
    requires Fires(Boot(), acts)
    ensures var s := After(Boot(), acts);
            && (forall k, m :: 0 <= k < m < |s.called| ==> s.called[k].id != s.called[m].id)
            && (forall n :: n in s.accepted <==> WasCalled(s, n) || IsLive(s, n))
            && (forall n :: !(WasCalled(s, n) && IsLive(s, n)))
            && |s.accepted| == |s.called| + |LiveSlots(s)|
  {
    BootSafe();
    RunSafe(Boot(), acts);
    var s := After(Boot(), acts);
    AcceptedCount(s);
  }

  ghost function CalledIds(called: seq<Callback>): set<nat> { set k | 0 <= k < |called| :: called[k].id }

  lemma {:induction false} CalledSize(called: seq<Callback>)
    requires forall k, m :: 0 <= k < m < |called| ==> called[k].id != called[m].id
    ensures |CalledIds(called)| == |called|
  {
    if |called| == 0 {
      assert CalledIds(called) == {};
    } else {
      var n := |called| - 1;
      CalledSize(called[..n]);
      assert CalledIds(called) == CalledIds(called[..n]) + {called[n].id};
    }
  }

  ghost function LiveIds(s: Sys): map<nat, nat> { map i | i in LiveSlots(s) :: s.sched.slots[i].id }

  lemma {:induction false} AcceptedSplits(s: Sys)
    requires Jobs(s)
    ensures s.accepted == CalledIds(s.called) + Image(LiveSlots(s), LiveIds(s))
    ensures CalledIds(s.called) !! Image(LiveSlots(s), LiveIds(s))
  {
    var live := Image(LiveSlots(s), LiveIds(s));
    forall n | n in s.accepted ensures n in CalledIds(s.called) + live {
      if !WasCalled(s, n) {
        var i: nat :| Live(s, i) && s.sched.slots[i].id == n;
        assert i in LiveSlots(s) && LiveIds(s)[i] == n;
      }
    }
  }

  lemma {:induction false} AcceptedCount(s: Sys)
    requires Jobs(s) && Inv(s.sched)
    ensures |s.accepted| == |s.called| + |LiveSlots(s)|
  {
    CalledSize(s.called);
    AcceptedSplits(s);
    forall x, y | x in LiveSlots(s) && y in LiveSlots(s) && LiveIds(s)[x] == LiveIds(s)[y] ensures x == y {}
    ImageSize(LiveSlots(s), LiveIds(s));
  }

  /** In every run a callback that reports a command outcome carries what the service answered for that very job. */
  lemma {:induction false} OutcomesAreRouted(acts: seq<Action>, k: nat)
    requires Fires(Boot(), acts) && k < |After(Boot(), acts).called|
    ensures var s := After(Boot(), acts);
            s.called[k].terminal.Command? ==> s.called[k].id in s.answered && s.answered[s.called[k].id] == s.called[k].result
  {
    BootSafe();
    RunSafe(Boot(), acts);
    assert CallbackOk(After(Boot(), acts).answered, After(Boot(), acts).called[k]);
  }

  /** In every run leases are exclusive on every device row. */
  lemma {:induction false} LeaseExclusion(acts: seq<Action>, d: nat)
    requires Fires(Boot(), acts) && d < MAX_DEVICES
    ensures LeaseExclusive(After(Boot(), acts).sched, d)
  {
    BootSafe();
    RunSafe(Boot(), acts);
    LeasesAreExclusive(After(Boot(), acts).sched, d);
  }

  /** In every run each accepted lease request has had one callback or still owns one, never both and never two,
      also when it was cancelled while pending. */
  lemma {:induction false} LeaseCallbacksOnce(acts: seq<Action>)
    requires Fires(Boot(), acts)
    ensures var s := After(Boot(), acts);
            && (forall k, m :: 0 <= k < m < |s.leaseCalled| ==> s.leaseCalled[k].0 != s.leaseCalled[m].0)
            && (forall n :: n in s.leaseAccepted <==> LeaseWasCalled(s, n) || LeaseOwed(s, n))
            && (forall n :: !(LeaseWasCalled(s, n) && LeaseOwed(s, n)))
  {
    BootSafe();
    RunSafe(Boot(), acts);
  }
}
