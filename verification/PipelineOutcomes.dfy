/** From an answer of the service to the callback of the job it is for: once an ACK, a lost link, a cancel or
    a timeout has answered a job's request, every later callback of that job reports that answer. */
module PipelineOutcomes {
  import opened Basics
  import opened Search
  import opened Scheduler
  import opened CommandService
  import opened SchedulerInvariant
  import opened Pipeline
  import opened PipelineTraffic
  import opened PipelineJobs
  import opened PipelineRuns
  import opened PipelineAcks
  import H = ServiceHistory
  import A = ServiceAnswers

  /** The cancel names job n, whose device, source and owner are job's. */
  predicate CancelNames(a: Action, n: nat, job: Job) {
    && a.CancelJobs?
    && (a.key.JobId? ==> a.key.id == n)
    && (!a.key.JobId? ==> a.key.device == job.request.device)
    && (a.key.DeviceOwner? ==> a.key.source == job.source && a.key.owner == job.owner)
  }

  predicate SomeCancelNames(acts: seq<Action>, n: nat, job: Job) {
    exists m :: 0 <= m < |acts| && CancelNames(acts[m], n, job)
  }

  /** The callback is for job n and carries result r, as a command outcome or, after a cancel of the finished job, as a cancel. */
  predicate Reports(cb: Callback, n: nat, r: CommandResult, cancelled: bool) {
    cb.id == n && cb.result == r && (cb.terminal.Command? || (cancelled && cb.terminal.CancelledJob?))
  }

  /** Result r of job n is owed to its slot i, or held there, or about to be reported, or reported. */
  ghost predicate Decided(s: Sys, i: nat, n: nat, job: Job, r: CommandResult, cancelled: bool) {
    || OwedTo(s, i, n, job, r)
    || HeldIn(s, i, n, job, r, cancelled)
    || (s.pc.Calling? && Reports(s.pc.cb, n, r, cancelled))
    || (exists c :: 0 <= c < |s.called| && Reports(s.called[c], n, r, cancelled))
  }

  ghost predicate OwedTo(s: Sys, i: nat, n: nat, job: Job, r: CommandResult) {
    && i < |s.sched.slots| && s.sched.slots[i].id == n && s.sched.slots[i].job == job && s.sched.slots[i].state.Inflight?
    && s.owed == Some(Answer(i, r))
  }

  ghost predicate HeldIn(s: Sys, i: nat, n: nat, job: Job, r: CommandResult, cancelled: bool) {
    && i < |s.sched.slots| && s.sched.slots[i].job == job && s.sched.slots[i].state.CompletionPending?
    && Reports(Callback(s.sched.slots[i].id, s.sched.slots[i].terminal, s.sched.slots[i].result), n, r, cancelled)
    && s.pc != Called(i) && !(s.pc.Calling? && s.pc.slot == i)
  }

  /** t is s after the action, with tables of the right size. */
  ghost predicate Turns(s: Sys, a: Action, t: Sys) { SysShaped(s) && Enabled(s, a) && SysShaped(t) && t == Apply(s, a) }

  /** Actions of the scheduler's clients. */
  predicate ByClient(a: Action) {
    a.SubmitJob? || a.CancelJobs? || a.AcquireLease? || a.ReleaseLease? || a.BlockDevice? || a.UnblockDevice?
  }

  lemma {:induction false} ClientsKeepInflight(s: Sys, a: Action, t: Sys, i: nat)
    requires Turns(s, a, t) && ByClient(a) && i < MAX_JOBS && s.sched.slots[i].state.Inflight?
    ensures t.sched.slots[i] == s.sched.slots[i] && t.owed == s.owed
  {
    if a.SubmitJob? { SubmitSlots(s.sched, a.job, a.now); }
  }

  lemma {:induction false} ClientsKeepFinished(s: Sys, a: Action, t: Sys, i: nat)
    requires Turns(s, a, t) && ByClient(a) && !a.CancelJobs? && i < MAX_JOBS && s.sched.slots[i].state.CompletionPending?
    ensures t.sched.slots[i] == s.sched.slots[i]
  {
    if a.SubmitJob? { SubmitSlots(s.sched, a.job, a.now); }
  }

  /** Nothing but a delivery touches an in-flight slot, and no other delivery is owed. */
  lemma {:induction false} InflightKept(s: Sys, a: Action, t: Sys, i: nat)
    requires Turns(s, a, t) && PcOk(s) && i < MAX_JOBS && s.sched.slots[i].state.Inflight? && s.owed.Some?
    requires !a.DeliverTurn? && !s.pc.Refused?
    ensures t.sched.slots[i] == s.sched.slots[i] && t.owed == s.owed
  {
    if ByClient(a) { ClientsKeepInflight(s, a, t, i); } else { WorkerKeepsInflight(s, a, t, i); }
  }

  lemma {:induction false} WorkerKeepsInflight(s: Sys, a: Action, t: Sys, i: nat)
    requires Turns(s, a, t) && PcOk(s) && i < MAX_JOBS && s.sched.slots[i].state.Inflight? && s.owed.Some?
    requires !a.DeliverTurn? && !s.pc.Refused? && !ByClient(a)
    ensures t.sched.slots[i] == s.sched.slots[i] && t.owed == s.owed
  {
  }

  lemma {:induction false} OwedDelivered(s: Sys, t: Sys, i: nat, n: nat, job: Job, r: CommandResult)
    requires SysShaped(s) && Inv(s.sched) && PcOk(s) && OwedTo(s, i, n, job, r) && Turns(s, DeliverTurn, t)
    ensures HeldIn(t, i, n, job, r, false)
  {
    assert SlotOk(s.sched, i);
  }

  /** An owed answer stays owed until it is delivered, and then the slot holds it. */
  lemma {:induction false} OwedMoves(s: Sys, a: Action, t: Sys, i: nat, n: nat, job: Job, r: CommandResult)
    requires Traffic(s) && PcOk(s) && Turns(s, a, t) && OwedTo(s, i, n, job, r)
    ensures if a.DeliverTurn? then HeldIn(t, i, n, job, r, false) else OwedTo(t, i, n, job, r)
  {
    if a.DeliverTurn? { OwedDelivered(s, t, i, n, job, r); } else { InflightKept(s, a, t, i); }
  }

  /** No other critical section touches a finished slot. */
  lemma {:induction false} FinishedKept(s: Sys, a: Action, t: Sys, i: nat)
    requires Turns(s, a, t) && PcOk(s) && i < MAX_JOBS && s.sched.slots[i].state.CompletionPending? && s.pc != Called(i)
    requires !a.CancelJobs? && !a.DeliverTurn? && a != CompleteTurn(i) && !s.pc.Refused?
    ensures t.sched.slots[i] == s.sched.slots[i]
  {
    if ByClient(a) { ClientsKeepFinished(s, a, t, i); } else { WorkerKeepsFinished(s, a, t, i); }
  }

  lemma {:induction false} WorkerKeepsFinished(s: Sys, a: Action, t: Sys, i: nat)
    requires Turns(s, a, t) && i < MAX_JOBS && s.sched.slots[i].state.CompletionPending? && s.pc != Called(i)
    requires !a.DeliverTurn? && a != CompleteTurn(i) && !s.pc.Refused? && !ByClient(a)
    ensures t.sched.slots[i] == s.sched.slots[i]
  {
  }

  lemma {:induction false} WorkerStays(s: Sys, a: Action, t: Sys, i: nat)
    requires Turns(s, a, t) && s.pc != Called(i) && !(s.pc.Calling? && s.pc.slot == i) && a != CompleteTurn(i)
    ensures t.pc != Called(i) && !(t.pc.Calling? && t.pc.slot == i)
  {
  }

  /** A delivery writes the mailbox of an in-flight slot. */
  lemma {:induction false} DeliveryElsewhere(s: Sys, t: Sys, i: nat)
    requires Traffic(s) && s.owed.Some? && i < MAX_JOBS && s.sched.slots[i].state.CompletionPending? && Turns(s, DeliverTurn, t)
    ensures t.sched.slots[i] == s.sched.slots[i]
  {
    DeliverOpen(s);
    ServiceCompleteInv(s.sched, s.owed.value.ctx, s.owed.value.result);
  }

  lemma {:induction false} CancelHeld(s: Sys, a: Action, t: Sys, i: nat, n: nat, job: Job, r: CommandResult, cancelled: bool)
    requires a.CancelJobs? && Turns(s, a, t) && HeldIn(s, i, n, job, r, cancelled)
    ensures HeldIn(t, i, n, job, r, cancelled || CancelNames(a, n, job))
  {
  }

  lemma {:induction false} CompleteHeld(s: Sys, t: Sys, i: nat, n: nat, job: Job, r: CommandResult, cancelled: bool)
    requires Turns(s, CompleteTurn(i), t) && Inv(s.sched) && HeldIn(s, i, n, job, r, cancelled)
    ensures t.pc.Calling? && Reports(t.pc.cb, n, r, cancelled)
  {
    assert SlotOk(s.sched, i);
  }

  lemma {:induction false} SlotTurns(s: Sys, a: Action, t: Sys, i: nat)
    requires Turns(s, a, t) && PcOk(s) && Traffic(s) && i < MAX_JOBS && s.sched.slots[i].state.CompletionPending?
    requires s.pc != Called(i) && !a.CancelJobs? && a != CompleteTurn(i)
    ensures t.sched.slots[i] == s.sched.slots[i]
  {
    if a.DeliverTurn? { DeliveryElsewhere(s, t, i); } else { FinishedKept(s, a, t, i); }
  }

  /** A held result leaves the slot only for the worker's callback; a cancel that names the job changes its terminal. */
  lemma {:induction false} HeldMoves(s: Sys, a: Action, t: Sys, i: nat, n: nat, job: Job, r: CommandResult, cancelled: bool)
    requires Traffic(s) && PcOk(s) && Turns(s, a, t) && HeldIn(s, i, n, job, r, cancelled)
    ensures var c := cancelled || CancelNames(a, n, job);
            HeldIn(t, i, n, job, r, c) || (t.pc.Calling? && Reports(t.pc.cb, n, r, c))
  {
    if a == CompleteTurn(i) {
      CompleteHeld(s, t, i, n, job, r, cancelled);
    } else if a.CancelJobs? {
      CancelHeld(s, a, t, i, n, job, r, cancelled);
    } else {
      WorkerStays(s, a, t, i);
      SlotTurns(s, a, t, i);
    }
  }

  lemma {:induction false} CallingMoves(s: Sys, a: Action, t: Sys, n: nat, r: CommandResult, c: bool)
    requires Turns(s, a, t) && s.pc.Calling? && Reports(s.pc.cb, n, r, c)
    ensures if a.CallTurn? then |t.called| == |s.called| + 1 && Reports(t.called[|s.called|], n, r, c) else t.pc == s.pc
  {
  }

  lemma {:induction false} CalledGrows(s: Sys, a: Action, t: Sys)
    requires Turns(s, a, t)
    ensures s.called <= t.called
  {
  }

  lemma {:induction false} DecidedStep(s: Sys, a: Action, t: Sys, i: nat, n: nat, job: Job, r: CommandResult, cancelled: bool)
    requires Traffic(s) && PcOk(s) && Turns(s, a, t) && Decided(s, i, n, job, r, cancelled)
    ensures Decided(t, i, n, job, r, cancelled || CancelNames(a, n, job))
  {
    if OwedTo(s, i, n, job, r) {
      OwedMoves(s, a, t, i, n, job, r);
    } else if HeldIn(s, i, n, job, r, cancelled) {
      HeldMoves(s, a, t, i, n, job, r, cancelled);
    } else if s.pc.Calling? && Reports(s.pc.cb, n, r, cancelled) {
      CallingMoves(s, a, t, n, r, cancelled);
    } else {
      CalledGrows(s, a, t);
      var k :| 0 <= k < |s.called| && Reports(s.called[k], n, r, cancelled);
      assert t.called[k] == s.called[k];
    }
  }

  /** Some cancel among the actions names the job if the first does or one of the rest. */
  lemma {:induction false} CancelAmong(more: seq<Action>, n: nat, job: Job)
    requires |more| > 0
    ensures SomeCancelNames(more, n, job) <==> CancelNames(more[0], n, job) || SomeCancelNames(more[1..], n, job)
  {
    if SomeCancelNames(more[1..], n, job) {
      var m :| 0 <= m < |more| - 1 && CancelNames(more[1..][m], n, job);
      assert more[m + 1] == more[1..][m];
    }
    if SomeCancelNames(more, n, job) {
      var m :| 0 <= m < |more| && CancelNames(more[m], n, job);
      if m > 0 { assert more[1..][m - 1] == more[m]; }
    }
  }

  lemma {:induction false} DecidedStays(s: Sys, more: seq<Action>, i: nat, n: nat, job: Job, r: CommandResult, cancelled: bool)
    requires Safe(s) && Fires(s, more) && Decided(s, i, n, job, r, cancelled)
    ensures Decided(After(s, more), i, n, job, r, cancelled || SomeCancelNames(more, n, job))
    decreases |more|
  {
    if |more| > 0 {
      StepSafe(s, more[0]);
      DecidedStep(s, more[0], Apply(s, more[0]), i, n, job, r, cancelled);
      CancelAmong(more, n, job);
      DecidedStays(Apply(s, more[0]), more[1..], i, n, job, r, cancelled || CancelNames(more[0], n, job));
    }
  }

  /** A decided job has no callback but the one that reports its result. */
  lemma {:induction false} DecidedCallback(s: Sys, i: nat, n: nat, job: Job, r: CommandResult, cancelled: bool, k: nat)
    requires Safe(s) && Decided(s, i, n, job, r, cancelled) && k < |s.called|
    ensures s.called[k].id == n ==> Reports(s.called[k], n, r, cancelled)
  {
    if OwedTo(s, i, n, job, r) || HeldIn(s, i, n, job, r, cancelled) {
      assert PcOk(s);
      assert Live(s, i);
    } else if s.pc.Calling? && Reports(s.pc.cb, n, r, cancelled) {
      assert Live(s, s.pc.slot);
    }
  }

  // ----- what an urgent event decides

  /** Job n is in flight in slot i and its request waits in pending slot k. */
  ghost predicate RequestOf(s: Sys, i: nat, k: nat, n: nat) {
    && i < |s.sched.slots| && s.sched.slots[i].state.Inflight? && s.sched.slots[i].id == n
    && k < |s.svc.pending| && s.svc.pending[k].inUse && s.svc.pending[k].ctx == i
  }

  /** The event names pending slot k: an ACK by device, id and command, a lost link or a cancel by device, a timeout by slot. */
  ghost predicate EventNames(s: Sys, e: Event, k: nat)
    requires k < |s.svc.pending|
  {
    var p := s.svc.pending[k];
    match e
    case SubmitEvent(_, _) => false
    case AckEvent(a) => a.requestId != 0 && a.device == p.device && a.requestId == p.requestId && a.command == p.command
    case DisconnectEvent(dev) => dev == p.device
    case CancelEvent(dev) => dev == p.device
    case TimeoutEvent(j) => j == k
  }

  /** The result such an event stands for. */
  ghost predicate ResultIs(e: Event, id: nat, r: CommandResult) {
    match e
    case SubmitEvent(_, _) => false
    case AckEvent(a) =>
      (a.accepted ==> r == CommandResult(Ok, id, a.intValue)) && (!a.accepted ==> r == CommandResult(Rejected, id, None))
    case DisconnectEvent(_) => r == CommandResult(NotConnected, id, None)
    case CancelEvent(_) => r == CommandResult(Cancelled, id, None)
    case TimeoutEvent(_) => r == CommandResult(Timeout, id, None)
  }

  /** The answer the service gives such an event is that result for slot i. */
  lemma {:induction false} EventAnswers(es: seq<Event>, e: Event, k: nat, r: CommandResult)
    requires A.Waits(es, k)
    requires var p := A.Table(es)[k];
             match e
             case SubmitEvent(_, _) => false
             case AckEvent(a) => A.AckNames(es, a, k)
             case DisconnectEvent(dev) => dev == p.device
             case CancelEvent(dev) => dev == p.device
             case TimeoutEvent(j) => j == k
    requires ResultIs(e, A.Table(es)[k].requestId, r)
    ensures AnswerOf(H.Run(es).svc, e) == Some(Answer(A.Table(es)[k].ctx, r))
  {
    match e
    case AckEvent(a) => A.AckAnswersIff(es, a, k);
    case DisconnectEvent(_) => A.DropAnswers(es, k);
    case CancelEvent(_) => A.DropAnswers(es, k);
    case TimeoutEvent(_) => A.TimeoutAnswersSlot(es, k);
  }

  lemma {:induction false} AnswerOwed(s: Sys, e: Event, i: nat, n: nat, r: CommandResult)
    requires SysShaped(s) && Enabled(s, UrgentTurn(e)) && AnswerOf(s.svc, e) == Some(Answer(i, r))
    requires i < |s.sched.slots| && s.sched.slots[i].state.Inflight? && s.sched.slots[i].id == n
    ensures OwedTo(Apply(s, UrgentTurn(e)), i, n, s.sched.slots[i].job, r)
  {
  }

  /** Handling such an event owes slot i exactly that result. */
  lemma {:induction false} EventOwes(acts: seq<Action>, e: Event, i: nat, k: nat, n: nat, r: CommandResult)
    requires Fires(Boot(), acts) && Enabled(After(Boot(), acts), UrgentTurn(e)) && RequestOf(After(Boot(), acts), i, k, n)
    requires EventNames(After(Boot(), acts), e, k) && ResultIs(e, After(Boot(), acts).svc.pending[k].requestId, r)
    ensures var s := After(Boot(), acts); OwedTo(Apply(s, UrgentTurn(e)), i, n, s.sched.slots[i].job, r)
  {
    var s, es := After(Boot(), acts), Handled(Boot(), acts);
    ServiceFollows(Boot(), acts);
    assert s.svc == H.Run(es).svc && A.Waits(es, k);
    EventAnswers(es, e, k, r);
    AnswerOwed(s, e, i, n, r);
  }

  /** In every run an event handled for a job's request decides the job: in every continuation its callback carries
      exactly that result, as a command outcome unless a later cancel named the job. */
  lemma {:induction false} EventDecidesCallback(acts: seq<Action>, e: Event, more: seq<Action>, i: nat, k: nat, n: nat, r: CommandResult, c: nat)
    requires Fires(Boot(), acts) && RequestOf(After(Boot(), acts), i, k, n)
    requires EventNames(After(Boot(), acts), e, k) && ResultIs(e, After(Boot(), acts).svc.pending[k].requestId, r)
    requires Fires(After(Boot(), acts), [UrgentTurn(e)] + more)
    requires var s := After(After(Boot(), acts), [UrgentTurn(e)] + more); c < |s.called| && s.called[c].id == n
    ensures var job := After(Boot(), acts).sched.slots[i].job;
            Reports(After(After(Boot(), acts), [UrgentTurn(e)] + more).called[c], n, r, SomeCancelNames(more, n, job))
  {
    var s := After(Boot(), acts);
    var run := [UrgentTurn(e)] + more;
    assert run[0] == UrgentTurn(e) && run[1..] == more;
    BootSafe();
    RunSafe(Boot(), acts);
    EventOwes(acts, e, i, k, n, r);
    StepSafe(s, UrgentTurn(e));
    var t, job := Apply(s, UrgentTurn(e)), s.sched.slots[i].job;
    DecidedStays(t, more, i, n, job, r, false);
    RunSafe(t, more);
    DecidedCallback(After(t, more), i, n, job, r, SomeCancelNames(more, n, job), c);
  }

  /** The service task's delivery and the worker's next two critical sections. */
  function FinishTurns(i: nat): seq<Action> { [DeliverTurn, CompleteTurn(i), CallTurn] }

  lemma {:induction false} DeliverReady(s: Sys, t: Sys, i: nat, n: nat, job: Job, r: CommandResult)
    requires Traffic(s) && PcOk(s) && OwedTo(s, i, n, job, r) && s.pc.Idle? && Turns(s, DeliverTurn, t) && Inv(t.sched)
    ensures t.pc.Idle? && t.called == s.called
    ensures i < MAX_JOBS && t.sched.slots[i].state.CompletionPending? && CompletionOf(t.sched, i) == Some(Callback(n, Command, r))
  {
    OwedDelivered(s, t, i, n, job, r);
    assert SlotOk(t.sched, i);
  }

  /** A delivered result is called back by the worker's next two critical sections. */
  lemma {:induction false} FinishFires(s: Sys, i: nat, n: nat, job: Job, r: CommandResult)
    requires Safe(s) && OwedTo(s, i, n, job, r) && s.pc.Idle?
    ensures Fires(s, FinishTurns(i)) && After(s, FinishTurns(i)).called == s.called + [Callback(n, Command, r)]
  {
    var t := Apply(s, DeliverTurn);
    StepSafe(s, DeliverTurn);
    DeliverReady(s, t, i, n, job, r);
    WorkerFires(t, i, n, r);
    RunsPrepend(s, DeliverTurn, [CompleteTurn(i), CallTurn]);
    assert [DeliverTurn] + [CompleteTurn(i), CallTurn] == FinishTurns(i);
  }

  lemma {:induction false} WorkerFires(s: Sys, i: nat, n: nat, r: CommandResult)
    requires SysShaped(s) && Inv(s.sched) && s.pc.Idle? && i < MAX_JOBS && s.sched.slots[i].state.CompletionPending?
    requires CompletionOf(s.sched, i) == Some(Callback(n, Command, r))
    ensures Fires(s, [CompleteTurn(i), CallTurn]) && After(s, [CompleteTurn(i), CallTurn]).called == s.called + [Callback(n, Command, r)]
  {
    var t := Apply(s, CompleteTurn(i));
    RunsPrepend(t, CallTurn, []);
    RunsPrepend(s, CompleteTurn(i), [CallTurn] + []);
    assert [CompleteTurn(i)] + ([CallTurn] + []) == [CompleteTurn(i), CallTurn];
  }

  lemma {:induction false} UrgentKeeps(s: Sys, e: Event)
    requires SysShaped(s) && Enabled(s, UrgentTurn(e))
    ensures var t := Apply(s, UrgentTurn(e)); SysShaped(t) && t.pc == s.pc && t.called == s.called
  {
  }

  /** And the callback comes: with the worker between jobs, the delivery, the completion and the call make it. */
  lemma {:induction false} EventReachesCallback(acts: seq<Action>, e: Event, i: nat, k: nat, n: nat, r: CommandResult)
    requires Fires(Boot(), acts) && RequestOf(After(Boot(), acts), i, k, n)
    requires EventNames(After(Boot(), acts), e, k) && ResultIs(e, After(Boot(), acts).svc.pending[k].requestId, r)
    requires After(Boot(), acts).owed.None? && After(Boot(), acts).pc.Idle?
    ensures var s := After(Boot(), acts); var run := [UrgentTurn(e)] + FinishTurns(i);
            Fires(s, run) && After(s, run).called == s.called + [Callback(n, Command, r)]
  {
    var s := After(Boot(), acts);
    BootSafe();
    RunSafe(Boot(), acts);
    EventOwes(acts, e, i, k, n, r);
    StepSafe(s, UrgentTurn(e));
    ghost var t := Apply(s, UrgentTurn(e));
    UrgentKeeps(s, e);
    FinishFires(t, i, n, s.sched.slots[i].job, r);
    RunsPrepend(s, UrgentTurn(e), FinishTurns(i));
  }

  /** An ACK handled for a job's request makes the job's callback OK if and only if the device accepted. */
  lemma {:induction false} AckDecidesOkIff(acts: seq<Action>, a: Ack, more: seq<Action>, i: nat, k: nat, n: nat, c: nat)
    requires Fires(Boot(), acts) && RequestOf(After(Boot(), acts), i, k, n)
    requires EventNames(After(Boot(), acts), AckEvent(a), k)
    requires Fires(After(Boot(), acts), [UrgentTurn(AckEvent(a))] + more)
    requires var s := After(After(Boot(), acts), [UrgentTurn(AckEvent(a))] + more); c < |s.called| && s.called[c].id == n
    ensures var cb := After(After(Boot(), acts), [UrgentTurn(AckEvent(a))] + more).called[c];
            && (cb.result.status.Ok? <==> a.accepted)
            && (!SomeCancelNames(more, n, After(Boot(), acts).sched.slots[i].job) ==> cb.terminal.Command?)
  {
    var r := if a.accepted then CommandResult(Ok, a.requestId, a.intValue) else CommandResult(Rejected, a.requestId, None);
    EventDecidesCallback(acts, AckEvent(a), more, i, k, n, r, c);
  }
}
