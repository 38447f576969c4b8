/** A run that stalls HIGH jobs: a NORMAL job waits on a blocked device, eight HIGH jobs of another device are sent and
    answered, and the ninth is not sent although nothing else is in flight. */
module Stall {
  import opened Basics
  import opened Search
  import opened Scheduler
  import opened CommandService
  import opened Pipeline
  import opened PipelineRuns
  import opened Fairness

  const NORMAL_JOB := Job(Request("b", "on", 0), NORMAL, 0, NoDedupe, 0, 0, 0, 0)
  const HIGH_JOB := Job(Request("a", "on", 0), HIGH, 0, NoDedupe, 0, 0, 0, 0)

  /** Row 0 is the blocked device b and slot 0 its queued NORMAL job; row 1 is or becomes device a; slots from 2 on are free. */
  ghost predicate Held(s: Sys) {
    && SysShaped(s)
    && s.sched.devices[0].used && s.sched.devices[0].blocked && s.sched.devices[0].id == "b"
    && RowFor(s.sched.devices, "a") == 1
    && s.sched.slots[0].state.Queued? && s.sched.slots[0].device == 0 && s.sched.slots[0].job == NORMAL_JOB
    && s.sched.slots[0].deadline == 0
    && forall i :: 2 <= i < MAX_JOBS ==> s.sched.slots[i].state.Free?
  }

  /** Row 1 belongs to a and takes jobs. */
  ghost predicate Open(devices: seq<Device>) {
    |devices| == MAX_DEVICES && devices[1] == Device(true, false, false, "a", -1, 0)
  }

  /** Between two cycles, after n HIGH jobs. */
  ghost predicate Ready(s: Sys, n: nat) {
    && Held(s) && Open(RowsWith(s.sched.devices, "a")) && s.sched.slots[1].state.Free?
    && s.pc.Idle? && s.queue == [] && s.owed.None? && s.sched.inflight == 0 && s.sched.highBurst == n
  }

  /** The next HIGH job sits in slot 1. */
  ghost predicate Loaded(s: Sys, n: nat, state: SlotState) {
    && Held(s) && s.sched.slots[1].state == state && s.sched.slots[1].device == 1 && s.sched.slots[1].job == HIGH_JOB
    && s.sched.slots[1].deadline == 0 && !s.sched.slots[1].written && s.sched.highBurst == n
  }

  ghost predicate Quiet(s: Sys) { s.pc.Idle? && s.queue == [] && s.owed.None? && s.sched.inflight == 0 && Open(s.sched.devices) }

  lemma {:induction false} Submits(s: Sys, n: nat)
    requires Ready(s, n)
    ensures var t := Apply(s, SubmitJob(HIGH_JOB, 0)); Loaded(t, n, EnqueuePending) && Quiet(t)
  {
    FirstIndexUnique(s.sched.slots, SlotFree(), 1);
    var rows := RowsWith(s.sched.devices, "a");
    assert rows[0] == s.sched.devices[0] && RowNamed("a")(rows[1]);
    FirstIndexUnique(rows, RowNamed("a"), 1);
  }

  lemma {:induction false} Promotes(s: Sys, n: nat)
    requires Loaded(s, n, EnqueuePending) && Quiet(s)
    ensures var t := Apply(s, PromoteTurn(0)); Loaded(t, n, Queued) && Quiet(t)
  {
  }

  /** Only the HIGH job can be sent. */
  lemma {:induction false} OnlyHigh(s: Sys, n: nat)
    requires Loaded(s, n, Queued) && Quiet(s)
    ensures Dispatchable(s.sched, 1) && NormalQueued(s.sched) && forall i: nat :: Dispatchable(s.sched, i) ==> i == 1
  {
    assert s.sched.slots[0].job.priority == NORMAL;
  }

  ghost predicate Flying(s: Sys, n: nat) {
    && Loaded(s, n, Inflight) && s.sched.inflight == 1
    && s.sched.devices[1] == Device(true, false, true, "a", 1, 0)
    && s.sched.slots[1].ctxSlot == 1 && s.sched.slots[1].ctxGen == s.sched.slots[1].generation
  }

  lemma {:induction false} Sent(s: Sys, n: nat)
    requires Loaded(s, n, Queued) && Quiet(s) && n < HIGH_BURST_MAX
    ensures var t := Apply(s, DispatchTurn);
            Flying(t, n + 1) && t.pc == Submitting(1, HIGH_JOB.request) && t.queue == [] && t.owed.None?
  {
    OnlyHigh(s, n);
    assert Eligible(s.sched, 1) && DispatchChoice(s.sched) == 1;
    var rows := Dispatch(s.sched).devices;
    assert !RowNamed("a")(rows[0]) && RowNamed("a")(rows[1]);
    FirstIndexUnique(rows, RowNamed("a"), 1);
  }

  const OFFLINE := Env(Ok, false, true, 0)

  lemma {:induction false} Enqueues(s: Sys, n: nat)
    requires Flying(s, n) && s.pc == Submitting(1, HIGH_JOB.request) && s.queue == [] && s.owed.None?
    ensures var t := Apply(s, EnqueueTurn); Flying(t, n) && t.pc.Idle? && t.queue == [Submission(HIGH_JOB.request, 1)] && t.owed.None?
  {
  }

  /** The service answers that the device is not connected. */
  lemma {:induction false} Answered(s: Sys, n: nat)
    requires Flying(s, n) && s.pc.Idle? && s.queue == [Submission(HIGH_JOB.request, 1)] && s.owed.None?
    ensures var u := Apply(s, ServeTurn(OFFLINE));
            Flying(u, n) && u.pc.Idle? && u.queue == [] && u.owed == Some(Answer(1, Status0(NotConnected, 0)))
  {
    assert Refusal(s.svc, s.queue[0], OFFLINE) == Some(NotConnected);
  }

  /** The answer is delivered, called back and the slot freed. */
  ghost predicate Finished(s: Sys, n: nat) {
    && Held(s) && s.sched.slots[1].device == 1 && s.sched.highBurst == n && s.queue == [] && s.owed.None?
  }

  lemma {:induction false} Delivers(s: Sys, n: nat)
    requires Flying(s, n) && s.pc.Idle? && s.queue == [] && s.owed == Some(Answer(1, Status0(NotConnected, 0)))
    ensures var t := Apply(s, DeliverTurn);
            && Finished(t, n) && t.sched.slots[1].state.CompletionPending? && t.pc.Idle?
            && t.sched.devices == s.sched.devices && t.sched.inflight == 1
  {
    assert MailboxOpen(s.sched, 1);
  }

  lemma {:induction false} Completes(s: Sys, n: nat)
    requires Finished(s, n) && s.sched.slots[1].state.CompletionPending? && s.pc.Idle?
    requires s.sched.devices[1] == Device(true, false, true, "a", 1, 0) && s.sched.inflight == 1
    ensures var t := Apply(s, CompleteTurn(1));
            Finished(t, n) && t.pc.Calling? && t.pc.slot == 1 && Open(t.sched.devices) && t.sched.inflight == 0
  {
    var rows := CompleteBegin(s.sched, 1).devices;
    assert !RowNamed("a")(rows[0]) && RowNamed("a")(rows[1]);
    FirstIndexUnique(rows, RowNamed("a"), 1);
  }

  lemma {:induction false} Frees(s: Sys, n: nat)
    requires Finished(s, n) && s.pc.Calling? && s.pc.slot == 1 && Open(s.sched.devices) && s.sched.inflight == 0
    ensures SysShaped(Apply(s, CallTurn)) && Ready(Apply(Apply(s, CallTurn), FreeTurn), n)
  {
    assert RowNamed("a")(s.sched.devices[1]);
  }

  /** A HIGH job queued after n others. */
  lemma {:induction false} Queues(s: Sys, acts: seq<Action>, n: nat) returns (more: seq<Action>)
    requires SysShaped(s) && Fires(s, acts) && Ready(After(s, acts), n)
    ensures Fires(s, more) && Loaded(After(s, more), n, Queued) && Quiet(After(s, more))
  {
    Submits(After(s, acts), n);
    RunGrows(s, acts, SubmitJob(HIGH_JOB, 0));
    var a := acts + [SubmitJob(HIGH_JOB, 0)];
    Promotes(After(s, a), n);
    RunGrows(s, a, PromoteTurn(0));
    more := a + [PromoteTurn(0)];
  }

  lemma {:induction false} Flies(s: Sys, acts: seq<Action>, n: nat) returns (more: seq<Action>)
    requires SysShaped(s) && Fires(s, acts) && Loaded(After(s, acts), n, Queued) && Quiet(After(s, acts)) && n < HIGH_BURST_MAX
    ensures Fires(s, more) && Flying(After(s, more), n + 1) && After(s, more).pc.Idle? && After(s, more).queue == []
    ensures After(s, more).owed == Some(Answer(1, Status0(NotConnected, 0)))
  {
    Sent(After(s, acts), n);
    RunGrows(s, acts, DispatchTurn);
    var a := acts + [DispatchTurn];
    Enqueues(After(s, a), n + 1);
    RunGrows(s, a, EnqueueTurn);
    var b := a + [EnqueueTurn];
    Answered(After(s, b), n + 1);
    RunGrows(s, b, ServeTurn(OFFLINE));
    more := b + [ServeTurn(OFFLINE)];
  }

  lemma {:induction false} Lands(s: Sys, acts: seq<Action>, n: nat) returns (more: seq<Action>)
    requires SysShaped(s) && Fires(s, acts) && Flying(After(s, acts), n) && After(s, acts).pc.Idle? && After(s, acts).queue == []
    requires After(s, acts).owed == Some(Answer(1, Status0(NotConnected, 0)))
    ensures Fires(s, more) && Ready(After(s, more), n)
  {
    Delivers(After(s, acts), n);
    RunGrows(s, acts, DeliverTurn);
    var a := acts + [DeliverTurn];
    Completes(After(s, a), n);
    RunGrows(s, a, CompleteTurn(1));
    var b := a + [CompleteTurn(1)];
    Frees(After(s, b), n);
    RunGrows(s, b, CallTurn);
    RunGrows(s, b + [CallTurn], FreeTurn);
    more := b + [CallTurn] + [FreeTurn];
  }

  /** n HIGH jobs have been sent and answered while the NORMAL job waited. */
  lemma {:induction false} Cycles(n: nat) returns (acts: seq<Action>)
    requires n <= HIGH_BURST_MAX
    ensures Fires(Boot(), acts) && Ready(After(Boot(), acts), n)
  {
    if n == 0 {
      acts := Prepared();
    } else {
      acts := Cycles(n - 1);
      acts := Queues(Boot(), acts, n - 1);
      acts := Flies(Boot(), acts, n - 1);
      acts := Lands(Boot(), acts, n);
    }
  }

  lemma {:induction false} Prepared() returns (acts: seq<Action>)
    ensures Fires(Boot(), acts) && Ready(After(Boot(), acts), 0)
  {
    assert Untouched(Boot());
    Blocks(Boot());
    RunGrows(Boot(), [], BlockDevice("b"));
    acts := [] + [BlockDevice("b")];
    Waits(After(Boot(), acts));
    RunGrows(Boot(), acts, SubmitJob(NORMAL_JOB, 0));
    acts := acts + [SubmitJob(NORMAL_JOB, 0)];
    Starts(After(Boot(), acts));
    RunGrows(Boot(), acts, PromoteTurn(0));
    acts := acts + [PromoteTurn(0)];
  }

  /** Only row 0, the blocked device b, is in use, and all is quiet. */
  ghost predicate OnlyB(s: Sys) {
    && SysShaped(s) && s.pc.Idle? && s.queue == [] && s.owed.None? && s.sched.inflight == 0 && s.sched.highBurst == 0
    && s.sched.devices[0] == Device(true, true, false, "b", -1, 0)
    && (forall d :: 1 <= d < MAX_DEVICES ==> s.sched.devices[d] == ZERO_DEVICE)
    && forall i :: 1 <= i < MAX_JOBS ==> s.sched.slots[i].state.Free?
  }

  /** Nothing has happened yet. */
  ghost predicate Untouched(s: Sys) {
    && SysShaped(s) && s.pc.Idle? && s.queue == [] && s.owed.None? && s.sched.inflight == 0 && s.sched.highBurst == 0
    && (forall d :: 0 <= d < MAX_DEVICES ==> s.sched.devices[d] == ZERO_DEVICE)
    && forall i :: 0 <= i < MAX_JOBS ==> s.sched.slots[i].state.Free?
  }

  /** The blocked device takes the first row of the empty table. */
  lemma {:induction false} Blocks(s: Sys)
    requires Untouched(s)
    ensures var t := Apply(s, BlockDevice("b")); OnlyB(t) && t.sched.slots[0].state.Free?
  {
    FirstIndexUnique(s.sched.devices, RowNamed("b"), -1);
    FirstIndexUnique(s.sched.devices, RowUnused(), 0);
  }

  lemma {:induction false} Waits(s: Sys)
    requires OnlyB(s) && s.sched.slots[0].state.Free?
    ensures var t := Apply(s, SubmitJob(NORMAL_JOB, 0)); var x := t.sched.slots[0];
            OnlyB(t) && x.state.EnqueuePending? && x.device == 0 && x.job == NORMAL_JOB && x.deadline == 0
  {
    FirstIndexUnique(s.sched.devices, RowNamed("b"), 0);
    FirstIndexUnique(s.sched.slots, SlotFree(), 0);
  }

  lemma {:induction false} Starts(s: Sys)
    requires var x := s.sched.slots; OnlyB(s) && x[0].state.EnqueuePending? && x[0].device == 0 && x[0].job == NORMAL_JOB && x[0].deadline == 0
    ensures Ready(Apply(s, PromoteTurn(0)), 0)
  {
    FirstIndexUnique(s.sched.devices, RowNamed("a"), -1);
    FirstIndexUnique(s.sched.devices, RowUnused(), 1);
  }

  /** No job can be chosen, although a HIGH job of an idle, unblocked, unleased device is queued and nothing is in
      flight: the NORMAL job that holds it back waits on a blocked device. */
  ghost predicate Stalled(s: Sys) {
    && SysShaped(s) && s.pc.Idle? && s.sched.inflight == 0 && s.sched.highBurst == HIGH_BURST_MAX
    && Dispatchable(s.sched, 1) && s.sched.slots[1].job.priority == HIGH
    && s.sched.slots[0].state.Queued? && s.sched.slots[0].job.priority == NORMAL && s.sched.slots[0].device == 0 && s.sched.devices[0].blocked
    && DispatchChoice(s.sched) == -1
  }

  /** A run from boot reaches such a state; by StallPersists no HIGH job is sent from there while the NORMAL job stays
      queued. */
  lemma {:induction false} BlockedNormalStallsHigh() returns (acts: seq<Action>)
    ensures Fires(Boot(), acts) && Stalled(After(Boot(), acts))
  {
    acts := Cycles(HIGH_BURST_MAX);
    acts := Queues(Boot(), acts, HIGH_BURST_MAX);
    HeldBack(After(Boot(), acts));
  }

  lemma {:induction false} HeldBack(s: Sys)
    requires Loaded(s, HIGH_BURST_MAX, Queued) && Quiet(s)
    ensures Stalled(s)
  {
    OnlyHigh(s, HIGH_BURST_MAX);
    IdleWithWorkIff(s.sched);
  }
}
