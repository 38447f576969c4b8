/** Waiting in the dispatcher: round robin bounds how long a device waits, the burst cap bounds how many
    HIGH jobs pass a queued NORMAL job, and the cap is exactly when the dispatcher idles with work at hand. */
module Fairness {
  import opened Search
  import opened Scheduler
  import opened CommandService
  import opened Pipeline
  import opened PipelineRuns

  /** Action a, taken in s, puts a job in flight. */
  ghost predicate Sends(s: Sys, a: Action)
    requires SysShaped(s)
  {
    a.DispatchTurn? && DispatchChoice(s.sched) >= 0
  }

  ghost function SentRow(s: Sys): nat
    requires SysShaped(s) && DispatchChoice(s.sched) >= 0
  {
    s.sched.slots[DispatchChoice(s.sched)].device
  }

  ghost function SentPriority(s: Sys): nat
    requires SysShaped(s) && DispatchChoice(s.sched) >= 0
  {
    s.sched.slots[DispatchChoice(s.sched)].job.priority
  }

  /** Row d has an eligible job of the best priority among eligible jobs. */
  ghost predicate InFront(s: Sched, d: nat) {
    exists i: nat :: Eligible(s, i) && s.slots[i].device == d
                     && forall j: nat :: Eligible(s, j) ==> s.slots[i].job.priority <= s.slots[j].job.priority
  }

  /** Only dispatching moves the round-robin cursor and the burst counter. */
  lemma {:induction false} OthersKeep(s: Sys, a: Action)
    requires SysShaped(s) && Enabled(s, a) && !Sends(s, a)
    ensures SameCursor(s.sched, Apply(s, a).sched)
  {
    match a
    case SubmitJob(job, now) => SubmitKeepsCursor(s.sched, job, now);
    case CancelJobs(key) => CancelKeepsCursor(s.sched, key);
    case AcquireLease(q) => AcquireKeepsCursor(s.sched, q);
    case _ =>
  }

  ghost predicate SameCursor(a: Sched, b: Sched) { b.rr == a.rr && b.highBurst == a.highBurst }

  lemma {:induction false} SubmitKeepsCursor(s: Sched, job: Job, now: int)
    requires Shaped(s)
    ensures SameCursor(s, Submit(s, job, now))
  {
  }

  lemma {:induction false} CancelKeepsCursor(s: Sched, key: CancelKey)
    requires Shaped(s)
    ensures SameCursor(s, Cancel(s, key))
  {
  }

  lemma {:induction false} AcquireKeepsCursor(s: Sched, q: LeaseRequest)
    requires Shaped(s)
    ensures SameCursor(s, Acquire(s, q))
  {
  }

  /** The ranking step: passing over a row in front brings the cursor strictly closer to it. */
  lemma {:induction false} CursorCloser(s: Sched, d: nat)
    requires Shaped(s) && d < MAX_DEVICES && InFront(s, d)
    requires DispatchChoice(s) >= 0 && s.slots[DispatchChoice(s)].device != d
    ensures Offset(Dispatch(s).rr, d) < Offset(s.rr, d)
  {
    var r := DispatchChoice(s);
    var i: nat :| Eligible(s, i) && s.slots[i].device == d
                  && forall j: nat :: Eligible(s, j) ==> s.slots[i].job.priority <= s.slots[j].job.priority;
    assert Before(s, r, i);
  }

  ghost function Dispatches(s: Sys, acts: seq<Action>): nat
    requires SysShaped(s) && Fires(s, acts)
    decreases |acts|
  {
    if |acts| == 0 then 0 else (if Sends(s, acts[0]) then 1 else 0) + Dispatches(Apply(s, acts[0]), acts[1..])
  }

  /** At every dispatch of the run row d is in front and another row is served. */
  ghost predicate PassedOver(s: Sys, acts: seq<Action>, d: nat)
    requires SysShaped(s) && Fires(s, acts)
    decreases |acts|
  {
    |acts| == 0 || ((Sends(s, acts[0]) ==> InFront(s.sched, d) && SentRow(s) != d)
                    && PassedOver(Apply(s, acts[0]), acts[1..], d))
  }

  /** Round robin: while row d is in front, any run with sixteen dispatches serves it, whatever else happens between. */
  lemma {:induction false} RoundRobinBound(s: Sys, acts: seq<Action>, d: nat)
    requires SysShaped(s) && Fires(s, acts) && d < MAX_DEVICES && PassedOver(s, acts, d)
    ensures Dispatches(s, acts) <= Offset(s.sched.rr, d) < MAX_DEVICES
    decreases |acts|
  {
    if |acts| > 0 {
      RoundRobinBound(Apply(s, acts[0]), acts[1..], d);
      if Sends(s, acts[0]) {
        CursorCloser(s.sched, d);
      } else {
        OthersKeep(s, acts[0]);
      }
    }
  }

  ghost function HighDispatches(s: Sys, acts: seq<Action>): nat
    requires SysShaped(s) && Fires(s, acts)
    decreases |acts|
  {
    if |acts| == 0 then 0
    else (if Sends(s, acts[0]) && SentPriority(s) == HIGH then 1 else 0) + HighDispatches(Apply(s, acts[0]), acts[1..])
  }

  /** At every dispatch of the run some NORMAL job is queued, and none is sent. */
  ghost predicate NormalPassedOver(s: Sys, acts: seq<Action>)
    requires SysShaped(s) && Fires(s, acts)
    decreases |acts|
  {
    |acts| == 0 || ((Sends(s, acts[0]) ==> NormalQueued(s.sched) && SentPriority(s) != NORMAL)
                    && NormalPassedOver(Apply(s, acts[0]), acts[1..]))
  }

  /** The burst cap: at most eight HIGH jobs pass a queued NORMAL job, less what the burst counter already shows. */
  lemma {:induction false} HighBurstBound(s: Sys, acts: seq<Action>)
    requires SysShaped(s) && Fires(s, acts) && NormalPassedOver(s, acts)
    ensures HighDispatches(s, acts) <= if s.sched.highBurst < HIGH_BURST_MAX then HIGH_BURST_MAX - s.sched.highBurst else 0
    decreases |acts|
  {
    if |acts| > 0 {
      HighBurstBound(Apply(s, acts[0]), acts[1..]);
      if !Sends(s, acts[0]) {
        OthersKeep(s, acts[0]);
      }
    }
  }

  /** Work conservation fails exactly under the cap: the scan finds nothing although some job could be sent
      if and only if HIGH is held back and every job that could be sent is HIGH. */
  lemma {:induction false} IdleWithWorkIff(s: Sched)
    requires Shaped(s)
    ensures (Selected(s) == -1 && exists i: nat :: Dispatchable(s, i)) <==>
            (HighHeld(s) && (exists i: nat :: Dispatchable(s, i))
             && forall i: nat :: Dispatchable(s, i) ==> s.slots[i].job.priority == HIGH)
  {
    if HighHeld(s) && forall i: nat :: Dispatchable(s, i) ==> s.slots[i].job.priority == HIGH {
      assert forall i: nat :: !Eligible(s, i);
    }
    if Selected(s) == -1 {
      assert forall i: nat :: Dispatchable(s, i) ==> i < |s.slots| && !Eligible(s, i);
    }
  }

  /** Once the burst cap is reached, no HIGH job is sent in any continuation in which a NORMAL job is queued at every
      dispatch and none is sent. */
  lemma {:induction false} StallPersists(s: Sys, acts: seq<Action>)
    requires SysShaped(s) && Fires(s, acts) && NormalPassedOver(s, acts) && s.sched.highBurst >= HIGH_BURST_MAX
    ensures HighDispatches(s, acts) == 0
  {
    HighBurstBound(s, acts);
  }
}
