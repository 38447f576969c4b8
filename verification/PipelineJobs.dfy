/** Every accepted job is either still in a slot or was called back once, and a callback that reports
    a command outcome carries exactly what the service answered for that job. */
module PipelineJobs {
  import opened Basics
  import opened Search
  import opened Scheduler
  import opened CommandService
  import opened SchedulerInvariant
  import opened Pipeline
  import opened PipelineTraffic

  /** Slot i holds a job whose callback has not been made. */
  ghost predicate Live(s: Sys, i: nat) {
    i < |s.sched.slots| && !s.sched.slots[i].state.Free? && s.pc != Called(i)
  }

  ghost predicate WasCalled(s: Sys, n: nat) { exists k :: 0 <= k < |s.called| && s.called[k].id == n }
  ghost predicate IsLive(s: Sys, n: nat) { exists i: nat :: Live(s, i) && s.sched.slots[i].id == n }

  /** A slot being completed is finished, and its row no longer points at it. */
  ghost predicate Finishing(s: Sched, i: nat) {
    && i < |s.slots| && (s.slots[i].state.Completing? || s.slots[i].state.CompletionPending?)
    && s.slots[i].device < |s.devices| && s.devices[s.slots[i].device].inflightSlot != i
  }

  ghost predicate PcOk(s: Sys) {
    && (s.pc.Calling? ==> Finishing(s.sched, s.pc.slot) && s.pc.cb.id == s.sched.slots[s.pc.slot].id)
    && (s.pc.Called? ==> Finishing(s.sched, s.pc.slot))
    && forall i :: 0 <= i < |s.sched.slots| && s.sched.slots[i].state.Completing? ==>
         (s.pc.Calling? || s.pc.Called?) && s.pc.slot == i
  }

  ghost predicate Jobs(s: Sys) {
    && PcOk(s)
    && (forall n :: n in s.accepted ==> n <= s.sched.nextJob && (WasCalled(s, n) || IsLive(s, n)))
    && (forall k :: 0 <= k < |s.called| ==> s.called[k].id in s.accepted)
    && (forall i: nat :: Live(s, i) ==> s.sched.slots[i].id in s.accepted)
    && (forall k, m :: 0 <= k < m < |s.called| ==> s.called[k].id != s.called[m].id)
    && (forall k, i: nat :: 0 <= k < |s.called| && Live(s, i) ==> s.called[k].id != s.sched.slots[i].id)
  }

  /** Slots may finish, but none is filled, emptied or renumbered. */
  ghost predicate SameJobs(a: Sched, b: Sched) {
    && |a.slots| == |b.slots| && b.nextJob == a.nextJob
    && forall i :: 0 <= i < |a.slots| ==> b.slots[i].id == a.slots[i].id && b.slots[i].state.Free? == a.slots[i].state.Free?
  }

  lemma {:induction false} JobsKept(s: Sys, t: Sys)
    requires Jobs(s) && SameJobs(s.sched, t.sched) && t.accepted == s.accepted && t.called == s.called && PcOk(t)
    requires s.pc.Called? || t.pc.Called? ==> t.pc == s.pc
    ensures Jobs(t)
  {
    forall i: nat ensures Live(t, i) == Live(s, i) {}
    forall n | n in t.accepted ensures WasCalled(t, n) || IsLive(t, n) {
      if WasCalled(s, n) {
        var k :| 0 <= k < |s.called| && s.called[k].id == n;
        assert t.called[k].id == n;
      } else {
        var i: nat :| Live(s, i) && s.sched.slots[i].id == n;
        assert Live(t, i);
      }
    }
  }

  ghost predicate SubmitLeaves(x: Slot, y: Slot) {
    y == x || (x.state.Queued? && y == x.(terminal := Superseded, state := CompletionPending))
  }

  /** Slot k was filled with a new job and the rest were left alone or superseded. */
  ghost predicate FilledAt(s: Sched, t: Sched, k: nat)
    requires Shaped(s) && Shaped(t)
  {
    && k < MAX_JOBS && s.slots[k].state.Free? && t.slots[k].state.EnqueuePending? && t.slots[k].id == t.nextJob
    && forall i :: 0 <= i < MAX_JOBS && i != k ==> SubmitLeaves(s.slots[i], t.slots[i])
  }

  lemma {:induction false} SubmitSlots(s: Sched, job: Job, now: int)
    requires Shaped(s)
    ensures var t := Submit(s, job, now);
            && Shaped(t)
            && (forall d :: 0 <= d < MAX_DEVICES ==> t.devices[d].inflightSlot in {s.devices[d].inflightSlot, -1})
            && (if SubmitResultOf(s, job).Accepted? then
                  && SubmitResultOf(s, job).id == t.nextJob == s.nextJob + 1
                  && FilledAt(s, t, FirstIndex(DedupePass(s.slots, job), SlotFree()))
                else t.nextJob == s.nextJob && forall i :: 0 <= i < MAX_JOBS ==> SubmitLeaves(s.slots[i], t.slots[i]))
  {
  }

  lemma {:induction false} SubmitPc(s: Sys, t: Sys)
    requires Jobs(s) && SysShaped(s) && SysShaped(t) && t.pc == s.pc
    requires forall d :: 0 <= d < MAX_DEVICES ==> t.sched.devices[d].inflightSlot in {s.sched.devices[d].inflightSlot, -1}
    requires forall i :: 0 <= i < MAX_JOBS ==> SubmitLeaves(s.sched.slots[i], t.sched.slots[i])
                                               || (s.sched.slots[i].state.Free? && t.sched.slots[i].state.EnqueuePending?)
    ensures PcOk(t)
  {
    if s.pc.Calling? || s.pc.Called? {
      var i := s.pc.slot;
      assert t.sched.slots[i] == s.sched.slots[i];
    }
  }

  /** An accepted submit adds one live job under a new id; a refused one adds none. */
  lemma {:induction false} SubmitJobs(s: Sys, job: Job, now: int)
    requires Jobs(s) && SysShaped(s)
    ensures Jobs(Apply(s, SubmitJob(job, now)))
  {
    var t := Apply(s, SubmitJob(job, now));
    SubmitSlots(s.sched, job, now);
    SubmitPc(s, t);
    if SubmitResultOf(s.sched, job).Accepted? {
      SubmittedLive(s, t, FirstIndex(DedupePass(s.sched.slots, job), SlotFree()));
    } else {
      JobsKept(s, t);
    }
  }

  lemma {:induction false} SubmittedLive(s: Sys, t: Sys, k: nat)
    requires Jobs(s) && SysShaped(s) && SysShaped(t) && PcOk(t) && FilledAt(s.sched, t.sched, k)
    requires t.called == s.called && t.pc == s.pc && t.sched.nextJob == s.sched.nextJob + 1
    requires t.accepted == s.accepted + {t.sched.nextJob}
    ensures Jobs(t)
  {
    assert Live(t, k) by { assert PcOk(s); }
    forall i: nat | i != k ensures Live(t, i) == Live(s, i) && (Live(s, i) ==> t.sched.slots[i].id == s.sched.slots[i].id) {}
    forall n | n in t.accepted ensures WasCalled(t, n) || IsLive(t, n) {
      if n != t.sched.nextJob {
        if WasCalled(s, n) {
          var m :| 0 <= m < |s.called| && s.called[m].id == n;
          assert t.called[m].id == n;
        } else {
          var i: nat :| Live(s, i) && s.sched.slots[i].id == n;
          assert Live(t, i);
        }
      }
    }
  }

  /** The callback moves the job from live to called. */
  lemma {:induction false} CallJobs(s: Sys)
    requires Jobs(s) && SysShaped(s) && Inv(s.sched) && s.pc.Calling?
    ensures Jobs(Apply(s, CallTurn))
  {
    var t := Apply(s, CallTurn);
    var c := s.pc.slot;
    assert Live(s, c);
    assert t.called[|s.called|] == s.pc.cb;
    assert forall k :: 0 <= k < |s.called| ==> t.called[k] == s.called[k];
    forall i: nat | Live(t, i) ensures Live(s, i) && s.sched.slots[i].id != s.pc.cb.id {}
    forall n | n in t.accepted ensures WasCalled(t, n) || IsLive(t, n) {
      if WasCalled(s, n) {
        var k :| 0 <= k < |s.called| && s.called[k].id == n;
        assert t.called[k].id == n;
      } else {
        var i: nat :| Live(s, i) && s.sched.slots[i].id == n;
        if i != c { assert Live(t, i); }
      }
    }
  }

  /** Wiping the slot loses nothing, whatever a cancel did to it meanwhile. */
  lemma {:induction false} FreeJobs(s: Sys)
    requires Jobs(s) && SysShaped(s) && s.pc.Called?
    ensures Jobs(Apply(s, FreeTurn))
  {
    var t := Apply(s, FreeTurn);
    forall i: nat ensures Live(t, i) == Live(s, i) {}
    forall n | n in t.accepted ensures WasCalled(t, n) || IsLive(t, n) {
      if WasCalled(s, n) {
        var k :| 0 <= k < |s.called| && s.called[k].id == n;
        assert t.called[k].id == n;
      } else {
        var i: nat :| Live(s, i) && s.sched.slots[i].id == n;
        assert Live(t, i);
      }
    }
  }

  // ----- routing of answers

  ghost predicate CallbackOk(answered: map<nat, CommandResult>, cb: Callback) {
    cb.terminal.Command? ==> cb.id in answered && cb.result == answered[cb.id]
  }

  ghost predicate AnswerOk(s: Sys, i: nat) {
    i < |s.sched.slots| ==>
      var x := s.sched.slots[i];
      && (x.state.EnqueuePending? || x.state.Queued? ==> x.id !in s.answered)
      && (x.state.Inflight? && !(s.owed.Some? && s.owed.value.ctx == i) ==> x.id !in s.answered)
      && (s.owed.Some? && s.owed.value.ctx == i ==> x.id in s.answered && s.answered[x.id] == s.owed.value.result)
      && ((x.state.CompletionPending? || x.state.Completing?) && x.terminal.Command? ==>
            x.id in s.answered && x.result == s.answered[x.id])
  }

  ghost predicate Answers(s: Sys) {
    && (forall i: nat :: AnswerOk(s, i))
    && (forall k :: 0 <= k < |s.called| ==> CallbackOk(s.answered, s.called[k]))
    && (s.pc.Calling? ==> CallbackOk(s.answered, s.pc.cb))
    && (forall n :: n in s.answered ==> n <= s.sched.nextJob
                                        && !s.answered[n].status.Busy? && !s.answered[n].status.QueueFull?)
  }

  /** Slots keep the answer they hold, lose the COMMAND terminal, or are new or empty. */
  ghost predicate SlotCarries(s: Sched, x: Slot, y: Slot) {
    || y == x || y.state.Free?
    || (y.state.EnqueuePending? && y.id == s.nextJob + 1)
    || (y.id == x.id && x.state.EnqueuePending? && y.state.Queued?)
    || (y.id == x.id && (y.state.CompletionPending? || y.state.Completing?) && !x.state.Inflight?
        && (y.terminal.Command? ==> (x.state.CompletionPending? || x.state.Completing?) && x.terminal.Command? && y.result == x.result))
  }

  lemma {:induction false} AnswersKept(s: Sys, t: Sys)
    requires Answers(s) && Traffic(s) && Shaped(t.sched) && t.sched.nextJob >= s.sched.nextJob
    requires t.owed == s.owed && t.answered == s.answered && t.called == s.called
    requires forall i :: 0 <= i < MAX_JOBS ==> SlotCarries(s.sched, s.sched.slots[i], t.sched.slots[i])
    requires s.owed.Some? ==> s.owed.value.ctx < MAX_JOBS && t.sched.slots[s.owed.value.ctx] == s.sched.slots[s.owed.value.ctx]
    requires t.pc.Calling? ==> CallbackOk(t.answered, t.pc.cb)
    ensures Answers(t)
  {
    forall i: nat ensures AnswerOk(t, i) { assert AnswerOk(s, i); }
  }

  /** Dispatching leaves the job unanswered. */
  lemma {:induction false} DispatchAnswers(s: Sys)
    requires Answers(s) && Traffic(s) && s.pc.Idle?
    ensures Answers(Apply(s, DispatchTurn))
  {
    var t := Apply(s, DispatchTurn);
    forall i: nat ensures AnswerOk(t, i) { assert AnswerOk(s, i); }
  }

  /** A new answer is the first for its job. */
  lemma {:induction false} OweAnswers(s: Sys, t: Sys, c: nat, r: CommandResult)
    requires Answers(s) && Traffic(s) && s.owed.None? && c < MAX_JOBS && s.sched.slots[c].state.Inflight?
    requires t.sched == s.sched && t.owed == Some(Answer(c, r)) && t.called == s.called && t.pc == s.pc
    requires t.answered == s.answered[s.sched.slots[c].id := r] && !r.status.Busy? && !r.status.QueueFull?
    ensures Answers(t)
  {
    var id := s.sched.slots[c].id;
    assert AnswerOk(s, c) && SlotOk(s.sched, c);
    forall i: nat ensures AnswerOk(t, i) {
      assert AnswerOk(s, i);
      if i < MAX_JOBS && i != c && !s.sched.slots[i].state.Free? { assert s.sched.slots[i].id != id; }
    }
  }

  lemma {:induction false} DeliverAnswers(s: Sys)
    requires Answers(s) && Traffic(s) && s.owed.Some?
    ensures Answers(Apply(s, DeliverTurn))
  {
    var t := Apply(s, DeliverTurn);
    DeliverOpen(s);
    ServiceCompleteInv(s.sched, s.owed.value.ctx, s.owed.value.result);
    forall i: nat ensures AnswerOk(t, i) { assert AnswerOk(s, i); }
  }
}
