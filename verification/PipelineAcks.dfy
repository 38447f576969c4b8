/** The pipeline end to end: from an accepting ACK on the link to the callback of the job it is for. */
module PipelineAcks {
  import opened Basics
  import opened Search
  import opened Scheduler
  import opened CommandService
  import opened SchedulerInvariant
  import opened Pipeline
  import opened PipelineTraffic
  import opened PipelineJobs
  import opened PipelineRuns
  import H = ServiceHistory

  // ----- the service's event history in a pipeline run that starts in state b

  function EventsOf(s: Sys, a: Action): seq<Event>
    requires SysShaped(s) && Enabled(s, a)
  {
    match a
    case ServeTurn(env) => [SubmitEvent(s.queue[0], env)]
    case UrgentTurn(e) => [e]
    case _ => []
  }

  /** The events the service handled so far. */
  ghost function Handled(b: Sys, acts: seq<Action>): seq<Event>
    requires SysShaped(b) && Fires(b, acts)
  {
    if |acts| == 0 then []
    else
      var m := |acts| - 1;
      RunPrefix(b, acts, m);
      Handled(b, acts[..m]) + EventsOf(After(b, acts[..m]), acts[m])
  }

  ghost function HistoryOf(b: Sys, acts: seq<Action>): H.History
    requires SysShaped(b) && Fires(b, acts)
  {
    H.Run(Handled(b, acts))
  }

  lemma {:induction false} RunAppend(es: seq<Event>, e: Event)
    ensures H.Run(es + [e]) == H.Next(H.Run(es), e)
  {
    assert (es + [e])[..|es|] == es;
  }

  lemma {:induction false} ServiceMoves(s: Sys, x: Action)
    requires SysShaped(s) && Enabled(s, x)
    ensures var es := EventsOf(s, x); Apply(s, x).svc == if es == [] then s.svc else Handle(s.svc, es[0])
  {
  }

  lemma {:induction false} HistoryMoves(s: Sys, x: Action, es: seq<Event>)
    requires SysShaped(s) && Enabled(s, x) && H.Run(es).svc == s.svc
    ensures H.Run(es + EventsOf(s, x)).svc == Apply(s, x).svc
  {
    var more := EventsOf(s, x);
    ServiceMoves(s, x);
    if more == [] {
      assert es + more == es;
    } else {
      assert more == [more[0]];
      RunAppend(es, more[0]);
    }
  }

  lemma {:induction false} LastAction(b: Sys, acts: seq<Action>)
    requires SysShaped(b) && Fires(b, acts) && |acts| > 0
    ensures var m := |acts| - 1;
            && Fires(b, acts[..m]) && Enabled(After(b, acts[..m]), acts[m])
            && After(b, acts) == Apply(After(b, acts[..m]), acts[m])
  {
    var m := |acts| - 1;
    RunPrefix(b, acts, m);
    assert acts[m..] == [acts[m]];
  }

  /** The pending table of a pipeline run is that of its event history. */
  lemma {:induction false} ServiceFollows(b: Sys, acts: seq<Action>)
    requires SysShaped(b) && b.svc == ServiceInitial() && Fires(b, acts)
    ensures HistoryOf(b, acts).svc == After(b, acts).svc
    decreases |acts|
  {
    if |acts| > 0 {
      var m := |acts| - 1;
      LastAction(b, acts);
      ServiceFollows(b, acts[..m]);
      HistoryMoves(After(b, acts[..m]), acts[m], Handled(b, acts[..m]));
    }
  }

  // ----- the ACK behind an OK

  /** Job n is in flight in slot i; its request is pending in entry k, and the ACK names the job's device, its command
      and the id the request was sent under. */
  ghost predicate AwaitsIn(s: Sys, i: nat, k: nat, n: nat, a: Ack) {
    && i < |s.sched.slots| && s.sched.slots[i].state.Inflight? && s.sched.slots[i].id == n
    && s.sched.slots[i].job.request.device == a.device && s.sched.slots[i].job.request.command == a.command
    && k < |s.svc.pending| && s.svc.pending[k].inUse && s.svc.pending[k].ctx == i && s.svc.pending[k].requestId == a.requestId
  }

  /** Entry k was sent for slot i under draw serial[k], and if the ACK answers a request drawn less than 2^32 - 1 draws
      ago, it is that one. */
  ghost predicate OwnDraw(h: H.History, i: nat, k: nat, a: Ack) {
    && k < |h.serial| && h.serial[k] in h.issued && h.issued[h.serial[k]] == H.Wire(a.device, a.command, i)
    && forall m: nat :: H.Answers(h, a, m) && h.draws - m < WORD - 1 ==> m == h.serial[k]
  }

  ghost predicate AwaitsAck(s: Sys, h: H.History, n: nat, a: Ack) {
    exists i: nat, k: nat :: AwaitsIn(s, i, k, n, a) && OwnDraw(h, i, k, a)
  }

  /** Action j of the run handles the accepting ACK that gives job n this result. */
  ghost predicate AckedAt(b: Sys, acts: seq<Action>, j: nat, n: nat, r: CommandResult) {
    && SysShaped(b) && j < |acts| && Fires(b, acts[..j]) && acts[j].UrgentTurn? && acts[j].event.AckEvent?
    && var a := acts[j].event.ack;
       a.accepted && a.requestId == r.requestId && a.requestId != 0 && a.intValue == r.intValue && AwaitsAck(After(b, acts[..j]), HistoryOf(b, acts[..j]), n, a)
  }

  ghost predicate Acked(b: Sys, acts: seq<Action>, n: nat, r: CommandResult) { exists j: nat :: AckedAt(b, acts, j, n, r) }

  /** A step that answers job n with OK handles an accepting ACK for it. */
  lemma {:induction false} StepAcks(s: Sys, x: Action, n: nat) returns (i: nat, k: nat)
    requires Safe(s) && Enabled(s, x)
    requires var t := Apply(s, x); n in t.answered && t.answered[n].status.Ok? && (n !in s.answered || t.answered[n] != s.answered[n])
    ensures x.UrgentTurn? && x.event.AckEvent?
    ensures var a, r := x.event.ack, Apply(s, x).answered[n];
            a.accepted && a.requestId == r.requestId && a.requestId != 0 && a.intValue == r.intValue && AwaitsIn(s, i, k, n, a) && k == Closes(s.svc, x.event)
  {
    ServeNotOk(s, x, n);
    var e := x.event;
    k := Closes(s.svc, e);
    UrgentFields(s, e);
    var p := s.svc.pending[k];
    assert PendingEntryOk(s, k);
    PendingMember(s.svc.pending, k);
    UnansweredOnce(s, p.ctx);
    i := p.ctx;
  }

  lemma {:induction false} AckIsOwn(events: seq<Event>, e: Event, i: nat, k: nat)
    requires e.AckEvent? && e.ack.accepted && e.ack.requestId != 0
    requires var v := H.Run(events).svc; k == Closes(v, e) && v.pending[k].ctx == i
    ensures OwnDraw(H.Run(events), i, k, e.ack)
  {
    var h := H.Run(events);
    H.RunInv(events);
    assert H.SlotRecorded(h, k);
    H.OkOnlyFromMatchingAck(events, e);
    forall m: nat | H.Answers(h, e.ack, m) && h.draws - m < WORD - 1 ensures m == h.serial[k] { H.OkOnlyFromOwnAck(events, e, m); }
  }

  /** Only the events of the service's urgent queue answer OK. */
  lemma {:induction false} ServeNotOk(s: Sys, x: Action, n: nat)
    requires SysShaped(s) && Enabled(s, x)
    requires var t := Apply(s, x); n in t.answered && t.answered[n].status.Ok? && (n !in s.answered || t.answered[n] != s.answered[n])
    ensures x.UrgentTurn? && x.event.AckEvent? && x.event.ack.accepted && Closes(s.svc, x.event) >= 0
  {
  }

  lemma {:induction false} AckedLonger(b: Sys, acts: seq<Action>, longer: seq<Action>, j: nat, n: nat, r: CommandResult)
    requires acts <= longer && AckedAt(b, acts, j, n, r)
    ensures AckedAt(b, longer, j, n, r)
  {
    assert longer[..j] == acts[..j] && longer[j] == acts[j];
  }

  lemma {:induction false} AckedGrows(b: Sys, acts: seq<Action>, m: nat, n: nat, r: CommandResult)
    requires m <= |acts| && Acked(b, acts[..m], n, r)
    ensures Acked(b, acts, n, r)
  {
    var j: nat :| AckedAt(b, acts[..m], j, n, r);
    AckedLonger(b, acts[..m], acts, j, n, r);
  }

  /** Job n has this answer. */
  ghost predicate HasAnswer(s: Sys, n: nat, r: CommandResult) { n in s.answered && s.answered[n] == r }

  /** The last action of a run gives job n its OK. */
  lemma {:induction false} LastAcks(b: Sys, acts: seq<Action>, n: nat, r: CommandResult)
    requires b == Boot() && Fires(b, acts) && |acts| > 0 && Fires(b, acts[..|acts| - 1])
    requires HasAnswer(After(b, acts), n, r) && r.status.Ok? && !HasAnswer(After(b, acts[..|acts| - 1]), n, r)
    ensures Acked(b, acts, n, r)
  {
    var before, x := acts[..|acts| - 1], acts[|acts| - 1];
    LastAction(b, acts);
    BootSafe();
    RunSafe(b, before);
    var i, k := StepAcks(After(b, before), x, n);
    ServiceFollows(b, before);
    AckIsOwn(Handled(b, before), x.event, i, k);
    assert AwaitsAck(After(b, before), HistoryOf(b, before), n, x.event.ack);
    assert AckedAt(b, acts, |before|, n, r);
  }

  lemma {:induction false} AnswersAcked(b: Sys, acts: seq<Action>, n: nat, r: CommandResult)
    requires b == Boot() && Fires(b, acts) && HasAnswer(After(b, acts), n, r) && r.status.Ok?
    ensures Acked(b, acts, n, r)
    decreases |acts|
  {
    if |acts| > 0 {
      var m := |acts| - 1;
      RunPrefix(b, acts, m);
      if HasAnswer(After(b, acts[..m]), n, r) {
        AnswersAcked(b, acts[..m], n, r);
        AckedGrows(b, acts, m, n, r);
      } else {
        LastAcks(b, acts, n, r);
      }
    }
  }

  /** In every run a callback reports OK only if an accepting ACK with that job's device, command and request id was
      handled while the job was in flight; and if that ACK answers a request drawn less than 2^32 - 1 draws before, it
      answers the request that was sent for this very job. */
  lemma {:induction false} OkCallbackHasItsAck(acts: seq<Action>, k: nat)
    requires Fires(Boot(), acts) && k < |After(Boot(), acts).called|
    requires After(Boot(), acts).called[k].terminal.Command? && After(Boot(), acts).called[k].result.status.Ok?
    ensures Acked(Boot(), acts, After(Boot(), acts).called[k].id, After(Boot(), acts).called[k].result)
  {
    OutcomesAreRouted(acts, k);
    AnswersAcked(Boot(), acts, After(Boot(), acts).called[k].id, After(Boot(), acts).called[k].result);
  }
}
