/** What the command service answers, said on the fields of the pending table: an ACK, a lost link, a cancel
    and a timeout each answer the request they name and no other, and a submit is refused or sent. */
module ServiceAnswers {
  import opened Basics
  import opened Search
  import opened Scheduler
  import opened CommandService
  import opened ServiceHistory

  ghost function Table(events: seq<Event>): seq<Pending> { Run(events).svc.pending }

  /** Slot k holds a request. */
  ghost predicate Waits(events: seq<Event>, k: nat) { k < MAX_PENDING && Table(events)[k].inUse }

  /** u is v with slot k emptied and nothing else changed. */
  ghost predicate OnlyEmptied(v: Service, u: Service, k: nat) {
    && |u.pending| == |v.pending| && k < |v.pending| && u.nextId == v.nextId && !u.pending[k].inUse
    && forall i :: 0 <= i < |v.pending| && i != k ==> u.pending[i] == v.pending[i]
  }

  /** Device, request id and command of an ACK are those of slot k. */
  ghost predicate AckNames(events: seq<Event>, a: Ack, k: nat) {
    && Waits(events, k) && a.requestId != 0
    && a.device == Table(events)[k].device && a.requestId == Table(events)[k].requestId && a.command == Table(events)[k].command
  }

  /** No other request waits for the device. */
  lemma {:induction false} AloneOnDevice(events: seq<Event>, k: nat)
    requires Waits(events, k)
    ensures FirstIndex(Table(events), OnDevice(Table(events)[k].device)) == k
    ensures FirstIndex(Table(events), OnId(Table(events)[k].device, Table(events)[k].requestId)) == k
  {
    var t := Table(events);
    forall j: nat | j < MAX_PENDING && j != k && t[j].inUse ensures t[j].device != t[k].device {
      if j < k { PendingTableUnique(events, j, k); } else { PendingTableUnique(events, k, j); }
    }
    FirstIndexUnique(t, OnDevice(t[k].device), k);
    FirstIndexUnique(t, OnId(t[k].device, t[k].requestId), k);
  }

  /** In every run an ACK that names a pending request answers its caller OK, with the id and the ACK's integer value,
      if and only if the device accepted, and REJECTED otherwise; the request leaves the table and nothing else moves. */
  lemma {:induction false} AckAnswersIff(events: seq<Event>, a: Ack, k: nat)
    requires AckNames(events, a, k)
    ensures var v, p := Run(events).svc, Table(events)[k];
            && (AnswerOf(v, AckEvent(a)) == Some(Answer(p.ctx, CommandResult(Ok, p.requestId, a.intValue))) <==> a.accepted)
            && (AnswerOf(v, AckEvent(a)) == Some(Answer(p.ctx, CommandResult(Rejected, p.requestId, None))) <==> !a.accepted)
            && OnlyEmptied(v, Handle(v, AckEvent(a)), k)
  {
    AloneOnDevice(events, k);
  }

  /** An ACK that names no pending request answers nobody and changes nothing. */
  lemma {:induction false} OtherAcksIgnored(events: seq<Event>, a: Ack)
    requires forall k: nat :: !AckNames(events, a, k)
    ensures AnswerOf(Run(events).svc, AckEvent(a)).None? && Handle(Run(events).svc, AckEvent(a)) == Run(events).svc
  {
    var k := FirstIndex(Table(events), OnId(a.device, a.requestId));
    if k >= 0 { assert !AckNames(events, a, k); }
  }

  /** A lost link answers NOT_CONNECTED and a cancel CANCELLED, each to the device's one pending request. */
  lemma {:induction false} DropAnswers(events: seq<Event>, k: nat)
    requires Waits(events, k)
    ensures var v, p := Run(events).svc, Table(events)[k];
            && AnswerOf(v, DisconnectEvent(p.device)) == Some(Answer(p.ctx, CommandResult(NotConnected, p.requestId, None)))
            && AnswerOf(v, CancelEvent(p.device)) == Some(Answer(p.ctx, CommandResult(Cancelled, p.requestId, None)))
            && OnlyEmptied(v, Handle(v, DisconnectEvent(p.device)), k) && OnlyEmptied(v, Handle(v, CancelEvent(p.device)), k)
  {
    AloneOnDevice(events, k);
  }

  /** Both leave a device without a pending request alone. */
  lemma {:induction false} OtherDropsIgnored(events: seq<Event>, device: string)
    requires forall k: nat :: Waits(events, k) ==> Table(events)[k].device != device
    ensures var v := Run(events).svc;
            && AnswerOf(v, DisconnectEvent(device)).None? && Handle(v, DisconnectEvent(device)) == v
            && AnswerOf(v, CancelEvent(device)).None? && Handle(v, CancelEvent(device)) == v
  {
    forall k | 0 <= k < MAX_PENDING ensures !OnDevice(device)(Table(events)[k]) {
      if Table(events)[k].inUse { assert Waits(events, k); }
    }
    FirstIndexUnique(Table(events), OnDevice(device), -1);
  }

  /** A timeout answers TIMEOUT to the request of its slot. */
  lemma {:induction false} TimeoutAnswersSlot(events: seq<Event>, k: nat)
    requires Waits(events, k)
    ensures var v, p := Run(events).svc, Table(events)[k];
            && AnswerOf(v, TimeoutEvent(k)) == Some(Answer(p.ctx, CommandResult(Timeout, p.requestId, None)))
            && OnlyEmptied(v, Handle(v, TimeoutEvent(k)), k)
  {
  }

  /** The service has answered the caller at once, with this status and no id drawn, and kept its state. */
  ghost predicate Refused(v: Service, q: Submission, env: Env, why: Status) {
    && ServiceShaped(v) && Handle(v, SubmitEvent(q, env)) == v
    && AnswerOf(v, SubmitEvent(q, env)) == Some(Answer(q.ctx, CommandResult(why, 0, None)))
  }

  /** A submit is refused by validation, then by the link, then by a request pending on the device, then by a full table. */
  lemma {:induction false} RefusalOrder(events: seq<Event>, q: Submission, env: Env)
    ensures var v := Run(events).svc; var t := v.pending;
            && (!env.validation.Ok? ==> Refused(v, q, env, env.validation))
            && (env.validation.Ok? && !env.connected ==> Refused(v, q, env, NotConnected))
            && (env.validation.Ok? && env.connected && (exists k :: 0 <= k < |t| && t[k].inUse && t[k].device == q.request.device) ==>
                  Refused(v, q, env, Busy))
            && (env.validation.Ok? && env.connected && (forall k :: 0 <= k < |t| ==> t[k].inUse && t[k].device != q.request.device) ==>
                  Refused(v, q, env, QueueFull))
  {
  }

  /** Nothing refuses the submit. */
  ghost predicate Sendable(events: seq<Event>, q: Submission, env: Env) {
    && env.validation.Ok? && env.connected
    && (forall k :: 0 <= k < MAX_PENDING && Table(events)[k].inUse ==> Table(events)[k].device != q.request.device)
    && (exists k :: 0 <= k < MAX_PENDING && !Table(events)[k].inUse)
  }

  /** A submit nothing refuses draws a non-zero id no pending request has. If the send succeeds nobody is answered and one
      empty slot takes the request with a deadline two seconds ahead; if it fails the caller is answered TRANSPORT_ERROR
      under that id and the table stays as it was. */
  lemma {:induction false} SubmitSends(events: seq<Event>, q: Submission, env: Env) returns (k: nat)
    requires Sendable(events, q, env)
    ensures k < MAX_PENDING && !Table(events)[k].inUse
    ensures var v, e := Run(events).svc, SubmitEvent(q, env); var u := Handle(v, e);
            && 1 <= u.nextId < WORD && (forall i :: 0 <= i < MAX_PENDING && v.pending[i].inUse ==> v.pending[i].requestId != u.nextId)
            && (env.sendOk ==>
                  && AnswerOf(v, e).None? && |u.pending| == MAX_PENDING
                  && u.pending[k] == Pending(true, u.nextId, q.request.device, q.request.command, q.ctx, env.now + 2_000_000)
                  && forall i :: 0 <= i < MAX_PENDING && i != k ==> u.pending[i] == v.pending[i])
            && (!env.sendOk ==> u.pending == v.pending
                                && AnswerOf(v, e) == Some(Answer(q.ctx, CommandResult(TransportError, u.nextId, None))))
  {
    var v := Run(events).svc;
    var r := FirstIndex(v.pending, Vacant());
    var w :| 0 <= w < MAX_PENDING && !v.pending[w].inUse;
    assert r >= 0 && !OnDevice(q.request.device)(v.pending[r]);
    k := r;
    forall i | 0 <= i < MAX_PENDING && v.pending[i].inUse ensures v.pending[i].requestId in UsedIds(v.pending) {}
    assert FirstIndex(v.pending, OnDevice(q.request.device)) == -1;
  }

  /** A pass at time `now` empties exactly the slots whose deadline is not after it. */
  lemma {:induction false} PassEmptiesDue(v: Service, now: int, i: nat)
    requires ServiceShaped(v) && i < MAX_PENDING && v.pending[i].inUse
    ensures var u := SettleAll(v, Timeouts(v.pending, now));
            && |u.pending| == MAX_PENDING
            && (v.pending[i].deadline <= now ==> !u.pending[i].inUse)
            && (v.pending[i].deadline > now ==> u.pending[i] == v.pending[i])
  {
    TimeoutPass(v, now, MAX_PENDING);
    assert v.pending[..MAX_PENDING] == v.pending;
  }

  /** A request sent at env.now is still waiting after a pass at `now` if and only if less than two seconds went by. */
  lemma {:induction false} WaitsTwoSeconds(events: seq<Event>, q: Submission, env: Env, now: int)
    requires Sendable(events, q, env) && env.sendOk
    ensures var u := Handle(Run(events).svc, SubmitEvent(q, env));
            (exists i :: 0 <= i < MAX_PENDING && SettleAll(u, Timeouts(u.pending, now)).pending[i] == u.pending[i]
                         && u.pending[i].inUse && u.pending[i].requestId == u.nextId) <==> now < env.now + 2_000_000
  {
    var u := Handle(Run(events).svc, SubmitEvent(q, env));
    var k := SubmitSends(events, q, env);
    PassEmptiesDue(u, now, k);
    forall i | 0 <= i < MAX_PENDING && u.pending[i].inUse && u.pending[i].requestId == u.nextId ensures i == k {
      if i != k { assert false; }
    }
  }
}
