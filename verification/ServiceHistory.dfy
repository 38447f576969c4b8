/** Whole runs of the command service with the serial number of every id draw kept beside the table,
    so that "this ACK answers that request" can be said of requests whose 32-bit ids may repeat. */
module ServiceHistory {
  import opened Basics
  import opened Search
  import opened Scheduler
  import opened CommandService

  datatype Wire = Wire(device: string, command: string, ctx: nat)

  /** `draws` counts ids drawn since start; `serial[i]` is the draw that numbered pending slot i;
      `issued` maps a draw to the request sent under it. */
  datatype History = History(svc: Service, draws: nat, serial: seq<nat>, issued: map<nat, Wire>)

  function Start(): History { History(ServiceInitial(), 0, Repeat(MAX_PENDING, 0), map[]) }

  /** The request id of the n-th draw. */
  function IdOf(n: nat): nat { if n == 0 then 0 else Candidate(0, n) }

  predicate Sent(v: Service, e: Event) { e.SubmitEvent? && Refusal(v, e.sub, e.env).None? }

  predicate HistoryShaped(h: History) { ServiceShaped(h.svc) && |h.serial| == MAX_PENDING }

  function Next(h: History, e: Event): (r: History)
    requires HistoryShaped(h)
    ensures HistoryShaped(r)
  {
    var t := h.(svc := Handle(h.svc, e));
    if !Sent(h.svc, e) then t
    else
      var n := h.draws + Draws(h.svc);
      var u := t.(draws := n, issued := h.issued[n := Wire(e.sub.request.device, e.sub.request.command, e.sub.ctx)]);
      if e.env.sendOk then u.(serial := h.serial[FirstIndex(h.svc.pending, Vacant()) := n]) else u
  }

  /** A pending slot agrees with the request sent under its serial number. */
  ghost predicate SlotRecorded(h: History, i: nat)
    requires i < |h.svc.pending| && i < |h.serial|
  {
    var p := h.svc.pending[i];
    p.inUse ==> && 1 <= h.serial[i] <= h.draws && p.requestId == IdOf(h.serial[i])
                && h.serial[i] in h.issued && h.issued[h.serial[i]] == Wire(p.device, p.command, p.ctx)
  }

  ghost predicate Inv(h: History) {
    && HistoryShaped(h)
    && h.svc.nextId == IdOf(h.draws)
    && (forall i :: 0 <= i < MAX_PENDING ==> SlotRecorded(h, i))
    && (forall n :: n in h.issued ==> 1 <= n <= h.draws)
    // ids and devices are unique in the table
    && (forall i, j :: 0 <= i < j < MAX_PENDING && h.svc.pending[i].inUse && h.svc.pending[j].inUse ==>
          && h.svc.pending[i].requestId != h.svc.pending[j].requestId
          && h.svc.pending[i].device != h.svc.pending[j].device)
    // nothing sent after a pending request shares its id
    && (forall i, n :: 0 <= i < MAX_PENDING && h.svc.pending[i].inUse && n in h.issued ==>
          IdOf(n) == h.svc.pending[i].requestId ==> n <= h.serial[i])
  }

  /** The id drawn k draws after the n-th is the (n + k)-th. */
  lemma {:induction false} DrawsAdd(n: nat, k: nat)
    requires k >= 1
    ensures Candidate(IdOf(n), k) == IdOf(n + k)
  {
  }

  lemma {:induction false} IdsDiffer(m: nat, n: nat)
    requires 1 <= m < n < m + (WORD - 1)
    ensures IdOf(m) != IdOf(n)
  {
    CandidatesDiffer(0, m, n);
  }

  /** The id of a sent request is not in the table. */
  lemma {:induction false} SentIdNew(h: History, e: Event, i: nat)
    requires Inv(h) && Sent(h.svc, e) && i < MAX_PENDING && h.svc.pending[i].inUse
    ensures h.svc.pending[i].requestId != IdOf(h.draws + Draws(h.svc))
  {
    DrawsAdd(h.draws, Draws(h.svc));
    assert h.svc.pending[i].requestId in UsedIds(h.svc.pending);
  }

  /** What one slot is after a send: the new request, or what it was. */
  lemma {:induction false} SentSlot(h: History, e: Event, i: nat)
    requires Inv(h) && Sent(h.svc, e) && i < MAX_PENDING
    ensures var u, n := Next(h, e), h.draws + Draws(h.svc);
            && u.draws == n && u.svc.nextId == IdOf(n) && u.issued == h.issued[n := Wire(e.sub.request.device, e.sub.request.command, e.sub.ctx)]
            && if e.env.sendOk && i == FirstIndex(h.svc.pending, Vacant())
               then u.serial[i] == n && u.svc.pending[i] == NewPending(e.sub, IdOf(n), e.env.now)
               else u.serial[i] == h.serial[i] && u.svc.pending[i] == h.svc.pending[i]
  {
    DrawsAdd(h.draws, Draws(h.svc));
  }

  /** The request's device had nothing pending. */
  lemma {:induction false} SentDeviceNew(h: History, e: Event, i: nat)
    requires Inv(h) && Sent(h.svc, e) && i < MAX_PENDING && h.svc.pending[i].inUse
    ensures h.svc.pending[i].device != e.sub.request.device
  {
    assert !OnDevice(e.sub.request.device)(h.svc.pending[i]);
  }

  lemma {:induction false} SentRecorded(h: History, e: Event, i: nat)
    requires Inv(h) && Sent(h.svc, e) && i < MAX_PENDING
    ensures SlotRecorded(Next(h, e), i)
  {
    assert SlotRecorded(h, i);
    SentSlot(h, e, i);
  }

  lemma {:induction false} SentDistinct(h: History, e: Event, i: nat, j: nat)
    requires Inv(h) && Sent(h.svc, e) && i < j < MAX_PENDING
    requires var p := Next(h, e).svc.pending; p[i].inUse && p[j].inUse
    ensures var p := Next(h, e).svc.pending; p[i].requestId != p[j].requestId && p[i].device != p[j].device
  {
    SentSlot(h, e, i);
    SentSlot(h, e, j);
    if h.svc.pending[i].inUse { SentIdNew(h, e, i); SentDeviceNew(h, e, i); }
    if h.svc.pending[j].inUse { SentIdNew(h, e, j); SentDeviceNew(h, e, j); }
  }

  lemma {:induction false} SentLatest(h: History, e: Event, i: nat, n: nat)
    requires Inv(h) && Sent(h.svc, e) && i < MAX_PENDING && Next(h, e).svc.pending[i].inUse
    requires n in Next(h, e).issued && IdOf(n) == Next(h, e).svc.pending[i].requestId
    ensures n <= Next(h, e).serial[i]
  {
    SentSlot(h, e, i);
    if h.svc.pending[i].inUse { SentIdNew(h, e, i); }
  }

  /** A sent request gets a serial number and an id that nothing pending shares. */
  lemma {:induction false} SentInv(h: History, e: Event)
    requires Inv(h) && Sent(h.svc, e)
    ensures Inv(Next(h, e))
  {
    var u := Next(h, e);
    SentSlot(h, e, 0);
    forall i: nat | i < MAX_PENDING ensures SlotRecorded(u, i) { SentRecorded(h, e, i); }
    forall i: nat, j: nat | i < j < MAX_PENDING && u.svc.pending[i].inUse && u.svc.pending[j].inUse
      ensures u.svc.pending[i].requestId != u.svc.pending[j].requestId && u.svc.pending[i].device != u.svc.pending[j].device
    {
      SentDistinct(h, e, i, j);
    }
    forall i: nat, n | i < MAX_PENDING && u.svc.pending[i].inUse && n in u.issued && IdOf(n) == u.svc.pending[i].requestId
      ensures n <= u.serial[i]
    {
      SentLatest(h, e, i, n);
    }
  }

  /** Any other event at most empties one slot. */
  lemma {:induction false} UnsentInv(h: History, e: Event)
    requires Inv(h) && !Sent(h.svc, e)
    ensures Inv(Next(h, e))
  {
    var h' := Next(h, e);
    assert forall i :: 0 <= i < MAX_PENDING ==> h'.svc.pending[i] == h.svc.pending[i] || !h'.svc.pending[i].inUse;
    forall i | 0 <= i < MAX_PENDING ensures SlotRecorded(h', i) {
      assert SlotRecorded(h, i);
    }
  }

  /** The state after a whole event sequence. */
  ghost function Run(events: seq<Event>): (h: History)
    ensures HistoryShaped(h)
  {
    if |events| == 0 then Start() else Next(Run(events[..|events| - 1]), events[|events| - 1])
  }

  lemma {:induction false} RunInv(events: seq<Event>)
    ensures Inv(Run(events))
  {
    if |events| > 0 {
      RunInv(events[..|events| - 1]);
      var h, e := Run(events[..|events| - 1]), events[|events| - 1];
      if Sent(h.svc, e) { SentInv(h, e); } else { UnsentInv(h, e); }
    }
  }

  /** In every run the pending table holds at most one request per device and pairwise distinct, non-zero ids. */
  lemma {:induction false} PendingTableUnique(events: seq<Event>, i: nat, j: nat)
    requires i < j < MAX_PENDING
    requires Run(events).svc.pending[i].inUse && Run(events).svc.pending[j].inUse
    ensures Run(events).svc.pending[i].device != Run(events).svc.pending[j].device
    ensures Run(events).svc.pending[i].requestId != Run(events).svc.pending[j].requestId
    ensures 1 <= Run(events).svc.pending[i].requestId < WORD
  {
    var h := Run(events);
    RunInv(events);
    assert SlotRecorded(h, i);
  }

  /** An ACK to the request of draw n: the device echoes the id and the command that were sent to it. */
  ghost predicate Answers(h: History, ack: Ack, n: nat) {
    n in h.issued && ack.requestId == IdOf(n) && ack.device == h.issued[n].device && ack.command == h.issued[n].command
  }

  /** In every run OK is answered only by an accepting ACK, and the pending request it closes has the ACK's device,
      request id and command. */
  lemma {:induction false} OkOnlyFromMatchingAck(events: seq<Event>, e: Event)
    requires var h := Run(events); AnswerOf(h.svc, e).Some? && AnswerOf(h.svc, e).value.result.status.Ok?
    ensures e.AckEvent? && e.ack.accepted && e.ack.requestId != 0
    ensures var v := Run(events).svc; var k := Closes(v, e);
            && 0 <= k && v.pending[k].inUse
            && v.pending[k].device == e.ack.device && v.pending[k].requestId == e.ack.requestId && v.pending[k].command == e.ack.command
            && AnswerOf(v, e).value == Answer(v.pending[k].ctx, CommandResult(Ok, e.ack.requestId, e.ack.intValue))
  {
  }

  /** An ACK to request n, however late or duplicated, answers OK for request n itself or for nobody, as long as fewer
      than 2^32 - 1 ids were drawn since n. */
  lemma {:induction false} OkOnlyFromOwnAck(events: seq<Event>, e: Event, n: nat)
    requires var h := Run(events); AnswerOf(h.svc, e).Some? && AnswerOf(h.svc, e).value.result.status.Ok?
    requires e.AckEvent? ==> Answers(Run(events), e.ack, n) && Run(events).draws - n < WORD - 1
    ensures var h := Run(events); var k := Closes(h.svc, e);
            && e.AckEvent? && 0 <= k && h.serial[k] == n
            && AnswerOf(h.svc, e).value == Answer(h.issued[n].ctx, CommandResult(Ok, IdOf(n), e.ack.intValue))
  {
    var h := Run(events);
    RunInv(events);
    OkOnlyFromMatchingAck(events, e);
    var k := Closes(h.svc, e);
    assert SlotRecorded(h, k);
    var m := h.serial[k];
    assert n <= m;
    if n < m { IdsDiffer(n, m); }
  }

  /** Each submit draws at most five ids, so the bound above holds for (2^32 - 2) / 5 later requests at least. */
  lemma {:induction false} DrawsPerRequest(events: seq<Event>, n: nat)
    requires n <= |events|
    ensures Run(events).draws - Run(events[..n]).draws <= 5 * (|events| - n)
    decreases |events|
  {
    if n == |events| {
      assert events[..n] == events;
    } else {
      var m := |events| - 1;
      DrawsPerRequest(events[..m], n);
      assert events[..m][..n] == events[..n];
    }
  }
}
