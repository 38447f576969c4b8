/** The device command service: a table of four pending requests keyed by device and request id,
    a 32-bit request-id counter, and the events that answer requests. */
module CommandService {
  import opened Basics
  import opened Search
  import opened Scheduler

  const MAX_PENDING: nat := 4
  const QUEUE_LEN: nat := 8
  const ACK_TIMEOUT_US: int := 2_000_000

  /** `ctx` is the caller's context pointer: the index of the scheduler slot that owns the request. */
  datatype Pending = Pending(inUse: bool, requestId: nat, device: string, command: string, ctx: nat, deadline: int)
  const NO_PENDING := Pending(false, 0, "", "", 0, 0)

  datatype Submission = Submission(request: Request, ctx: nat)
  datatype Answer = Answer(ctx: nat, result: CommandResult)

  datatype Ack = Ack(device: string, requestId: nat, command: string, accepted: bool, intValue: Option<int>)

  /** What the outside world contributes to one submit: validation verdict, link state, send result, clock. */
  datatype Env = Env(validation: Status, connected: bool, sendOk: bool, now: int)

  datatype Service = Service(pending: seq<Pending>, nextId: nat)

  function ServiceInitial(): Service { Service(Repeat(MAX_PENDING, NO_PENDING), 0) }

  predicate ServiceShaped(v: Service) { |v.pending| == MAX_PENDING && v.nextId < WORD }

  // ----- request ids

  /** The k-th id drawn after counter value c: the counter steps through 1 .. 2^32 - 1 and skips 0. */
  function Candidate(c: nat, k: nat): (id: nat)
    requires k >= 1
    ensures 1 <= id < WORD
  {
    (c + k - 1) % (WORD - 1) + 1
  }

  function UsedIds(pending: seq<Pending>): set<nat> {
    set i | 0 <= i < |pending| && pending[i].inUse :: pending[i].requestId
  }

  ghost function Candidates(c: nat, k: nat): set<nat> { set j: nat | 1 <= j <= k :: Candidate(c, j) }

  /** Draws less than 2^32 - 1 apart differ. */
  lemma {:induction false} CandidatesDiffer(c: nat, j: nat, k: nat)
    requires 1 <= j < k < j + (WORD - 1)
    ensures Candidate(c, j) != Candidate(c, k)
  {
  }

  /** Drawing once more adds one, or wraps to 1. */
  lemma {:induction false} CandidateStep(c: nat, k: nat)
    requires c < WORD
    ensures k >= 1 ==> Candidate(c, k + 1) == if Candidate(c, k) == WORD - 1 then 1 else Candidate(c, k) + 1
    ensures Candidate(c, 1) == if c == WORD - 1 then 1 else c + 1
  {
  }

  /** Up to 2^32 - 1 consecutive draws are pairwise different. */
  lemma {:induction false} CandidatesDistinct(c: nat, k: nat)
    requires k <= WORD - 1
    ensures |Candidates(c, k)| == k
  {
    if k > 0 {
      CandidatesDistinct(c, k - 1);
      assert Candidate(c, k) !in Candidates(c, k - 1) by {
        forall j: nat | 1 <= j < k ensures Candidate(c, j) != Candidate(c, k) { CandidatesDiffer(c, j, k); }
      }
      assert Candidates(c, k) == Candidates(c, k - 1) + {Candidate(c, k)};
    } else {
      assert Candidates(c, k) == {};
    }
  }

  /** The first k draws after c are all taken. */
  ghost predicate AllTaken(c: nat, used: set<nat>, k: nat) { forall j: nat :: 1 <= j <= k ==> Candidate(c, j) in used }

  /** Pigeonhole: if the first k draws all collide, the table holds at least k ids. */
  lemma {:induction false} Pigeonhole(c: nat, used: set<nat>, k: nat)
    requires |used| < WORD - 1 && AllTaken(c, used, k)
    ensures k <= |used|
  {
    var n := if k <= |used| then k else |used| + 1;
    CandidatesDistinct(c, n);
    assert Candidates(c, n) <= used;
    SubsetSize(Candidates(c, n), used);
  }

  lemma {:induction false} SubsetSize(a: set<nat>, b: set<nat>)
    requires a <= b
    ensures |a| <= |b|
  {
    assert b == a + (b - a);
  }

  /** How many draws it takes to reach an id outside `used`, given that the first k - 1 collide. */
  function DrawFrom(c: nat, used: set<nat>, k: nat): (r: nat)
    requires k >= 1 && |used| < WORD - 1 && AllTaken(c, used, k - 1)
    ensures k <= r <= |used| + 1
    ensures Candidate(c, r) !in used && AllTaken(c, used, r - 1)
    decreases |used| + 1 - k
  {
    Pigeonhole(c, used, k - 1);
    if Candidate(c, k) !in used then k
    else
      Pigeonhole(c, used, k);
      DrawFrom(c, used, k + 1)
  }

  /** The number of ids in a table is at most its size. */
  lemma {:induction false} UsedBound(pending: seq<Pending>)
    ensures |UsedIds(pending)| <= |pending|
  {
    if |pending| > 0 {
      var n := |pending| - 1;
      UsedBound(pending[..n]);
      var extra := if pending[n].inUse then {pending[n].requestId} else {};
      assert UsedIds(pending) <= UsedIds(pending[..n]) + extra by {
        forall x | x in UsedIds(pending) ensures x in UsedIds(pending[..n]) + extra {
          var i :| 0 <= i < |pending| && pending[i].inUse && pending[i].requestId == x;
          assert i < n ==> pending[..n][i] == pending[i];
        }
      }
      SubsetSize(UsedIds(pending), UsedIds(pending[..n]) + extra);
    }
  }

  function Draws(v: Service): (k: nat)
    requires ServiceShaped(v)
    ensures 1 <= k <= MAX_PENDING + 1
    ensures Candidate(v.nextId, k) !in UsedIds(v.pending) && AllTaken(v.nextId, UsedIds(v.pending), k - 1)
  {
    UsedBound(v.pending);
    DrawFrom(v.nextId, UsedIds(v.pending), 1)
  }

  // ----- events

  function OnDevice(device: string): Pending -> bool { (p: Pending) => p.inUse && p.device == device }
  function OnId(device: string, id: nat): Pending -> bool { (p: Pending) => p.inUse && p.device == device && p.requestId == id }
  function Vacant(): Pending -> bool { (p: Pending) => !p.inUse }

  datatype Event = SubmitEvent(sub: Submission, env: Env) | AckEvent(ack: Ack) | DisconnectEvent(device: string)
                 | CancelEvent(device: string) | TimeoutEvent(slot: nat)

  /** Why a submit is answered at once, or None when it is sent. */
  function Refusal(v: Service, sub: Submission, env: Env): Option<Status> {
    if !env.validation.Ok? then Some(env.validation)
    else if !env.connected then Some(NotConnected)
    else if FirstIndex(v.pending, OnDevice(sub.request.device)) >= 0 then Some(Busy)
    else if FirstIndex(v.pending, Vacant()) < 0 then Some(QueueFull)
    else None
  }

  function NewPending(sub: Submission, id: nat, now: int): Pending {
    Pending(true, id, sub.request.device, sub.request.command, sub.ctx, now + ACK_TIMEOUT_US)
  }

  function Status0(status: Status, id: nat): CommandResult { CommandResult(status, id, None) }

  /** The pending slot an event closes, or -1. */
  function Closes(v: Service, e: Event): (r: int)
    ensures -1 <= r < |v.pending|
    ensures r >= 0 ==> v.pending[r].inUse
  {
    match e
    case SubmitEvent(_, _) => -1
    case AckEvent(a) =>
      var k := FirstIndex(v.pending, OnId(a.device, a.requestId));
      if a.requestId == 0 || k < 0 || v.pending[k].command != a.command then -1 else k
    case DisconnectEvent(dev) => FirstIndex(v.pending, OnDevice(dev))
    case CancelEvent(dev) => FirstIndex(v.pending, OnDevice(dev))
    case TimeoutEvent(i) => if i < |v.pending| && v.pending[i].inUse then i else -1
  }

  /** The result an event gives the slot it closes. */
  function Verdict(e: Event, id: nat): CommandResult {
    match e
    case SubmitEvent(_, _) => Status0(TransportError, id)
    case AckEvent(a) => if a.accepted then CommandResult(Ok, id, a.intValue) else Status0(Rejected, id)
    case DisconnectEvent(_) => Status0(NotConnected, id)
    case CancelEvent(_) => Status0(Cancelled, id)
    case TimeoutEvent(_) => Status0(Timeout, id)
  }

  function Handle(v: Service, e: Event): Service
    requires ServiceShaped(v)
  {
    if e.SubmitEvent? then
      if Refusal(v, e.sub, e.env).Some? then v
      else
        var id := Candidate(v.nextId, Draws(v));
        var t := v.(nextId := id);
        if e.env.sendOk then t.(pending := v.pending[FirstIndex(v.pending, Vacant()) := NewPending(e.sub, id, e.env.now)])
        else t
    else Settle(v, e)
  }

  /** An event that can only close a request: ACK, disconnect, cancel or timeout. */
  function Settle(v: Service, e: Event): (u: Service)
    ensures |u.pending| == |v.pending| && u.nextId == v.nextId
  {
    var k := Closes(v, e);
    if k < 0 then v else v.(pending := v.pending[k := NO_PENDING])
  }

  function Settles(v: Service, e: Event): Option<Answer> {
    var k := Closes(v, e);
    if k < 0 then None else Some(Answer(v.pending[k].ctx, Verdict(e, v.pending[k].requestId)))
  }

  /** The completion callback an event owes. */
  function AnswerOf(v: Service, e: Event): Option<Answer>
    requires ServiceShaped(v)
  {
    if e.SubmitEvent? then
      var why := Refusal(v, e.sub, e.env);
      if why.Some? then Some(Answer(e.sub.ctx, Status0(why.value, 0)))
      else if e.env.sendOk then None
      else Some(Answer(e.sub.ctx, Status0(TransportError, Candidate(v.nextId, Draws(v)))))
    else Settles(v, e)
  }

  // ----- the service run in place

  class PendingTable {
    const pending: array<Pending>
    var nextId: nat

    ghost predicate Valid()
      reads this
    {
      pending.Length == MAX_PENDING && nextId < WORD
    }

    ghost function View(): Service
      reads this, pending
    {
      Service(pending[..], nextId)
    }

    constructor ()
      ensures Valid() && View() == ServiceInitial() && fresh(pending)
    {
      pending := new Pending[MAX_PENDING](i => NO_PENDING);
      nextId := 0;
      new;
      assert pending[..] == ServiceInitial().pending;
    }

    method IdPending(id: nat) returns (r: bool)
      requires Valid()
      ensures r == (id in UsedIds(pending[..]))
    {
      for i := 0 to MAX_PENDING
        invariant forall j :: 0 <= j < i ==> !(pending[j].inUse && pending[j].requestId == id)
      {
        if pending[i].inUse && pending[i].requestId == id {
          assert pending[..][i] == pending[i];
          return true;
        }
      }
      return false;
    }

    /** One increment of the 32-bit counter, which wraps and skips 0. */
    method StepCounter()
      requires Valid()
      modifies this`nextId
      ensures Valid() && nextId == if old(nextId) == WORD - 1 then 1 else old(nextId) + 1
    {
      nextId := (nextId + 1) % WORD;
      if nextId == 0 { nextId := (nextId + 1) % WORD; }
    }

    /** dcs_pending_next_request_id: the do/while loop over the wrapping 32-bit counter. */
    method NextRequestId() returns (id: nat)
      requires Valid()
      modifies this`nextId
      ensures Valid()
      ensures id == nextId == Candidate(old(nextId), Draws(old(View())))
    {
      ghost var used := UsedIds(pending[..]);
      ghost var k := 0;
      UsedBound(pending[..]);
      while true
        invariant nextId < WORD && k <= |used|
        invariant nextId == if k == 0 then old(nextId) else Candidate(old(nextId), k)
        invariant AllTaken(old(nextId), used, k)
        decreases |used| - k
      {
        CandidateStep(old(nextId), k);
        StepCounter();
        k := k + 1;
        id := nextId;
        assert id == Candidate(old(nextId), k);
        var collision := IdPending(id);
        if !collision {
          DrawUnique(old(View()), k);
          return;
        }
        Pigeonhole(old(nextId), used, k);
      }
    }

    /** dcs_pending_find_device. */
    method FindDevice(device: string) returns (r: int)
      requires Valid()
      ensures r == FirstIndex(pending[..], OnDevice(device))
    {
      r := -1;
      for i := 0 to MAX_PENDING
        invariant r == -1
        invariant forall j :: 0 <= j < i ==> !OnDevice(device)(pending[j])
      {
        if pending[i].inUse && pending[i].device == device { r := i; break; }
      }
      FirstIndexUnique(pending[..], OnDevice(device), r);
    }

    /** dcs_handle_submit. */
    method HandleSubmit(sub: Submission, env: Env) returns (answer: Option<Answer>)
      requires Valid()
      modifies this, pending
      ensures Valid()
      ensures View() == Handle(old(View()), SubmitEvent(sub, env))
      ensures answer == AnswerOf(old(View()), SubmitEvent(sub, env))
    {
      if !env.validation.Ok? { return Some(Answer(sub.ctx, Status0(env.validation, 0))); }
      if !env.connected { return Some(Answer(sub.ctx, Status0(NotConnected, 0))); }
      var busy := FindDevice(sub.request.device);
      if busy >= 0 { return Some(Answer(sub.ctx, Status0(Busy, 0))); }
      var k := -1;
      for i := 0 to MAX_PENDING
        invariant k == -1
        invariant forall j :: 0 <= j < i ==> !Vacant()(pending[j])
      {
        if !pending[i].inUse { k := i; break; }
      }
      FirstIndexUnique(pending[..], Vacant(), k);
      if k < 0 { return Some(Answer(sub.ctx, Status0(QueueFull, 0))); }
      var id := NextRequestId();
      if !env.sendOk { return Some(Answer(sub.ctx, Status0(TransportError, id))); }
      pending[k] := NewPending(sub, id, env.now);
      return None;
    }

    /** handle_ack. */
    method HandleAck(ack: Ack) returns (answer: Option<Answer>)
      requires Valid()
      modifies pending
      ensures Valid()
      ensures View() == Handle(old(View()), AckEvent(ack))
      ensures answer == AnswerOf(old(View()), AckEvent(ack))
    {
      if ack.requestId == 0 { return None; }
      var k := -1;
      for i := 0 to MAX_PENDING
        invariant k == -1
        invariant forall j :: 0 <= j < i ==> !OnId(ack.device, ack.requestId)(pending[j])
      {
        if pending[i].inUse && pending[i].device == ack.device && pending[i].requestId == ack.requestId { k := i; break; }
      }
      FirstIndexUnique(pending[..], OnId(ack.device, ack.requestId), k);
      if k < 0 || pending[k].command != ack.command { return None; }
      var p := pending[k];
      pending[k] := NO_PENDING;
      return Some(Answer(p.ctx, if ack.accepted then CommandResult(Ok, p.requestId, ack.intValue)
                                else Status0(Rejected, p.requestId)));
    }

    /** handle_disconnect and handle_cancel. */
    method DropDevice(device: string, cancel: bool) returns (answer: Option<Answer>)
      requires Valid()
      modifies pending
      ensures Valid()
      ensures View() == Handle(old(View()), if cancel then CancelEvent(device) else DisconnectEvent(device))
      ensures answer == AnswerOf(old(View()), if cancel then CancelEvent(device) else DisconnectEvent(device))
    {
      var k := FindDevice(device);
      if k < 0 { return None; }
      var p := pending[k];
      pending[k] := NO_PENDING;
      return Some(Answer(p.ctx, Status0(if cancel then Cancelled else NotConnected, p.requestId)));
    }

    /** check_timeouts: one pass is the sequence of timeout events of the expired requests, in table order. */
    method CheckTimeouts(now: int) returns (answers: seq<Answer>)
      requires Valid()
      modifies pending
      ensures Valid()
      ensures View() == SettleAll(old(View()), Timeouts(old(pending[..]), now))
      ensures answers == AnswersOf(old(View()), Timeouts(old(pending[..]), now))
    {
      answers := [];
      ghost var was := View();
      for i := 0 to MAX_PENDING
        invariant nextId == was.nextId
        invariant forall j :: i <= j < MAX_PENDING ==> pending[j] == was.pending[j]
        invariant View() == SettleAll(was, Timeouts(was.pending[..i], now))
        invariant answers == AnswersOf(was, Timeouts(was.pending[..i], now))
      {
        ghost var u := View();
        TimeoutsNext(was.pending, now, i);
        assert pending[i] == was.pending[i] && u.pending[i] == pending[i];
        if pending[i].inUse && now >= pending[i].deadline {
          EventsAppend(was, Timeouts(was.pending[..i], now), TimeoutEvent(i));
          TimeoutStep(u, i);
          answers := answers + [Answer(pending[i].ctx, Status0(Timeout, pending[i].requestId))];
          pending[i] := NO_PENDING;
          assert pending[..] == u.pending[i := NO_PENDING];
          assert View() == Settle(u, TimeoutEvent(i));
        }
      }
      assert was.pending[..MAX_PENDING] == was.pending;
    }
  }

  predicate Expired(p: Pending, now: int) { p.inUse && now >= p.deadline }

  /** The timeout events due now, in table order. */
  function Timeouts(pending: seq<Pending>, now: int): seq<Event> {
    if |pending| == 0 then []
    else
      var n := |pending| - 1;
      Timeouts(pending[..n], now) + if Expired(pending[n], now) then [TimeoutEvent(n)] else []
  }

  lemma {:induction false} TimeoutsNext(pending: seq<Pending>, now: int, i: nat)
    requires i < |pending|
    ensures Timeouts(pending[..i + 1], now) ==
            if Expired(pending[i], now) then Timeouts(pending[..i], now) + [TimeoutEvent(i)] else Timeouts(pending[..i], now)
  {
    assert pending[..i + 1][..i] == pending[..i];
  }

  /** The service after a sequence of closing events, and the answers they owe: each is one step of a run. */
  function SettleAll(v: Service, es: seq<Event>): (u: Service)
    ensures |u.pending| == |v.pending| && u.nextId == v.nextId
  {
    if |es| == 0 then v else Settle(SettleAll(v, es[..|es| - 1]), es[|es| - 1])
  }

  function AnswersOf(v: Service, es: seq<Event>): seq<Answer> {
    if |es| == 0 then []
    else
      var x := Settles(SettleAll(v, es[..|es| - 1]), es[|es| - 1]);
      AnswersOf(v, es[..|es| - 1]) + if x.Some? then [x.value] else []
  }

  lemma {:induction false} EventsAppend(v: Service, es: seq<Event>, e: Event)
    ensures SettleAll(v, es + [e]) == Settle(SettleAll(v, es), e)
    ensures AnswersOf(v, es + [e]) == AnswersOf(v, es) + (var x := Settles(SettleAll(v, es), e); if x.Some? then [x.value] else [])
  {
    assert (es + [e])[..|es|] == es;
  }

  lemma {:induction false} TimeoutStep(u: Service, i: nat)
    requires ServiceShaped(u) && i < MAX_PENDING && u.pending[i].inUse
    ensures Settle(u, TimeoutEvent(i)) == u.(pending := u.pending[i := NO_PENDING])
    ensures Settles(u, TimeoutEvent(i)) == Some(Answer(u.pending[i].ctx, Status0(Timeout, u.pending[i].requestId)))
  {
  }

  /** u is v with the expired requests among the first n slots cleared and all else kept. */
  ghost predicate Cleared(v: Service, u: Service, now: int, n: nat)
    requires ServiceShaped(v) && ServiceShaped(u)
  {
    && u.nextId == v.nextId
    && forall i :: 0 <= i < MAX_PENDING ==> u.pending[i] == if i < n && Expired(v.pending[i], now) then NO_PENDING else v.pending[i]
  }

  /** A pass over the first n slots clears exactly the expired requests there. */
  lemma {:induction false} TimeoutPass(v: Service, now: int, n: nat)
    requires ServiceShaped(v) && n <= MAX_PENDING
    ensures Cleared(v, SettleAll(v, Timeouts(v.pending[..n], now)), now, n)
  {
    if n > 0 {
      var es := Timeouts(v.pending[..n - 1], now);
      TimeoutPass(v, now, n - 1);
      TimeoutsNext(v.pending, now, n - 1);
      EventsAppend(v, es, TimeoutEvent(n - 1));
      ClearOne(v, SettleAll(v, es), now, n - 1);
    }
  }

  lemma {:induction false} ClearOne(v: Service, u: Service, now: int, k: nat)
    requires ServiceShaped(v) && ServiceShaped(u) && k < MAX_PENDING && Cleared(v, u, now, k)
    ensures Cleared(v, if Expired(v.pending[k], now) then Settle(u, TimeoutEvent(k)) else u, now, k + 1)
  {
  }

  /** And the pass owes one TIMEOUT answer per expired request, in table order. */
  lemma {:induction false} TimeoutPassAnswers(v: Service, now: int, n: nat)
    requires ServiceShaped(v) && n <= MAX_PENDING
    ensures AnswersOf(v, Timeouts(v.pending[..n], now)) == TimeoutAnswers(v.pending[..n], now)
  {
    if n > 0 {
      TimeoutPassAnswers(v, now, n - 1);
      TimeoutsNext(v.pending, now, n - 1);
      assert v.pending[..n][..n - 1] == v.pending[..n - 1];
      if Expired(v.pending[n - 1], now) {
        var es := Timeouts(v.pending[..n - 1], now);
        EventsAppend(v, es, TimeoutEvent(n - 1));
        TimeoutPass(v, now, n - 1);
        TimeoutStep(SettleAll(v, es), n - 1);
      }
    }
  }

  /** One TIMEOUT answer per expired request, in table order. */
  function TimeoutAnswers(pending: seq<Pending>, now: int): seq<Answer> {
    if |pending| == 0 then []
    else
      var n := |pending| - 1;
      var rest := TimeoutAnswers(pending[..n], now);
      if Expired(pending[n], now) then rest + [Answer(pending[n].ctx, Status0(Timeout, pending[n].requestId))] else rest
  }

  lemma {:induction false} DrawUnique(v: Service, k: nat)
    requires ServiceShaped(v) && k >= 1
    requires Candidate(v.nextId, k) !in UsedIds(v.pending) && AllTaken(v.nextId, UsedIds(v.pending), k - 1)
    ensures k == Draws(v)
  {
    var r := Draws(v);
    assert !(k < r) && !(r < k);
  }
}
