/** The settings transaction of one device: BEGIN, a SET per change, COMMIT, CONFIRM, then a read-back that decides
    the outcome. Every actor event and every critical section of the read-back is one step. */
module SettingsTransaction {
  import opened Basics
  import opened Search

  const MAX_CHANGES: nat := 16
  const VALUE_LEN: nat := 64

  type Byte = b: nat | b < 256

  datatype Kind = Bool | Int | Enum | Text | Other

  /** A typed value; Bare stands for the types with no wire value (FLOAT and unknown ones). */
  datatype Value = BoolValue(flag: bool) | IntValue(number: int) | EnumValue(code: int) | TextValue(text: string) | Bare

  function KindOf(v: Value): Kind {
    match v
    case BoolValue(_) => Bool
    case IntValue(_) => Int
    case EnumValue(_) => Enum
    case TextValue(_) => Text
    case Bare => Other
  }

  /** What the committed schema says about writing one setting. */
  datatype Rule = Rule(id: string, kind: Kind, writable: bool, secret: bool, low: int, high: int, step: nat, maxLength: nat,
                       options: seq<Byte>)
  datatype Change = Change(id: string, value: Value)
  datatype Entry = Entry(id: string, available: bool, value: Value)

  function RuleOf(id: string): Rule -> bool { (r: Rule) => r.id == id }
  function EntryOf(id: string): Entry -> bool { (e: Entry) => e.id == id }

  /** Range, step, membership and length checks against the setting's rule. */
  predicate Allows(r: Rule, v: Value) {
    && r.writable && r.kind == KindOf(v) && !v.Bare?
    && (v.IntValue? ==> r.low <= v.number <= r.high && (r.step != 0 ==> (v.number - r.low) % r.step == 0))
    && (v.EnumValue? ==> exists i :: 0 <= i < |r.options| && r.options[i] == v.code)
    && (v.TextValue? ==> |v.text| < VALUE_LEN && (r.maxLength != 0 ==> |v.text| <= r.maxLength))
  }

  predicate Prevalidated(rules: seq<Rule>, c: Change) {
    && c.id != ""
    && var k := FirstIndex(rules, RuleOf(c.id)); k >= 0 && Allows(rules[k], c.value)
  }

  /** The value a SET carries: enum codes are cut to a byte and texts to the request's buffer. */
  function Wire(v: Value): Value {
    match v
    case EnumValue(code) => EnumValue(code % 256)
    case TextValue(text) => if |text| < VALUE_LEN then v else TextValue(text[..VALUE_LEN - 1])
    case _ => v
  }

  /** The read-back holds the change: the first entry with its id is available and has the same type and content. */
  predicate Confirmed(entries: seq<Entry>, c: Change) {
    var k := FirstIndex(entries, EntryOf(c.id));
    k >= 0 && entries[k].available && entries[k].value == c.value && !c.value.Bare?
  }

  predicate Matches(entries: seq<Entry>, changes: seq<Change>) { forall i :: 0 <= i < |changes| ==> Confirmed(entries, changes[i]) }

  // ----- state

  datatype Cmd =
    | Begin(t: nat, expected: nat)
    | Set(t: nat, id: string, value: Value)
    | Commit(t: nat)
    | Confirm(t: nat, revision: nat)

  datatype Status = Ok | Rejected | Busy | TimedOut | NotConnected | StatusCancelled | Unexpected
  datatype Result = Success | DeviceConflict | DeviceRejected | Timeout | Disconnected | Cancelled | Failed | OutcomeUnknown | Internal
  datatype Phase = Prevalidating | BeginSent | SetSent | CommitSent | ConfirmSent | WaitingReboot | Verifying

  /** An accepted save; its transaction id is its position in the list of accepted saves. */
  datatype Plan = Plan(changes: seq<Change>, expected: nat)
  datatype Tx = Tx(t: nat, changes: seq<Change>, expected: nat, newRev: nat, next: nat, phase: Phase)
  datatype Record = Record(rules: Option<seq<Rule>>, ready: bool, values: Option<seq<Entry>>, configRev: nat,
                           pending: bool, expectedRev: nat, oldRev: nat)
  datatype Call = Call(t: nat, result: Result)

  /** `verdict` is a read-back outcome decided under the lock and not yet delivered; `plans`, `log` and `calls` are the
      accepted saves, the commands submitted and the callbacks made so far. */
  datatype World = World(tx: Option<Tx>, rec: Option<Record>, verdict: Option<Call>, plans: seq<Plan>, log: seq<Cmd>, calls: seq<Call>)

  datatype Event =
    | Save(changes: seq<Change>, expected: nat, queued: bool)
    | Start(sent: bool)
    | Complete(status: Status, reported: Option<int>, sent: bool)
    | Abort
    | TimerFired
    | LinkLost
    | Advertise(ready: bool)
    | CommitSchema(rules: seq<Rule>)
    | CommitValues(entries: seq<Entry>, revision: nat)
    | Decide
    | Deliver(reused: bool)
    | Evict
    | Forget

  function Boot(): World { World(None, None, None, [], [], []) }

  // ----- steps

  predicate SaveAccepted(w: World, changes: seq<Change>, queued: bool) {
    && 1 <= |changes| <= MAX_CHANGES && w.tx.None?
    && w.rec.Some? && w.rec.value.ready && w.rec.value.rules.Some?
    && (forall i :: 0 <= i < |changes| ==> Prevalidated(w.rec.value.rules.value, changes[i]))
    && queued
  }

  function Finish(w: World, r: Result): World
    requires w.tx.Some?
  {
    w.(tx := None, calls := w.calls + [Call(w.tx.value.t, r)])
  }

  function Send(w: World, c: Cmd, tx: Tx, sent: bool): World
    requires w.tx.Some?
  {
    if sent then w.(tx := Some(tx), log := w.log + [c]) else Finish(w, Internal)
  }

  /** The next SET, or COMMIT after the last one. */
  function SubmitNext(w: World, next: nat, sent: bool): World
    requires w.tx.Some?
  {
    var x := w.tx.value;
    if w.rec.None? || w.rec.value.rules.None? then Finish(w, Internal)
    else if next < |x.changes| then Send(w, Set(x.t, x.changes[next].id, Wire(x.changes[next].value)), x.(next := next, phase := SetSent), sent)
    else Send(w, Commit(x.t), x.(next := next, phase := CommitSent), sent)
  }

  function NextRevision(x: Tx): nat { if x.newRev != 0 then x.newRev else (x.expected + 1) % WORD }

  /** The commit may have persisted: wait for the device to come back and be read. */
  function AwaitReboot(w: World): World
    requires w.tx.Some?
  {
    var x := w.tx.value;
    var rec := if w.rec.Some? then Some(w.rec.value.(pending := true, expectedRev := NextRevision(x), oldRev := x.expected)) else None;
    w.(tx := Some(x.(phase := WaitingReboot)), rec := rec)
  }

  predicate Committing(p: Phase) { p.CommitSent? || p.ConfirmSent? }

  function Acknowledged(w: World, reported: Option<int>, sent: bool): World
    requires w.tx.Some?
  {
    var x := w.tx.value;
    match x.phase
    case BeginSent => SubmitNext(w, x.next, sent)
    case SetSent => SubmitNext(w, x.next + 1, sent)
    case CommitSent =>
      var rev := if reported.Some? then reported.value % WORD else x.newRev;
      Send(w, Confirm(x.t, rev), x.(newRev := rev, phase := ConfirmSent), sent)
    case ConfirmSent => AwaitReboot(w)
    case _ => w
  }

  /** While the reboot is awaited, completions can only refine the expected revision. */
  function LateCompletion(w: World, status: Status, reported: Option<int>): World
    requires w.tx.Some?
  {
    if status.Ok? && reported.Some? then
      var rev := reported.value % WORD;
      w.(tx := Some(w.tx.value.(newRev := rev)), rec := if w.rec.Some? then Some(w.rec.value.(expectedRev := rev)) else None)
    else w
  }

  function Completed(w: World, status: Status, reported: Option<int>, sent: bool): World {
    if w.tx.None? then w
    else if w.tx.value.phase.WaitingReboot? then LateCompletion(w, status, reported)
    else
      var p := w.tx.value.phase;
      match status
      case Ok => Acknowledged(w, reported, sent)
      case Rejected => Finish(w, if p.BeginSent? then DeviceConflict else DeviceRejected)
      case Busy => Finish(w, DeviceRejected)
      case TimedOut => if Committing(p) then AwaitReboot(w) else Finish(w, Timeout)
      case NotConnected => if Committing(p) then AwaitReboot(w) else Finish(w, Disconnected)
      case StatusCancelled => Finish(w, Cancelled)
      case Unexpected => Finish(w, Internal)
  }

  function Aborted(w: World): World { if w.tx.Some? then Finish(w, Cancelled) else w }

  function Disconnect(w: World): World {
    if w.tx.None? then w
    else if Committing(w.tx.value.phase) then AwaitReboot(w)
    else if w.tx.value.phase.WaitingReboot? then w
    else Aborted(w)
  }

  function Expire(w: World): World {
    if w.tx.Some? && w.tx.value.phase.WaitingReboot? then Finish(w, OutcomeUnknown) else Aborted(w)
  }

  predicate ReadBackOk(rec: Record, changes: seq<Change>) { rec.rules.Some? && rec.values.Some? && Matches(rec.values.value, changes) }

  function Outcome(rec: Record, changes: seq<Change>): Result {
    if rec.configRev == rec.expectedRev then (if ReadBackOk(rec, changes) then Success else Failed)
    else if rec.configRev == rec.oldRev then Failed
    else DeviceConflict
  }

  /** Reconciliation under the lock. The notification task runs one reconciliation at a time. */
  function Decided(w: World): World {
    if w.rec.None? || !w.rec.value.pending || w.verdict.Some? then w
    else
      var rec := w.rec.value;
      var cleared := w.(rec := Some(rec.(pending := false)));
      if w.tx.None? || !w.tx.value.phase.WaitingReboot? then cleared
      else
        var x := w.tx.value;
        cleared.(tx := Some(if rec.configRev == rec.expectedRev then x.(phase := Verifying) else x),
                 verdict := Some(Call(x.t, Outcome(rec, x.changes))))
  }

  /** Reconciliation after the lock: makes the decided callback and frees the table slot the transaction had. If that
      transaction is gone, the slot may have been `reused` by a later one of this device, which is then freed instead. */
  function Delivered(w: World, reused: bool): World {
    if w.verdict.None? then w
    else w.(tx := if w.tx.Some? && (reused || w.tx.value.t == w.verdict.value.t) then None else w.tx,
            verdict := None, calls := w.calls + [w.verdict.value])
  }

  /** Another device's late delivery frees the slot of this device's transaction; one delivery is made at a time. */
  function Evicted(w: World): World { if w.verdict.None? then w.(tx := None) else w }

  function Step(w: World, e: Event): World {
    match e
    case Save(changes, expected, queued) =>
      if SaveAccepted(w, changes, queued)
      then w.(tx := Some(Tx(|w.plans|, changes, expected, 0, 0, Prevalidating)), plans := w.plans + [Plan(changes, expected)])
      else w
    case Start(sent) =>
      if w.tx.None? then w
      else Send(w, Begin(w.tx.value.t, w.tx.value.expected), w.tx.value.(phase := BeginSent), sent)
    case Complete(status, reported, sent) => Completed(w, status, reported, sent)
    case Abort => Aborted(w)
    case TimerFired => Expire(w)
    case LinkLost => Disconnect(w)
    case Advertise(ready) =>
      w.(rec := Some(if w.rec.Some? then w.rec.value.(ready := ready && w.rec.value.rules.Some?)
                     else Record(None, false, None, 0, false, 0, 0)))
    case CommitSchema(rules) => if w.rec.None? then w else w.(rec := Some(w.rec.value.(rules := Some(rules), ready := true)))
    case CommitValues(entries, revision) =>
      if w.rec.None? then w else w.(rec := Some(w.rec.value.(values := Some(entries), configRev := revision)))
    case Decide => Decided(w)
    case Deliver(reused) => Delivered(w, reused)
    case Evict => Evicted(w)
    case Forget => w.(rec := None)
  }

  /** The state after a run from boot. */
  function After(run: seq<Event>): World {
    if |run| == 0 then Boot() else Step(After(run[..|run| - 1]), run[|run| - 1])
  }

  // ----- prevalidation

  /** A prevalidated value reaches the wire unchanged. */
  lemma {:induction false} WireExact(rules: seq<Rule>, c: Change)
    requires Prevalidated(rules, c)
    ensures Wire(c.value) == c.value && !c.value.Bare?
  {
  }

  // ----- the command script

  /** Command number i of the script BEGIN, SET per change in order, COMMIT, CONFIRM. */
  predicate AtPlace(p: Plan, t: nat, i: nat, c: Cmd) {
    if i == 0 then c == Begin(t, p.expected)
    else if i <= |p.changes| then c == Set(t, p.changes[i - 1].id, p.changes[i - 1].value)
    else if i == |p.changes| + 1 then c == Commit(t)
    else i == |p.changes| + 2 && c.Confirm? && c.t == t
  }

  ghost predicate Follows(p: Plan, t: nat, cmds: seq<Cmd>) { forall i :: 0 <= i < |cmds| ==> AtPlace(p, t, i, cmds[i]) }

  /** The commands of one transaction, in order. */
  function Of(log: seq<Cmd>, t: nat): seq<Cmd> {
    if |log| == 0 then []
    else var r := Of(log[..|log| - 1], t); var c := log[|log| - 1]; if c.t == t then r + [c] else r
  }

  lemma {:induction false} OfAppend(log: seq<Cmd>, c: Cmd, t: nat)
    ensures Of(log + [c], t) == if c.t == t then Of(log, t) + [c] else Of(log, t)
  {
    assert (log + [c])[..|log|] == log;
  }

  /** How many commands an active transaction has submitted. */
  ghost predicate Position(x: Tx, n: nat) {
    match x.phase
    case Prevalidating => n == 0 && x.next == 0
    case BeginSent => n == 1 && x.next == 0
    case SetSent => x.next < |x.changes| && n == x.next + 2
    case CommitSent => n == |x.changes| + 2
    case ConfirmSent => n == |x.changes| + 3
    case _ => n >= 1
  }

  /** The active transaction is the newest accepted save, unchanged. */
  ghost predicate Linked(w: World) {
    w.tx.Some? ==> var x := w.tx.value;
                   |w.plans| == x.t + 1 && Plan(x.changes, x.expected) == w.plans[x.t]
  }

  ghost predicate Exact(p: Plan) { forall i :: 0 <= i < |p.changes| ==> Wire(p.changes[i].value) == p.changes[i].value && !p.changes[i].value.Bare? }

  ghost predicate Scripted(w: World) {
    && Linked(w)
    && (forall t :: 0 <= t < |w.plans| ==> Exact(w.plans[t]))
    && (forall t: nat {:trigger Of(w.log, t)} :: (t >= |w.plans| ==> Of(w.log, t) == []) && (t < |w.plans| ==> Follows(w.plans[t], t, Of(w.log, t))))
    && (w.tx.Some? ==> Position(w.tx.value, |Of(w.log, w.tx.value.t)|))
  }

  /** A lease grant that sends BEGIN finds the transaction not yet started. */
  predicate StartsFresh(w: World, e: Event) { e.Start? && e.sent && w.tx.Some? ==> w.tx.value.phase.Prevalidating? }

  ghost predicate FreshRun(run: seq<Event>) { forall k :: 0 <= k < |run| ==> StartsFresh(After(run[..k]), run[k]) }

  /** Submitting the command that is due keeps the script. */
  lemma {:induction false} SendKeeps(w: World, c: Cmd, x: Tx, sent: bool)
    requires Scripted(w) && w.tx.Some? && c.t == x.t == w.tx.value.t && x.changes == w.tx.value.changes && x.expected == w.tx.value.expected
    requires AtPlace(w.plans[x.t], x.t, |Of(w.log, x.t)|, c) && Position(x, |Of(w.log, x.t)| + 1)
    ensures Scripted(Send(w, c, x, sent))
  {
    var u := Send(w, c, x, sent);
    if sent {
      forall t: nat ensures (t >= |u.plans| ==> Of(u.log, t) == []) && (t < |u.plans| ==> Follows(u.plans[t], t, Of(u.log, t))) {
        OfAppend(w.log, c, t);
        assert t < |w.plans| ==> Follows(w.plans[t], t, Of(w.log, t));
      }
      OfAppend(w.log, c, x.t);
    }
  }

  lemma {:induction false} SubmitKeeps(w: World, next: nat, sent: bool)
    requires Scripted(w) && w.tx.Some? && next <= |w.tx.value.changes| && |Of(w.log, w.tx.value.t)| == next + 1
    ensures Scripted(SubmitNext(w, next, sent))
  {
    var x := w.tx.value;
    assert Exact(w.plans[x.t]);
    if w.rec.Some? && w.rec.value.rules.Some? {
      if next < |x.changes| {
        SendKeeps(w, Set(x.t, x.changes[next].id, Wire(x.changes[next].value)), x.(next := next, phase := SetSent), sent);
      } else {
        SendKeeps(w, Commit(x.t), x.(next := next, phase := CommitSent), sent);
      }
    }
  }

  lemma {:induction false} AcknowledgedKeeps(w: World, reported: Option<int>, sent: bool)
    requires Scripted(w) && w.tx.Some?
    ensures Scripted(Acknowledged(w, reported, sent))
  {
    var x := w.tx.value;
    match x.phase
    case BeginSent => SubmitKeeps(w, x.next, sent);
    case SetSent => SubmitKeeps(w, x.next + 1, sent);
    case CommitSent =>
      var rev := if reported.Some? then reported.value % WORD else x.newRev;
      SendKeeps(w, Confirm(x.t, rev), x.(newRev := rev, phase := ConfirmSent), sent);
    case _ =>
  }

  lemma {:induction false} SaveKeeps(w: World, e: Event)
    requires Scripted(w) && e.Save?
    ensures Scripted(Step(w, e))
  {
    var u := Step(w, e);
    if SaveAccepted(w, e.changes, e.queued) {
      forall i | 0 <= i < |e.changes| ensures Wire(e.changes[i].value) == e.changes[i].value && !e.changes[i].value.Bare? {
        WireExact(w.rec.value.rules.value, e.changes[i]);
      }
      forall t: nat ensures (t >= |u.plans| ==> Of(u.log, t) == []) && (t < |u.plans| ==> Follows(u.plans[t], t, Of(u.log, t))) {
        assert Of(w.log, t) == Of(u.log, t);
      }
      assert Of(w.log, |w.plans|) == [];
    }
  }

  /** A step that submits nothing keeps the script if it leaves the transaction where it is, ends it or awaits the reboot. */
  lemma {:induction false} SilentKeeps(w: World, u: World)
    requires Scripted(w) && u.log == w.log && u.plans == w.plans
    requires u.tx.Some? ==>
               && w.tx.Some?
               && var x, y := w.tx.value, u.tx.value;
                  && y.t == x.t && y.changes == x.changes && y.expected == x.expected && y.next == x.next
                  && (y.phase == x.phase || (!x.phase.Prevalidating? && (y.phase.WaitingReboot? || y.phase.Verifying?)))
    ensures Scripted(u)
  {
    forall t: nat ensures (t >= |u.plans| ==> Of(u.log, t) == []) && (t < |u.plans| ==> Follows(u.plans[t], t, Of(u.log, t))) {
      assert Of(w.log, t) == Of(u.log, t);
    }
  }

  lemma {:induction false} CompletedKeeps(w: World, status: Status, reported: Option<int>, sent: bool)
    requires Scripted(w)
    ensures Scripted(Completed(w, status, reported, sent))
  {
    if w.tx.Some? {
      if w.tx.value.phase.WaitingReboot? || !status.Ok? {
        SilentKeeps(w, Completed(w, status, reported, sent));
      } else {
        AcknowledgedKeeps(w, reported, sent);
      }
    }
  }

  lemma {:induction false} StepScripted(w: World, e: Event)
    requires Scripted(w) && StartsFresh(w, e)
    ensures Scripted(Step(w, e))
  {
    match e
    case Save(_, _, _) => SaveKeeps(w, e);
    case Start(sent) =>
      if w.tx.Some? && sent {
        SendKeeps(w, Begin(w.tx.value.t, w.tx.value.expected), w.tx.value.(phase := BeginSent), sent);
      } else {
        SilentKeeps(w, Step(w, e));
      }
    case Complete(status, reported, sent) => CompletedKeeps(w, status, reported, sent);
    case _ => SilentKeeps(w, Step(w, e));
  }

  /** Some command is out of its place. */
  ghost predicate Broken(w: World) {
    exists t: nat, i: nat :: t < |w.plans| && i < |Of(w.log, t)| && !AtPlace(w.plans[t], t, i, Of(w.log, t)[i])
  }

  /** Saves and commands are only ever added, at most one command a step. */
  lemma {:induction false} StepAdds(w: World, e: Event)
    ensures var u := Step(w, e); w.plans <= u.plans && (u.log == w.log || (|u.log| == |w.log| + 1 && u.log == w.log + [u.log[|w.log|]]))
  {
  }

  lemma {:induction false} BrokenStays(w: World, e: Event)
    requires Broken(w)
    ensures Broken(Step(w, e))
  {
    var u := Step(w, e);
    var t: nat, i: nat :| t < |w.plans| && i < |Of(w.log, t)| && !AtPlace(w.plans[t], t, i, Of(w.log, t)[i]);
    StepAdds(w, e);
    if u.log != w.log { OfAppend(w.log, u.log[|w.log|], t); }
    assert u.plans[t] == w.plans[t] && Of(u.log, t)[i] == Of(w.log, t)[i];
  }

  /** A grant that finds the transaction started sends BEGIN out of place. */
  lemma {:induction false} StaleStartBreaks(w: World, e: Event)
    requires Scripted(w) && !StartsFresh(w, e)
    ensures Broken(Step(w, e))
  {
    var x, u := w.tx.value, Step(w, e);
    OfAppend(w.log, Begin(x.t, x.expected), x.t);
    var n := |Of(w.log, x.t)|;
    assert n >= 1 && Of(u.log, x.t)[n] == Begin(x.t, x.expected);
    assert !AtPlace(u.plans[x.t], x.t, n, Of(u.log, x.t)[n]);
  }

  lemma {:induction false} FreshLast(run: seq<Event>)
    requires |run| > 0
    ensures var before := run[..|run| - 1]; FreshRun(run) <==> FreshRun(before) && StartsFresh(After(before), run[|run| - 1])
  {
    var before := run[..|run| - 1];
    assert forall k :: 0 <= k < |before| ==> before[..k] == run[..k] && before[k] == run[k];
    if FreshRun(run) {
      forall k | 0 <= k < |before| ensures StartsFresh(After(before[..k]), before[k]) { assert StartsFresh(After(run[..k]), run[k]); }
    }
    if FreshRun(before) && StartsFresh(After(before), run[|run| - 1]) {
      forall k | 0 <= k < |run| ensures StartsFresh(After(run[..k]), run[k]) {
        if k < |before| { assert StartsFresh(After(before[..k]), before[k]); }
      }
    }
  }

  lemma {:induction false} ScriptedOrBroken(run: seq<Event>)
    ensures FreshRun(run) ==> Scripted(After(run))
    ensures !FreshRun(run) ==> Broken(After(run))
  {
    if |run| == 0 {
      assert forall t: nat :: Of(Boot().log, t) == [];
    } else {
      var before, e := run[..|run| - 1], run[|run| - 1];
      ScriptedOrBroken(before);
      FreshLast(run);
      if !FreshRun(before) { BrokenStays(After(before), e); }
      else if !StartsFresh(After(before), e) { StaleStartBreaks(After(before), e); }
      else { StepScripted(After(before), e); }
    }
  }

  /** For every run: the commands submitted for every accepted save are a prefix of BEGIN, SET for each change in order
      with exactly the requested value, COMMIT, CONFIRM, if and only if every lease grant that sent BEGIN found its
      transaction not yet started. */
  lemma {:induction false} CommandsFollowScriptIff(run: seq<Event>)
    ensures Scripted(After(run)) <==> FreshRun(run)
  {
    ScriptedOrBroken(run);
    var w := After(run);
    if !FreshRun(run) {
      var t: nat, i: nat :| t < |w.plans| && i < |Of(w.log, t)| && !AtPlace(w.plans[t], t, i, Of(w.log, t)[i]);
      assert !Follows(w.plans[t], t, Of(w.log, t));
    }
  }

  // ----- success only after read-back

  /** The transaction waits for the device to be read again. */
  ghost predicate Awaiting(w: World) { w.tx.Some? && w.tx.value.phase.WaitingReboot? && w.rec.Some? && w.rec.value.pending }

  /** The read-back that justifies a success: the revision is the expected one and every change of the save is there. */
  ghost predicate Verified(w: World, t: nat) {
    && Awaiting(w) && w.tx.value.t == t < |w.plans|
    && w.rec.value.configRev == w.rec.value.expectedRev
    && w.rec.value.values.Some? && Matches(w.rec.value.values.value, w.plans[t].changes)
  }

  /** The event is a successful completion reporting this revision. */
  predicate Reports(e: Event, rev: nat) { e.Complete? && e.status.Ok? && e.reported.Some? && e.reported.value % WORD == rev }

  /** A revision some successful completion of the run reported. */
  ghost predicate Reported(run: seq<Event>, rev: nat) {
    exists j :: 0 <= j < |run| && Reports(run[j], rev)
  }

  ghost predicate ReadBackAt(run: seq<Event>, k: nat, t: nat) {
    && k < |run| && run[k].Decide? && Verified(After(run[..k]), t)
    && var w := After(run[..k]);
       w.rec.value.expectedRev == (w.plans[t].expected + 1) % WORD || Reported(run[..k], w.rec.value.expectedRev)
  }

  ghost predicate Justified(run: seq<Event>, c: Call) { c.result.Success? ==> exists k: nat :: ReadBackAt(run, k, c.t) }

  /** A revision the transaction works with was reported by the device or is one above the caller's. */
  ghost predicate Revisions(run: seq<Event>) {
    var w := After(run);
    && Linked(w)
    && (w.tx.Some? ==> w.tx.value.newRev == 0 || Reported(run, w.tx.value.newRev))
    && (Awaiting(w) ==>
          w.rec.value.expectedRev == (w.tx.value.expected + 1) % WORD || Reported(run, w.rec.value.expectedRev))
  }

  lemma {:induction false} ReportedGrows(run: seq<Event>, e: Event, rev: nat)
    requires Reported(run, rev)
    ensures Reported(run + [e], rev)
  {
    var j :| 0 <= j < |run| && Reports(run[j], rev);
    assert (run + [e])[j] == run[j];
  }

  lemma {:induction false} AfterAppend(run: seq<Event>, e: Event)
    ensures After(run + [e]) == Step(After(run), e)
  {
    assert (run + [e])[..|run|] == run;
  }

  /** Where the revisions after a step come from. */
  lemma {:induction false} RevisionSources(w: World, e: Event)
    requires Linked(w)
    ensures Linked(Step(w, e))
    ensures var u := Step(w, e); u.tx.Some? ==> u.tx.value.newRev == 0 || (w.tx.Some? && u.tx.value.newRev == w.tx.value.newRev) || Reports(e, u.tx.value.newRev)
    ensures var u := Step(w, e);
            Awaiting(u) ==>
              || (Awaiting(w) && u.rec.value.expectedRev == w.rec.value.expectedRev && u.tx.value.expected == w.tx.value.expected)
              || Reports(e, u.rec.value.expectedRev)
              || u.rec.value.expectedRev == (u.tx.value.expected + 1) % WORD
              || (w.tx.Some? && w.tx.value.newRev != 0 && u.rec.value.expectedRev == w.tx.value.newRev)
  {
  }

  lemma {:induction false} RevisionsStep(run: seq<Event>, e: Event)
    requires Revisions(run)
    ensures Revisions(run + [e])
  {
    AfterAppend(run, e);
    var w, u := After(run), Step(After(run), e);
    RevisionSources(w, e);
    assert (run + [e])[|run|] == e;
    if w.tx.Some? && w.tx.value.newRev != 0 { ReportedGrows(run, e, w.tx.value.newRev); }
    if Awaiting(w) && Reported(run, w.rec.value.expectedRev) { ReportedGrows(run, e, w.rec.value.expectedRev); }
  }

  lemma {:induction false} RevisionsAlways(run: seq<Event>)
    ensures Revisions(run)
  {
    if |run| > 0 {
      RevisionsAlways(run[..|run| - 1]);
      RevisionsStep(run[..|run| - 1], run[|run| - 1]);
      assert run[..|run| - 1] + [run[|run| - 1]] == run;
    }
  }

  lemma {:induction false} JustifiedGrows(run: seq<Event>, e: Event, c: Call)
    requires Justified(run, c)
    ensures Justified(run + [e], c)
  {
    if c.result.Success? {
      var k: nat :| ReadBackAt(run, k, c.t);
      assert (run + [e])[..k] == run[..k] && (run + [e])[k] == run[k];
      assert ReadBackAt(run + [e], k, c.t);
    }
  }

  /** A decided success is justified by the state it was decided in. */
  lemma {:induction false} VerdictJustified(run: seq<Event>)
    requires After(run).verdict.None? && Decided(After(run)).verdict.Some?
    ensures Justified(run + [Decide], Decided(After(run)).verdict.value)
  {
    var w := After(run);
    RevisionsAlways(run);
    if Decided(w).verdict.value.result.Success? {
      assert (run + [Decide])[..|run|] == run && (run + [Decide])[|run|] == Decide;
      assert ReadBackAt(run + [Decide], |run|, w.tx.value.t);
    }
  }

  ghost predicate AllJustified(run: seq<Event>) {
    var w := After(run);
    (forall i :: 0 <= i < |w.calls| ==> Justified(run, w.calls[i])) && (w.verdict.Some? ==> Justified(run, w.verdict.value))
  }

  /** A step adds at most one callback, and outside a delivery never a success. */
  lemma {:induction false} CallsStep(w: World, e: Event)
    ensures var u := Step(w, e);
            || (u.calls == w.calls && (u.verdict == w.verdict || (e.Decide? && w.verdict.None? && u.verdict.Some?)))
            || (|u.calls| == |w.calls| + 1 && u.calls[..|w.calls|] == w.calls && !u.calls[|w.calls|].result.Success? && u.verdict == w.verdict)
            || (w.verdict.Some? && u.calls == w.calls + [w.verdict.value] && u.verdict.None?)
  {
  }

  lemma {:induction false} JustifiedStep(run: seq<Event>, e: Event)
    requires AllJustified(run)
    ensures AllJustified(run + [e])
  {
    AfterAppend(run, e);
    var w, u := After(run), Step(After(run), e);
    CallsStep(w, e);
    if w.verdict.Some? { JustifiedGrows(run, e, w.verdict.value); }
    forall i | 0 <= i < |u.calls| ensures Justified(run + [e], u.calls[i]) {
      if i < |w.calls| { assert u.calls[i] == w.calls[i]; JustifiedGrows(run, e, w.calls[i]); }
    }
    if e.Decide? && w.verdict.None? && u.verdict.Some? { VerdictJustified(run); }
  }

  /** In every run, a success is reported only after a read-back at the expected revision that holds every change of
      the save in type and content; that revision was reported by the device or is one above the caller's. */
  lemma {:induction false} SuccessOnlyAfterReadBack(run: seq<Event>)
    ensures AllJustified(run)
  {
    if |run| > 0 {
      SuccessOnlyAfterReadBack(run[..|run| - 1]);
      JustifiedStep(run[..|run| - 1], run[|run| - 1]);
      assert run[..|run| - 1] + [run[|run| - 1]] == run;
    }
  }

  // ----- reading values back

  datatype ValueFrame = ValueFrame(id: string, value: Value)

  predicate Secret(rules: seq<Rule>, id: string) {
    var k := FirstIndex(rules, RuleOf(id)); k >= 0 && rules[k].secret
  }

  /** The snapshot a stream of accepted frames commits: a secret setting keeps its id but no value. */
  function ReadBack(rules: seq<Rule>, frames: seq<ValueFrame>): (r: seq<Entry>)
    ensures |r| == |frames|
    ensures forall i :: 0 <= i < |r| ==> r[i].id == frames[i].id && r[i].available == !Secret(rules, frames[i].id)
  {
    seq(|frames|, i requires 0 <= i < |frames| =>
      var secret := Secret(rules, frames[i].id);
      Entry(frames[i].id, !secret, if secret then BoolValue(false) else frames[i].value))
  }

  function FrameOf(id: string): ValueFrame -> bool { (f: ValueFrame) => f.id == id }

  /** Exactly which read-backs confirm a change: a change to a secret setting is never confirmed, whatever the device
      stored, and any other change is confirmed exactly when the first frame with its id carries its value. */
  lemma {:induction false} ConfirmedIff(rules: seq<Rule>, frames: seq<ValueFrame>, c: Change)
    requires Prevalidated(rules, c)
    ensures Confirmed(ReadBack(rules, frames), c) <==>
            !Secret(rules, c.id) && var k := FirstIndex(frames, FrameOf(c.id)); k >= 0 && frames[k].value == c.value
  {
    var k := FirstIndex(frames, FrameOf(c.id));
    FirstIndexUnique(ReadBack(rules, frames), EntryOf(c.id), k);
    WireExact(rules, c);
  }

  /** Committed values hide the setting: they are the read-back of some frames under rules that make it secret. */
  ghost predicate Hides(entries: seq<Entry>, id: string) {
    exists rules: seq<Rule>, frames: seq<ValueFrame> :: entries == ReadBack(rules, frames) && Secret(rules, id)
  }

  /** The values a record holds were committed by some event of the run. */
  ghost predicate Committed(run: seq<Event>, entries: seq<Entry>) {
    exists j :: 0 <= j < |run| && run[j].CommitValues? && run[j].entries == entries
  }

  lemma {:induction false} ValuesWereCommitted(run: seq<Event>)
    ensures var w := After(run); w.rec.Some? && w.rec.value.values.Some? ==> Committed(run, w.rec.value.values.value)
  {
    if |run| > 0 {
      var before, e := run[..|run| - 1], run[|run| - 1];
      ValuesWereCommitted(before);
      var w, u := After(before), After(run);
      if u.rec.Some? && u.rec.value.values.Some? && !e.CommitValues? {
        assert w.rec.Some? && w.rec.value.values == u.rec.value.values;
        var j :| 0 <= j < |before| && before[j].CommitValues? && before[j].entries == w.rec.value.values.value;
        assert run[j] == before[j];
      }
    }
  }

  lemma {:induction false} HiddenNotConfirmed(entries: seq<Entry>, c: Change)
    requires Hides(entries, c.id)
    ensures !Confirmed(entries, c)
  {
    var rules: seq<Rule>, frames: seq<ValueFrame> :| entries == ReadBack(rules, frames) && Secret(rules, c.id);
    var k := FirstIndex(entries, EntryOf(c.id));
    if k >= 0 { assert EntryOf(c.id)(entries[k]); }
  }

  /** In every run whose committed values hide a setting, no save that changes the setting is reported as a success. */
  lemma {:induction false} SecretNeverSucceeds(run: seq<Event>, id: string, i: nat)
    requires forall j :: 0 <= j < |run| && run[j].CommitValues? ==> Hides(run[j].entries, id)
    requires i < |After(run).calls| && After(run).calls[i].t < |After(run).plans|
    requires exists c :: c in After(run).plans[After(run).calls[i].t].changes && c.id == id
    ensures !After(run).calls[i].result.Success?
  {
    SuccessOnlyAfterReadBack(run);
    forall k: nat | k < |run| ensures !Verified(After(run[..k]), After(run).calls[i].t) {
      SecretNotVerified(run, k, After(run).calls[i].t, id);
    }
  }

  lemma {:induction false} SecretNotVerified(run: seq<Event>, k: nat, t: nat, id: string)
    requires forall j :: 0 <= j < |run| && run[j].CommitValues? ==> Hides(run[j].entries, id)
    requires k < |run| && t < |After(run).plans| && exists c :: c in After(run).plans[t].changes && c.id == id
    ensures !Verified(After(run[..k]), t)
  {
    var v := After(run[..k]);
    PlansOnlyGrow(run, k);
    ValuesWereCommitted(run[..k]);
    if t < |v.plans| && v.rec.Some? && v.rec.value.values.Some? {
      var entries := v.rec.value.values.value;
      var j :| 0 <= j < |run[..k]| && run[..k][j].CommitValues? && run[..k][j].entries == entries;
      assert run[..k][j] == run[j];
      var c :| c in v.plans[t].changes && c.id == id;
      var n :| 0 <= n < |v.plans[t].changes| && v.plans[t].changes[n] == c;
      HiddenNotConfirmed(entries, c);
    }
  }

  lemma {:induction false} PlansOnlyGrow(run: seq<Event>, k: nat)
    requires k <= |run|
    ensures After(run[..k]).plans <= After(run).plans
    decreases |run|
  {
    if k == |run| {
      assert run[..k] == run;
    } else {
      var before := run[..|run| - 1];
      assert before[..k] == run[..k];
      PlansOnlyGrow(before, k);
    }
  }
}
