/** How a settings save ends: what every answer, link event and read-back does to it, said on the fields of the
    save and of the device's record, and that an undisturbed save succeeds. */
module SettingsOutcomes {
  import opened Basics
  import opened Search
  import opened SettingsTransaction

  // ----- the read-back

  /** The values show the change: the first one with its id is available and the same in type and content. */
  ghost predicate Shown(entries: seq<Entry>, c: Change) {
    exists k :: 0 <= k < |entries| && entries[k].id == c.id && entries[k].available && entries[k].value == c.value && c.value != Bare
                && forall j :: 0 <= j < k ==> entries[j].id != c.id
  }

  ghost predicate AllShownIn(entries: seq<Entry>, changes: seq<Change>) {
    forall i :: 0 <= i < |changes| ==> Shown(entries, changes[i])
  }

  /** The device's schema and values are known and show every change. */
  ghost predicate AllShown(rec: Record, changes: seq<Change>) {
    rec.rules.Some? && rec.values.Some? && AllShownIn(rec.values.value, changes)
  }

  lemma {:induction false} ShownIff(entries: seq<Entry>, c: Change)
    ensures Shown(entries, c) <==> Confirmed(entries, c)
  {
    var k := FirstIndex(entries, EntryOf(c.id));
    if k >= 0 { assert entries[k].id == c.id && forall j :: 0 <= j < k ==> !EntryOf(c.id)(entries[j]); }
    if Shown(entries, c) {
      var m :| 0 <= m < |entries| && entries[m].id == c.id && entries[m].available && entries[m].value == c.value && c.value != Bare
               && forall j :: 0 <= j < m ==> entries[j].id != c.id;
      FirstIndexUnique(entries, EntryOf(c.id), m);
    }
  }

  /** The result a read-back of the awaiting save stands for: success exactly at the expected revision with every change
      shown; a conflict exactly at a revision that is neither the expected nor the old one; a failure otherwise. */
  ghost predicate ReadBackResult(w: World, r: Result)
    requires Awaiting(w)
  {
    var rec := w.rec.value;
    && (r == Success <==> rec.configRev == rec.expectedRev && AllShown(rec, w.tx.value.changes))
    && (r == DeviceConflict <==> rec.configRev != rec.expectedRev && rec.configRev != rec.oldRev)
    && (r == Failed <==> || (rec.configRev == rec.expectedRev && !AllShown(rec, w.tx.value.changes))
                         || (rec.configRev != rec.expectedRev && rec.configRev == rec.oldRev))
  }

  lemma {:induction false} DecidedResult(w: World)
    requires Awaiting(w) && w.verdict.None?
    ensures var u := Step(w, Decide);
            && u.verdict.Some? && u.verdict.value.t == w.tx.value.t && ReadBackResult(w, u.verdict.value.result)
            && u.tx.Some? && u.tx.value.t == w.tx.value.t && u.calls == w.calls && u.log == w.log && u.plans == w.plans
            && u.rec == Some(w.rec.value.(pending := false))
  {
    var rec, changes := w.rec.value, w.tx.value.changes;
    if rec.values.Some? {
      forall i | 0 <= i < |changes| ensures Shown(rec.values.value, changes[i]) <==> Confirmed(rec.values.value, changes[i]) {
        ShownIff(rec.values.value, changes[i]);
      }
    }
  }

  /** A decided outcome stays until it is delivered, whatever happens meanwhile. */
  lemma {:induction false} VerdictStays(run: seq<Event>, more: seq<Event>)
    requires After(run).verdict.Some? && forall i :: 0 <= i < |more| ==> !more[i].Deliver?
    ensures After(run + more).verdict == After(run).verdict
  {
    if |more| == 0 {
      assert run + more == run;
    } else {
      var n := |more| - 1;
      VerdictStays(run, more[..n]);
      assert run + more == run + more[..n] + [more[n]];
      AfterAppend(run + more[..n], more[n]);
    }
  }

  /** In every run the read-back of an awaiting save reports exactly the result its revision and values stand for,
      whatever happens between the decision and the delivery. */
  lemma {:induction false} ReadBackDecides(run: seq<Event>, more: seq<Event>, reused: bool)
    requires Awaiting(After(run)) && After(run).verdict.None? && forall i :: 0 <= i < |more| ==> !more[i].Deliver?
    ensures var w, before, u := After(run), After(run + [Decide] + more), After(run + [Decide] + more + [Deliver(reused)]);
            && |u.calls| == |before.calls| + 1 && u.calls[..|before.calls|] == before.calls && u.verdict.None?
            && u.calls[|before.calls|].t == w.tx.value.t && ReadBackResult(w, u.calls[|before.calls|].result)
  {
    AfterAppend(run, Decide);
    DecidedResult(After(run));
    VerdictStays(run + [Decide], more);
    AfterAppend(run + [Decide] + more, Deliver(reused));
  }

  /** A save whose read-back holds every change at the expected revision is reported as a success and is over. */
  lemma {:induction false} VerifiedSucceeds(run: seq<Event>, t: nat)
    requires Verified(After(run), t) && After(run).rec.value.rules.Some? && After(run).verdict.None?
    ensures var w, u := After(run), After(run + [Decide] + [Deliver(false)]);
            && u.calls == w.calls + [Call(t, Success)] && u.tx.None? && u.verdict.None?
            && u.plans == w.plans && u.log == w.log && u.rec == Some(w.rec.value.(pending := false))
  {
    var w := After(run);
    AfterAppend(run, Decide);
    AfterAppend(run + [Decide], Deliver(false));
    RevisionsAlways(run);
    DecidedResult(w);
    forall i | 0 <= i < |w.tx.value.changes| ensures Shown(w.rec.value.values.value, w.tx.value.changes[i]) {
      ShownIff(w.rec.value.values.value, w.tx.value.changes[i]);
      assert Confirmed(w.rec.value.values.value, w.plans[t].changes[i]);
    }
  }

  // ----- which saves start

  /** The numbers a rule allows are low, low + step, low + 2 step and so on up to high; step 0 allows every number. */
  lemma {:induction false} AllowedNumbers(r: Rule, n: int)
    ensures Allows(r, IntValue(n)) <==>
              r.writable && r.kind == Int && r.low <= n <= r.high && (r.step == 0 || exists m: nat :: n == r.low + m * r.step)
  {
    if r.step != 0 {
      if m: nat :| n == r.low + m * r.step { MultipleRest(m, r.step); }
      if r.low <= n && (n - r.low) % r.step == 0 {
        var m: nat := (n - r.low) / r.step;
        assert n == r.low + m * r.step;
      }
    }
  }

  lemma {:induction false} MultipleRest(m: nat, d: nat)
    requires d > 0
    ensures (m * d) % d == 0
  {
    var q, r := m * d / d, m * d % d;
    assert (m - q) * d == r && (q - m) * d == -r;
    if m > q { AtLeastOne(m - q, d); }
    if m < q { AtLeastOne(q - m, d); }
  }

  lemma {:induction false} AtLeastOne(a: nat, d: nat)
    requires a >= 1
    ensures a * d >= d
  {
    assert a * d == (a - 1) * d + d;
  }

  /** A writable setting takes any flag, an option of its own, or a text of at most 63 characters and at most its own
      limit; a read-only setting and a value of another type take nothing. */
  lemma {:induction false} AllowedValues(r: Rule, v: Value)
    ensures v.BoolValue? ==> (Allows(r, v) <==> r.writable && r.kind == Bool)
    ensures v.EnumValue? ==> (Allows(r, v) <==> r.writable && r.kind == Enum && exists o :: o in r.options && o == v.code)
    ensures v.TextValue? ==>
              (Allows(r, v) <==> r.writable && r.kind == Text && |v.text| <= 63 && (r.maxLength == 0 || |v.text| <= r.maxLength))
    ensures v.Bare? ==> !Allows(r, v)
  {
    if v.EnumValue? {
      if o :| o in r.options && o == v.code {
        var i :| 0 <= i < |r.options| && r.options[i] == o;
        assert r.options[i] == v.code;
      }
      if i :| 0 <= i < |r.options| && r.options[i] == v.code { assert r.options[i] in r.options; }
    }
  }

  /** The first rule with the change's id allows its value. */
  ghost predicate Ruled(rules: seq<Rule>, c: Change) {
    c.id != "" && exists k :: 0 <= k < |rules| && rules[k].id == c.id && Allows(rules[k], c.value) && forall j :: 0 <= j < k ==> rules[j].id != c.id
  }

  lemma {:induction false} RuledIff(rules: seq<Rule>, c: Change)
    ensures Ruled(rules, c) <==> Prevalidated(rules, c)
  {
    var k := FirstIndex(rules, RuleOf(c.id));
    if k >= 0 { assert rules[k].id == c.id && forall j :: 0 <= j < k ==> !RuleOf(c.id)(rules[j]); }
    if Ruled(rules, c) {
      var m :| 0 <= m < |rules| && rules[m].id == c.id && Allows(rules[m], c.value) && forall j :: 0 <= j < m ==> rules[j].id != c.id;
      FirstIndexUnique(rules, RuleOf(c.id), m);
    }
  }

  /** A save starts exactly when it has 1 to 16 changes, the device has no save under way, its schema is ready, every
      change obeys its rule and the start could be queued. It then waits for its lease; otherwise nothing changes. */
  lemma {:induction false} SaveEffect(w: World, changes: seq<Change>, expected: nat, queued: bool)
    ensures var u := Step(w, Save(changes, expected, queued));
            var starts := && 1 <= |changes| <= 16 && w.tx.None? && w.rec.Some? && w.rec.value.ready && w.rec.value.rules.Some? && queued
                          && forall i :: 0 <= i < |changes| ==> Ruled(w.rec.value.rules.value, changes[i]);
            && (starts ==> && u.tx == Some(Tx(|w.plans|, changes, expected, 0, 0, Prevalidating))
                           && u.plans == w.plans + [Plan(changes, expected)]
                           && u.rec == w.rec && u.verdict == w.verdict && u.log == w.log && u.calls == w.calls)
            && (!starts ==> u == w)
  {
    if w.rec.Some? && w.rec.value.rules.Some? {
      forall i | 0 <= i < |changes| ensures Ruled(w.rec.value.rules.value, changes[i]) <==> Prevalidated(w.rec.value.rules.value, changes[i]) {
        RuledIff(w.rec.value.rules.value, changes[i]);
      }
    }
  }

  // ----- what ends a save

  /** The save was reported with this result and is over; nothing was sent. */
  ghost predicate EndsWith(w: World, u: World, r: Result) {
    && w.tx.Some? && u.tx.None? && u.calls == w.calls + [Call(w.tx.value.t, r)]
    && u.log == w.log && u.plans == w.plans && u.rec == w.rec && u.verdict == w.verdict
  }

  /** The save waits for the device to come back: nothing was sent or reported, and the record remembers the revision
      the device reported, or the caller's plus one, and the caller's. */
  ghost predicate Waits(w: World, u: World) {
    && w.tx.Some? && u.tx == Some(w.tx.value.(phase := WaitingReboot))
    && u.calls == w.calls && u.log == w.log && u.plans == w.plans && u.verdict == w.verdict
    && u.rec.Some? == w.rec.Some?
    && (w.rec.Some? ==>
          && u.rec.value.pending && u.rec.value.oldRev == w.tx.value.expected
          && u.rec.value.expectedRev == (if w.tx.value.newRev != 0 then w.tx.value.newRev else (w.tx.value.expected + 1) % 0x1_0000_0000)
          && u.rec.value.rules == w.rec.value.rules && u.rec.value.values == w.rec.value.values
          && u.rec.value.ready == w.rec.value.ready && u.rec.value.configRev == w.rec.value.configRev)
  }

  predicate MayHaveCommitted(p: Phase) { p == CommitSent || p == ConfirmSent }

  /** A command that fails ends the save: a rejected BEGIN is a conflict, a rejected or busy later command a rejection, a
      cancelled one a cancellation, an unexpected answer an internal error. A timeout or a lost link ends it too, unless
      the commit may have happened: then the save waits for the device. */
  lemma {:induction false} FailureEffect(w: World, status: Status, reported: Option<int>, sent: bool)
    requires w.tx.Some? && w.tx.value.phase != WaitingReboot && status != Ok
    ensures var u, p := Step(w, Complete(status, reported, sent)), w.tx.value.phase;
            && (status == Rejected && p == BeginSent ==> EndsWith(w, u, DeviceConflict))
            && (status == Rejected && p != BeginSent ==> EndsWith(w, u, DeviceRejected))
            && (status == Busy ==> EndsWith(w, u, DeviceRejected))
            && (status == StatusCancelled ==> EndsWith(w, u, Cancelled))
            && (status == Unexpected ==> EndsWith(w, u, Internal))
            && (status == TimedOut && !MayHaveCommitted(p) ==> EndsWith(w, u, Timeout))
            && (status == NotConnected && !MayHaveCommitted(p) ==> EndsWith(w, u, Disconnected))
            && ((status == TimedOut || status == NotConnected) && MayHaveCommitted(p) ==> Waits(w, u))
  {
  }

  /** The save sent one more command and is now in this phase; nothing was reported. */
  ghost predicate Sends(w: World, u: World, c: Cmd, x: Tx) {
    w.tx.Some? && u == w.(tx := Some(x), log := w.log + [c])
  }

  /** A granted lease sends BEGIN, or ends the save when BEGIN cannot be queued. */
  lemma {:induction false} StartEffect(w: World)
    ensures w.tx.Some? ==> Sends(w, Step(w, Start(true)), Begin(w.tx.value.t, w.tx.value.expected), w.tx.value.(phase := BeginSent))
    ensures w.tx.Some? ==> EndsWith(w, Step(w, Start(false)), Internal)
    ensures w.tx.None? ==> Step(w, Start(true)) == w && Step(w, Start(false)) == w
  {
  }

  /** An acknowledged BEGIN or SET sends the next SET, or COMMIT after the last; an acknowledged COMMIT sends CONFIRM with
      the revision reported; an acknowledged CONFIRM makes the save wait. A command that cannot be queued, or a schema that
      is gone, ends the save with an internal error. */
  lemma {:induction false} AckEffect(w: World, reported: Option<int>, sent: bool)
    requires w.tx.Some? && w.tx.value.phase != WaitingReboot
    ensures var u, x := Step(w, Complete(Ok, reported, sent)), w.tx.value;
            var i := if x.phase == BeginSent then x.next else x.next + 1;
            var setting := x.phase == BeginSent || x.phase == SetSent;
            var known := w.rec.Some? && w.rec.value.rules.Some?;
            && (setting && known && sent && i < |x.changes| ==>
                  Sends(w, u, Set(x.t, x.changes[i].id, Wire(x.changes[i].value)), x.(next := i, phase := SetSent)))
            && (setting && known && sent && i >= |x.changes| ==> Sends(w, u, Commit(x.t), x.(next := i, phase := CommitSent)))
            && (x.phase == CommitSent && sent ==>
                  var rev := if reported.Some? then reported.value % 0x1_0000_0000 else x.newRev;
                  Sends(w, u, Confirm(x.t, rev), x.(newRev := rev, phase := ConfirmSent)))
            && ((setting && !known) || ((setting || x.phase == CommitSent) && !sent) ==> EndsWith(w, u, Internal))
            && (x.phase == ConfirmSent ==> Waits(w, u))
            && (x.phase == Prevalidating || x.phase == Verifying ==> u == w)
  {
  }

  /** While the save waits for the device a late answer ends nothing; an OK with a revision replaces the one expected. */
  lemma {:induction false} LateAnswerEffect(w: World, status: Status, reported: Option<int>, sent: bool)
    requires w.tx.Some? && w.tx.value.phase == WaitingReboot
    ensures var u := Step(w, Complete(status, reported, sent));
            && u.tx.Some? && u.tx.value.t == w.tx.value.t && u.tx.value.phase == WaitingReboot
            && u.calls == w.calls && u.log == w.log && u.plans == w.plans && u.verdict == w.verdict
            && (status == Ok && reported.Some? && w.rec.Some? ==>
                  u.rec == Some(w.rec.value.(expectedRev := reported.value % 0x1_0000_0000)))
            && (status != Ok || reported.None? ==> u == w)
  {
  }

  /** An abort cancels the save. The timer ends a waiting save as unknown and cancels any other. A lost link cancels a save
      that cannot have committed, leaves a waiting one alone and makes any other wait. Without a save nothing happens. */
  lemma {:induction false} InterruptEffect(w: World)
    ensures w.tx.None? ==> Step(w, Abort) == w && Step(w, TimerFired) == w && Step(w, LinkLost) == w
    ensures w.tx.Some? ==> EndsWith(w, Step(w, Abort), Cancelled)
    ensures w.tx.Some? ==> EndsWith(w, Step(w, TimerFired), if w.tx.value.phase == WaitingReboot then OutcomeUnknown else Cancelled)
    ensures w.tx.Some? && MayHaveCommitted(w.tx.value.phase) ==> Waits(w, Step(w, LinkLost))
    ensures w.tx.Some? && w.tx.value.phase == WaitingReboot ==> Step(w, LinkLost) == w
    ensures w.tx.Some? && !MayHaveCommitted(w.tx.value.phase) && w.tx.value.phase != WaitingReboot ==>
              EndsWith(w, Step(w, LinkLost), Cancelled)
  {
  }

  /** What the device tells about itself goes to its record and to nothing else: a capability creates the record or says
      whether a known schema may be used, a schema makes it ready, values come with their revision, forgetting drops it. */
  lemma {:induction false} RecordEffect(w: World, ready: bool, rules: seq<Rule>, entries: seq<Entry>, revision: nat)
    ensures var u := Step(w, Advertise(ready));
            && u == w.(rec := u.rec) && u.rec.Some?
            && (w.rec.None? ==> u.rec.value == Record(None, false, None, 0, false, 0, 0))
            && (w.rec.Some? ==> u.rec.value == w.rec.value.(ready := ready && w.rec.value.rules.Some?))
    ensures w.rec.Some? ==> Step(w, CommitSchema(rules)) == w.(rec := Some(w.rec.value.(rules := Some(rules), ready := true)))
    ensures w.rec.Some? ==> Step(w, CommitValues(entries, revision)) == w.(rec := Some(w.rec.value.(values := Some(entries), configRev := revision)))
    ensures w.rec.None? ==> Step(w, CommitSchema(rules)) == w && Step(w, CommitValues(entries, revision)) == w
    ensures Step(w, Forget) == w.(rec := None)
  {
  }

  // ----- an undisturbed save

  function Okay(reported: Option<int>): Event { Complete(Ok, reported, true) }

  function Okays(n: nat): seq<Event> { Repeat(n, Okay(None)) }

  /** The SETs of the first k changes. */
  function SetCmds(t: nat, changes: seq<Change>, k: nat): (r: seq<Cmd>)
    requires k <= |changes|
    ensures |r| == k && forall i :: 0 <= i < k ==> r[i] == Set(t, changes[i].id, changes[i].value)
  {
    seq(k, i requires 0 <= i < k => Set(t, changes[i].id, changes[i].value))
  }

  lemma {:induction false} OkayMore(run: seq<Event>, n: nat)
    ensures After(run + Okays(n + 1)) == Step(After(run + Okays(n)), Okay(None))
  {
    assert Okays(n + 1) == Okays(n) + [Okay(None)];
    assert run + Okays(n + 1) == run + Okays(n) + [Okay(None)];
    AfterAppend(run + Okays(n), Okay(None));
  }

  /** The wire carries the values as they are. */
  ghost predicate Plain(changes: seq<Change>) { forall i :: 0 <= i < |changes| ==> Wire(changes[i].value) == changes[i].value }

  ghost predicate Ready(w: World) { w.rec.Some? && w.rec.value.rules.Some? }

  /** After BEGIN and k + 1 acknowledgements the first k + 1 SETs are out, or all of them and COMMIT. */
  lemma {:induction false} SetsGoOut(run: seq<Event>, k: nat)
    requires var w := After(run); w.tx.Some? && w.tx.value.phase == BeginSent && w.tx.value.next == 0 && Ready(w)
                                  && k <= |w.tx.value.changes| && 1 <= |w.tx.value.changes| && Plain(w.tx.value.changes)
    ensures var w, u := After(run), After(run + Okays(k + 1)); var x := w.tx.value;
            if k < |x.changes|
            then u == w.(tx := Some(x.(next := k, phase := SetSent)), log := w.log + SetCmds(x.t, x.changes, k + 1))
            else u == w.(tx := Some(x.(next := k, phase := CommitSent)), log := w.log + SetCmds(x.t, x.changes, k) + [Commit(x.t)])
  {
    var w := After(run);
    var x := w.tx.value;
    OkayMore(run, k);
    if k == 0 {
      assert run + Okays(0) == run;
      assert SetCmds(x.t, x.changes, 1) == [Set(x.t, x.changes[0].id, x.changes[0].value)];
    } else {
      SetsGoOut(run, k - 1);
      NextSet(w, After(run + Okays(k)), k);
    }
  }

  /** One acknowledged SET leads to the next, or to COMMIT. */
  lemma {:induction false} NextSet(w: World, v: World, k: nat)
    requires w.tx.Some? && Ready(w) && Plain(w.tx.value.changes) && 1 <= k <= |w.tx.value.changes|
    requires var x := w.tx.value; v == w.(tx := Some(x.(next := k - 1, phase := SetSent)), log := w.log + SetCmds(x.t, x.changes, k))
    ensures var u, x := Step(v, Okay(None)), w.tx.value;
            if k < |x.changes|
            then u == w.(tx := Some(x.(next := k, phase := SetSent)), log := w.log + SetCmds(x.t, x.changes, k + 1))
            else u == w.(tx := Some(x.(next := k, phase := CommitSent)), log := w.log + SetCmds(x.t, x.changes, k) + [Commit(x.t)])
  {
    var x := w.tx.value;
    if k < |x.changes| {
      var c := Set(x.t, x.changes[k].id, x.changes[k].value);
      assert SetCmds(x.t, x.changes, k + 1) == SetCmds(x.t, x.changes, k) + [c];
      assert w.log + SetCmds(x.t, x.changes, k) + [c] == w.log + SetCmds(x.t, x.changes, k + 1);
    }
  }

  /** The revision the device reported with its commit, and the one the read-back is held to. */
  function RevisionOf(reported: Option<int>): nat { if reported.Some? then reported.value % WORD else 0 }
  function HeldTo(expected: nat, reported: Option<int>): nat {
    if RevisionOf(reported) != 0 then RevisionOf(reported) else (expected + 1) % WORD
  }

  /** A save whose lease is granted, whose device acknowledges BEGIN, every SET, COMMIT and CONFIRM. */
  function Acknowledgements(n: nat, reported: Option<int>): seq<Event> {
    [Start(true)] + Okays(n + 1) + [Okay(reported)] + [Okay(None)]
  }

  lemma {:induction false} AcknowledgedWaits(run: seq<Event>, reported: Option<int>)
    requires var w := After(run); w.tx.Some? && w.tx.value.phase == Prevalidating && w.tx.value.next == 0 && w.tx.value.newRev == 0
                                  && Ready(w) && 1 <= |w.tx.value.changes| && Plain(w.tx.value.changes)
    ensures var w := After(run); var x := w.tx.value;
            var u := After(run + Acknowledgements(|x.changes|, reported));
            && u.tx == Some(x.(next := |x.changes|, newRev := RevisionOf(reported), phase := WaitingReboot))
            && u.rec == Some(w.rec.value.(pending := true, expectedRev := HeldTo(x.expected, reported), oldRev := x.expected))
            && u.log == w.log + [Begin(x.t, x.expected)] + SetCmds(x.t, x.changes, |x.changes|) + [Commit(x.t)]
                        + [Confirm(x.t, RevisionOf(reported))]
            && u.calls == w.calls && u.plans == w.plans && u.verdict == w.verdict
  {
    var w := After(run);
    var x, n := w.tx.value, |w.tx.value.changes|;
    var r1 := run + [Start(true)];
    AfterAppend(run, Start(true));
    SetsGoOut(r1, n);
    var r2 := r1 + Okays(n + 1);
    AfterAppend(r2, Okay(reported));
    AfterAppend(r2 + [Okay(reported)], Okay(None));
    assert run + Acknowledgements(n, reported) == r2 + [Okay(reported)] + [Okay(None)];
  }

  /** The whole life of an undisturbed save: it starts, is acknowledged, and the device reads back at the revision. */
  function Life(changes: seq<Change>, expected: nat, reported: Option<int>, entries: seq<Entry>): seq<Event> {
    [Save(changes, expected, true)] + Acknowledgements(|changes|, reported)
    + [CommitValues(entries, HeldTo(expected, reported))] + [Decide] + [Deliver(false)]
  }

  /** A transaction awaiting the reboot whose device reads back every change at the revision it is held to succeeds. */
  lemma {:induction false} ReadBackSucceeds(run: seq<Event>, entries: seq<Entry>)
    requires var w := After(run); Awaiting(w) && w.verdict.None? && w.rec.value.rules.Some?
                                  && w.tx.value.t < |w.plans| && AllShownIn(entries, w.plans[w.tx.value.t].changes)
    ensures var w := After(run); var u := After(run + [CommitValues(entries, w.rec.value.expectedRev)] + [Decide] + [Deliver(false)]);
            u.calls == w.calls + [Call(w.tx.value.t, Success)] && u.tx.None? && u.plans == w.plans && u.log == w.log
  {
    var w := After(run);
    var t, changes := w.tx.value.t, w.plans[w.tx.value.t].changes;
    var more := run + [CommitValues(entries, w.rec.value.expectedRev)];
    AfterAppend(run, CommitValues(entries, w.rec.value.expectedRev));
    forall i | 0 <= i < |changes| ensures Confirmed(entries, changes[i]) { ShownIff(entries, changes[i]); }
    assert Verified(After(more), t);
    VerifiedSucceeds(more, t);
  }

  /** From every state a run reaches, a save that may start, whose device acknowledges every command and reads back every
      change, sends exactly BEGIN, a SET per change in order, COMMIT and CONFIRM, and is reported as a success once. */
  lemma {:induction false} UndisturbedSaveSucceeds(run: seq<Event>, changes: seq<Change>, expected: nat, reported: Option<int>, entries: seq<Entry>)
    requires SaveAccepted(After(run), changes, true) && After(run).verdict.None?
    requires AllShownIn(entries, changes)
    ensures var w, u := After(run), After(run + Life(changes, expected, reported, entries)); var t := |w.plans|;
            && u.calls == w.calls + [Call(t, Success)] && u.tx.None? && u.plans == w.plans + [Plan(changes, expected)]
            && u.log == w.log + [Begin(t, expected)] + SetCmds(t, changes, |changes|) + [Commit(t)] + [Confirm(t, RevisionOf(reported))]
  {
    var w := After(run);
    var r1 := run + [Save(changes, expected, true)];
    AfterAppend(run, Save(changes, expected, true));
    forall i | 0 <= i < |changes| ensures Wire(changes[i].value) == changes[i].value { WireExact(w.rec.value.rules.value, changes[i]); }
    AcknowledgedWaits(r1, reported);
    var r2 := r1 + Acknowledgements(|changes|, reported);
    ReadBackSucceeds(r2, entries);
    assert run + Life(changes, expected, reported, entries)
           == r2 + [CommitValues(entries, HeldTo(expected, reported))] + [Decide] + [Deliver(false)];
  }
}
