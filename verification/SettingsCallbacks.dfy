/** Callbacks of settings saves: exactly when every accepted save is called back once. */
module SettingsCallbacks {
  import opened Basics
  import opened Search
  import opened SettingsTransaction
  import opened SettingsOutcomes

  function CallsFor(calls: seq<Call>, t: nat): nat {
    if |calls| == 0 then 0 else CallsFor(calls[..|calls| - 1], t) + if calls[|calls| - 1].t == t then 1 else 0
  }

  lemma {:induction false} CallsForAppend(calls: seq<Call>, c: Call, t: nat)
    ensures CallsFor(calls + [c], t) == CallsFor(calls, t) + if c.t == t then 1 else 0
  {
    assert (calls + [c])[..|calls|] == calls;
  }

  ghost predicate Active(w: World, t: nat) { w.tx.Some? && w.tx.value.t == t }

  ghost predicate Count(w: World, t: nat) { CallsFor(w.calls, t) == if t < |w.plans| && !Active(w, t) then 1 else 0 }

  /** Every accepted save has been answered once, or is still active and unanswered. */
  ghost predicate AnsweredOnce(w: World) {
    Linked(w) && (forall t: nat :: Count(w, t)) && (w.verdict.Some? ==> Active(w, w.verdict.value.t))
  }

  /** The guard of the branches that end the active transaction. */
  predicate Ends(w: World, e: Event) {
    w.tx.Some? &&
    var p := w.tx.value.phase;
    match e
    case Abort => true
    case TimerFired => true
    case Start(sent) => !sent
    case LinkLost => !Committing(p) && !p.WaitingReboot?
    case Complete(status, _, sent) =>
      !p.WaitingReboot? &&
      (match status
       case Ok => || ((p.BeginSent? || p.SetSent?) && (!sent || w.rec.None? || w.rec.value.rules.None?))
                  || (p.CommitSent? && !sent)
       case TimedOut => !Committing(p)
       case NotConnected => !Committing(p)
       case _ => true)
    case _ => false
  }

  /** The step ends the active transaction although its read-back outcome is already decided. */
  predicate Overtakes(w: World, e: Event) { w.verdict.Some? && Ends(w, e) }

  /** The step spoils the count: it overtakes a verdict, or frees an active transaction without a callback. */
  predicate Disturbs(w: World, e: Event) { Overtakes(w, e) || (e.Evict? && w.tx.Some? && w.verdict.None?) }

  ghost predicate Undisturbed(run: seq<Event>) { forall k :: 0 <= k < |run| ==> !Disturbs(After(run[..k]), run[k]) }

  lemma {:induction false} FinishAnswers(w: World, r: Result)
    requires AnsweredOnce(w) && w.tx.Some? && w.verdict.None?
    ensures AnsweredOnce(Finish(w, r))
  {
    forall t: nat ensures Count(Finish(w, r), t) {
      assert Count(w, t);
      CallsForAppend(w.calls, Call(w.tx.value.t, r), t);
    }
  }

  lemma {:induction false} DeliverAnswers(w: World, reused: bool)
    requires AnsweredOnce(w)
    ensures AnsweredOnce(Delivered(w, reused))
  {
    if w.verdict.Some? {
      forall t: nat ensures Count(Delivered(w, reused), t) {
        assert Count(w, t);
        CallsForAppend(w.calls, w.verdict.value, t);
      }
    }
  }

  lemma {:induction false} SaveAnswers(w: World, e: Event)
    requires AnsweredOnce(w) && e.Save?
    ensures AnsweredOnce(Step(w, e))
  {
    forall t: nat ensures Count(Step(w, e), t) { assert Count(w, t); }
  }

  /** A step that does not end the transaction leaves the callbacks and the transaction's identity alone. */
  ghost predicate Neutral(w: World, u: World) {
    && u.calls == w.calls && u.plans == w.plans && u.tx.Some? == w.tx.Some?
    && (w.tx.Some? ==> u.tx.value.t == w.tx.value.t && u.tx.value.changes == w.tx.value.changes && u.tx.value.expected == w.tx.value.expected)
    && (u.verdict == w.verdict || (w.verdict.None? && u.verdict.Some? && Active(w, u.verdict.value.t)))
  }

  lemma {:induction false} NeutralAnswers(w: World, u: World)
    requires AnsweredOnce(w) && Neutral(w, u)
    ensures AnsweredOnce(u)
  {
    forall t: nat ensures Count(u, t) { assert Count(w, t); }
  }

  ghost predicate Ended(w: World, u: World) { w.tx.Some? && exists r :: u.(rec := w.rec) == Finish(w, r) }

  predicate Ordinary(e: Event) { !e.Save? && !e.Deliver? && !e.Evict? }

  /** Every other step either ends the transaction, exactly when its guard says so, or leaves the callbacks alone. */
  lemma {:induction false} StepShape(w: World, e: Event)
    requires Ordinary(e)
    ensures !Ends(w, e) ==> Neutral(w, Step(w, e))
    ensures Ends(w, e) ==> Ended(w, Step(w, e))
  {
    if Ends(w, e) {
      var u := Step(w, e);
      assert u.(rec := w.rec) == Finish(w, u.calls[|w.calls|].result);
    }
  }

  lemma {:induction false} StepAnswers(w: World, e: Event)
    requires AnsweredOnce(w) && !Disturbs(w, e)
    ensures AnsweredOnce(Step(w, e))
  {
    var u := Step(w, e);
    if e.Save? { SaveAnswers(w, e); }
    else if e.Deliver? { DeliverAnswers(w, e.reused); }
    else if e.Evict? { assert u == w; }
    else {
      StepShape(w, e);
      if !Ends(w, e) { NeutralAnswers(w, u); }
      else {
        var r :| u.(rec := w.rec) == Finish(w, r);
        FinishAnswers(w, r);
        NeutralAnswers(Finish(w, r), u);
      }
    }
  }

  // ----- a disturbed count never recovers

  /** Save t is, or by the pending delivery will be, answered twice. */
  ghost predicate Doubled(w: World, t: nat) {
    CallsFor(w.calls, t) >= 2 || (CallsFor(w.calls, t) >= 1 && w.verdict.Some? && w.verdict.value.t == t)
  }

  /** Save t is gone and nobody will answer it. */
  ghost predicate Lost(w: World, t: nat) {
    t < |w.plans| && !Active(w, t) && CallsFor(w.calls, t) == 0 && !(w.verdict.Some? && w.verdict.value.t == t)
  }

  ghost predicate Spoiled(w: World) { exists t: nat :: Doubled(w, t) || Lost(w, t) }

  /** What any step adds to the callbacks: nothing, one for the active transaction, or the decided one. */
  lemma {:induction false} CallsAdded(w: World, e: Event)
    ensures var u := Step(w, e);
            || (u.calls == w.calls && (u.verdict == w.verdict || (w.verdict.None? && u.verdict.Some? && Active(w, u.verdict.value.t))))
            || (w.tx.Some? && u.verdict == w.verdict && u.tx.None? && exists r :: u.calls == w.calls + [Call(w.tx.value.t, r)])
            || (w.verdict.Some? && u.calls == w.calls + [w.verdict.value] && u.verdict.None?)
  {
    var u := Step(w, e);
    if Ordinary(e) {
      StepShape(w, e);
      if Ends(w, e) {
        var r :| u.(rec := w.rec) == Finish(w, r);
        assert u.calls == w.calls + [Call(w.tx.value.t, r)];
      }
    }
  }

  /** A transaction that is not active is never active again, and its save stays accepted. */
  lemma {:induction false} Retired(w: World, e: Event, t: nat)
    requires Linked(w) && t < |w.plans| && !Active(w, t)
    ensures t < |Step(w, e).plans| && !Active(Step(w, e), t)
  {
    if Ordinary(e) { StepShape(w, e); }
  }

  lemma {:induction false} SpoiledStays(w: World, e: Event)
    requires Linked(w) && Spoiled(w)
    ensures Spoiled(Step(w, e))
  {
    var u := Step(w, e);
    var t: nat :| Doubled(w, t) || Lost(w, t);
    CallsAdded(w, e);
    if |u.calls| == |w.calls| + 1 {
      assert u.calls == w.calls + [u.calls[|w.calls|]];
      CallsForAppend(w.calls, u.calls[|w.calls|], t);
    }
    if Lost(w, t) {
      Retired(w, e, t);
      assert Lost(u, t);
    } else {
      assert Doubled(u, t);
    }
  }

  lemma {:induction false} DisturbedSpoils(w: World, e: Event)
    requires AnsweredOnce(w) && Disturbs(w, e)
    ensures Spoiled(Step(w, e))
  {
    var t, u := w.tx.value.t, Step(w, e);
    assert Count(w, t);
    if Overtakes(w, e) {
      StepShape(w, e);
      var r :| u.(rec := w.rec) == Finish(w, r);
      CallsForAppend(w.calls, Call(t, r), t);
      assert Doubled(u, t);
    } else {
      assert Lost(u, t);
    }
  }

  lemma {:induction false} LinkedAlways(run: seq<Event>)
    ensures Linked(After(run))
  {
    RevisionsAlways(run);
  }

  lemma {:induction false} CountOrSpoiled(run: seq<Event>)
    ensures Undisturbed(run) ==> AnsweredOnce(After(run))
    ensures !Undisturbed(run) ==> Spoiled(After(run))
  {
    if |run| == 0 {
      forall t: nat ensures Count(Boot(), t) {}
    } else {
      var before, e := run[..|run| - 1], run[|run| - 1];
      CountOrSpoiled(before);
      LinkedAlways(before);
      assert Undisturbed(run) <==> Undisturbed(before) && !Disturbs(After(before), e) by { UndisturbedLast(run); }
      if !Undisturbed(before) { SpoiledStays(After(before), e); }
      else if Disturbs(After(before), e) { DisturbedSpoils(After(before), e); }
      else { StepAnswers(After(before), e); }
    }
  }

  lemma {:induction false} UndisturbedLast(run: seq<Event>)
    requires |run| > 0
    ensures var before := run[..|run| - 1]; Undisturbed(run) <==> Undisturbed(before) && !Disturbs(After(before), run[|run| - 1])
  {
    var before := run[..|run| - 1];
    assert forall k :: 0 <= k < |before| ==> before[..k] == run[..k] && before[k] == run[k];
    if Undisturbed(run) {
      forall k | 0 <= k < |before| ensures !Disturbs(After(before[..k]), before[k]) { assert !Disturbs(After(run[..k]), run[k]); }
    }
    if Undisturbed(before) && !Disturbs(After(before), run[|run| - 1]) {
      forall k | 0 <= k < |run| ensures !Disturbs(After(run[..k]), run[k]) {
        if k < |before| { assert !Disturbs(After(before[..k]), before[k]); }
      }
    }
  }

  /** For every run that leaves no decided read-back undelivered: every accepted save has been called back exactly once or
      is the active transaction, if and only if no step of the run ended a transaction whose read-back was already
      decided and none freed an active transaction for another device. */
  lemma {:induction false} OneCallbackPerSaveIff(run: seq<Event>)
    requires After(run).verdict.None?
    ensures AnsweredOnce(After(run)) <==> Undisturbed(run)
  {
    CountOrSpoiled(run);
    var w := After(run);
    if !Undisturbed(run) {
      var t: nat :| Doubled(w, t) || Lost(w, t);
      assert !Count(w, t);
    }
  }

  /** Whenever a run awaits the reboot of an unread device, the reconciliation timer may fire between the decision and
      the delivery, and the save is then answered twice: by the timer and with the result of the read-back. */
  lemma {:induction false} TimerOvertakesVerdict(run: seq<Event>)
    requires Awaiting(After(run)) && After(run).verdict.None?
    ensures var w, u := After(run), After(run + [Decide] + [TimerFired] + [Deliver(false)]);
            && |u.calls| == |w.calls| + 2 && u.calls[..|w.calls|] == w.calls
            && u.calls[|w.calls|] == Call(w.tx.value.t, if w.rec.value.configRev == w.rec.value.expectedRev then Cancelled else OutcomeUnknown)
            && u.calls[|w.calls| + 1].t == w.tx.value.t && ReadBackResult(w, u.calls[|w.calls| + 1].result)
  {
    AfterAppend(run, Decide);
    AfterAppend(run + [Decide], TimerFired);
    AfterAppend(run + [Decide] + [TimerFired], Deliver(false));
    DecidedResult(After(run));
  }

  /** And such runs exist: one change, acknowledged all the way. */
  lemma {:induction false} RebootIsReached() returns (run: seq<Event>)
    ensures Awaiting(After(run)) && After(run).verdict.None?
  {
    var c, rules := Change("a", BoolValue(true)), [Rule("a", Bool, true, false, 0, 0, 0, 0, [])];
    assert FirstIndex(rules, RuleOf("a")) == 0 by { assert RuleOf("a")(rules[0]); }
    assert Prevalidated(rules, c);
    run := [Advertise(true)] + [CommitSchema(rules)] + [Save([c], 5, true)];
    AfterAppend([], Advertise(true));
    assert [] + [Advertise(true)] == [Advertise(true)];
    assert After([Advertise(true)]).rec == Some(Record(None, false, None, 0, false, 0, 0)) && After([Advertise(true)]).tx.None?;
    AfterAppend([Advertise(true)], CommitSchema(rules));
    assert After([Advertise(true)] + [CommitSchema(rules)]).rec == Some(Record(Some(rules), true, None, 0, false, 0, 0));
    AfterAppend([Advertise(true)] + [CommitSchema(rules)], Save([c], 5, true));
    var w := After(run);
    assert w.tx == Some(Tx(0, [c], 5, 0, 0, Prevalidating)) && w.rec == Some(Record(Some(rules), true, None, 0, false, 0, 0)) && w.verdict.None?;
    run := Driven(run, c, rules);
  }

  lemma {:induction false} Driven(run: seq<Event>, c: Change, rules: seq<Rule>) returns (longer: seq<Event>)
    requires var w := After(run); w.tx == Some(Tx(0, [c], 5, 0, 0, Prevalidating)) && w.verdict.None?
                                  && w.rec == Some(Record(Some(rules), true, None, 0, false, 0, 0))
    ensures Awaiting(After(longer)) && After(longer).verdict.None?
  {
    var ok := Complete(Ok, None, true);
    var r1 := run + [Start(true)];
    var r2 := r1 + [ok];
    var r3 := r2 + [ok];
    longer := r3 + [ok] + [ok];
    AfterAppend(run, Start(true));
    AfterAppend(r1, ok);
    AfterAppend(r2, ok);
    assert After(r3).tx == Some(Tx(0, [c], 5, 0, 1, CommitSent));
    AfterAppend(r3, ok);
    AfterAppend(r3 + [ok], ok);
  }
}
