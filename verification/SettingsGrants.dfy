/** Lease grants for settings transactions of several devices. The actor keeps one cookie for all of them: handling a
    TRANSACTION_START overwrites it, the scheduler's lease callback reads it when it fires, and the lease result is then
    applied to whatever device the cookie names. */
module SettingsGrants {
  import opened Basics
  import opened Search
  import opened SettingsTransaction

  /** A transaction: the device and the position of its save among the device's accepted saves. */
  datatype Tag = Tag(device: string, t: nat)

  /** Actor events in queue order. `own` is the transaction whose lease request is answered, `read` what the callback
      found in the cookie. */
  datatype Item = StartOf(tag: Tag) | LeaseResult(own: Tag, read: Tag, granted: bool)

  /** `runs` holds what happened to each device so far, `waiting` the lease requests not yet answered. */
  datatype Actor = Actor(runs: map<string, seq<Event>>, cookie: Option<Tag>, waiting: seq<Tag>, queue: seq<Item>)

  /** Local: a save, or any event of one device. Reply: the scheduler answers a lease request. HandleNext: the actor takes
      the oldest queued event; `leased` says whether a lease request is accepted, `sent` whether BEGIN is. An action that is
      not possible changes nothing. */
  datatype Action = Local(device: string, e: Event) | Reply(i: nat, granted: bool) | HandleNext(leased: bool, sent: bool)

  function Idle(): Actor { Actor(map[], None, [], []) }

  function RunOf(g: Actor, d: string): seq<Event> { if d in g.runs then g.runs[d] else [] }
  function WorldOf(g: Actor, d: string): World { SettingsTransaction.After(RunOf(g, d)) }

  predicate Saves(g: Actor, a: Action) {
    a.Local? && a.e.Save? && SaveAccepted(WorldOf(g, a.device), a.e.changes, a.e.queued)
  }

  function Happens(g: Actor, d: string, e: Event): Actor { g.(runs := g.runs[d := RunOf(g, d) + [e]]) }

  function Next(g: Actor, a: Action): Actor {
    match a
    case Local(d, e) =>
      if e.Start? then g
      else
        var t := Happens(g, d, e);
        if Saves(g, a) then t.(queue := g.queue + [StartOf(Tag(d, |WorldOf(g, d).plans|))]) else t
    case Reply(i, granted) =>
      if i >= |g.waiting| || g.cookie.None? then g
      else g.(waiting := g.waiting[..i] + g.waiting[i + 1..], queue := g.queue + [LeaseResult(g.waiting[i], g.cookie.value, granted)])
    case HandleNext(leased, sent) =>
      if |g.queue| == 0 then g
      else
        var rest := g.(queue := g.queue[1..]);
        match g.queue[0]
        case StartOf(tag) =>
          if leased then rest.(cookie := Some(tag), waiting := g.waiting + [tag])
          else Happens(rest, tag.device, Abort).(cookie := Some(tag))
        case LeaseResult(own, read, granted) =>
          if g.cookie != Some(read) then rest
          else Happens(rest, read.device, if granted then Start(sent) else Abort)
  }

  predicate Possible(g: Actor, a: Action) {
    match a
    case Local(_, e) => !e.Start?
    case Reply(i, _) => i < |g.waiting| && g.cookie.Some?
    case HandleNext(_, _) => |g.queue| > 0
  }

  function After(acts: seq<Action>): Actor {
    if |acts| == 0 then Idle() else Next(After(acts[..|acts| - 1]), acts[|acts| - 1])
  }

  lemma {:induction false} StepAt(acts: seq<Action>, k: nat)
    requires k < |acts|
    ensures After(acts[..k + 1]) == Next(After(acts[..k]), acts[k])
  {
    assert acts[..k + 1][..k] == acts[..k] && acts[..k + 1][k] == acts[k];
  }

  lemma {:induction false} Grows(acts: seq<Action>, a: Action)
    ensures After(acts + [a]) == Next(After(acts), a)
  {
    assert (acts + [a])[..|acts|] == acts;
  }

  // ----- does a lease result carry the cookie of the transaction that asked?

  /** No lease request is unanswered and no lease result unhandled. */
  predicate NoLease(g: Actor) { g.waiting == [] && forall i :: 0 <= i < |g.queue| ==> !g.queue[i].LeaseResult? }

  /** A TRANSACTION_START is handled only when no lease is outstanding. */
  predicate Alone(g: Actor, a: Action) { a.HandleNext? && |g.queue| > 0 && g.queue[0].StartOf? ==> NoLease(g) }

  /** A handled lease result carries the cookie of the transaction that asked, and that cookie still stands, so the actor
      does not drop the result. */
  predicate OwnResult(g: Actor, a: Action) {
    a.HandleNext? && |g.queue| > 0 && g.queue[0].LeaseResult? ==>
      g.queue[0].own == g.queue[0].read && g.cookie == Some(g.queue[0].read)
  }

  ghost predicate AllAlone(acts: seq<Action>) {
    forall k :: 0 <= k < |acts| ==> Alone(After(acts[..k]), acts[k])
  }

  ghost predicate AllOwn(acts: seq<Action>) {
    forall k :: 0 <= k < |acts| ==> OwnResult(After(acts[..k]), acts[k])
  }

  /** Every outstanding lease is the cookie's. */
  ghost predicate Matched(g: Actor) {
    && (forall i :: 0 <= i < |g.waiting| ==> g.cookie == Some(g.waiting[i]))
    && (forall i :: 0 <= i < |g.queue| && g.queue[i].LeaseResult? ==> g.queue[i].own == g.queue[i].read && g.cookie == Some(g.queue[i].read))
  }

  lemma {:induction false} MatchedStep(g: Actor, a: Action)
    requires Matched(g) && Alone(g, a)
    ensures Matched(Next(g, a)) && OwnResult(g, a)
  {
    var u := Next(g, a);
    if a.HandleNext? {
      forall i | 0 <= i < |u.queue| ensures u.queue[i] == g.queue[i + 1] {}
    }
  }

  lemma {:induction false} MatchedRun(acts: seq<Action>, k: nat)
    requires AllAlone(acts) && k <= |acts|
    ensures Matched(After(acts[..k]))
  {
    if k > 0 {
      MatchedRun(acts, k - 1);
      StepAt(acts, k - 1);
      MatchedStep(After(acts[..k - 1]), acts[k - 1]);
    }
  }

  /** Tags are used once: each queued start is of a transaction not seen by any lease yet. */
  ghost predicate TagOk(g: Actor, x: Tag) { x.t < |WorldOf(g, x.device).plans| }

  ghost predicate Seen(g: Actor, x: Tag) {
    || g.cookie == Some(x)
    || (exists i :: 0 <= i < |g.waiting| && g.waiting[i] == x)
    || (exists i :: 0 <= i < |g.queue| && g.queue[i].LeaseResult? && g.queue[i].own == x)
  }

  ghost predicate Tagged(g: Actor) {
    && (forall x :: Seen(g, x) ==> TagOk(g, x))
    && (forall i :: 0 <= i < |g.queue| && g.queue[i].StartOf? ==> TagOk(g, g.queue[i].tag) && !Seen(g, g.queue[i].tag))
    && (forall i, j :: 0 <= i < j < |g.queue| && g.queue[i].StartOf? && g.queue[j].StartOf? ==> g.queue[i].tag != g.queue[j].tag)
  }

  /** Saves are only ever added. */
  lemma {:induction false} PlansKept(run: seq<Event>, e: Event)
    ensures |SettingsTransaction.After(run + [e]).plans| >= |SettingsTransaction.After(run).plans|
    ensures var w := SettingsTransaction.After(run);
            !(e.Save? && SaveAccepted(w, e.changes, e.queued)) ==> SettingsTransaction.After(run + [e]).plans == w.plans
    ensures var w := SettingsTransaction.After(run);
            e.Save? && SaveAccepted(w, e.changes, e.queued) ==> |SettingsTransaction.After(run + [e]).plans| == |w.plans| + 1
  {
    AfterAppend(run, e);
  }

  lemma {:induction false} TagsKept(g: Actor, d: string, e: Event, x: Tag)
    requires TagOk(g, x)
    ensures TagOk(Happens(g, d, e), x)
  {
    if x.device == d { PlansKept(RunOf(g, d), e); }
  }

  lemma {:induction false} LocalTagged(g: Actor, a: Action)
    requires Tagged(g) && a.Local?
    ensures Tagged(Next(g, a))
  {
    var u := Next(g, a);
    var brandNew := Tag(a.device, |WorldOf(g, a.device).plans|);
    PlansKept(RunOf(g, a.device), a.e);
    forall x ensures TagOk(g, x) ==> TagOk(u, x) && x != brandNew {
      if TagOk(g, x) { TagsKept(g, a.device, a.e, x); }
    }
    forall x | Seen(u, x) ensures Seen(g, x) {
      if !(g.cookie == Some(x)) && !(exists i :: 0 <= i < |g.waiting| && g.waiting[i] == x) {
        var i :| 0 <= i < |u.queue| && u.queue[i].LeaseResult? && u.queue[i].own == x;
        assert i < |g.queue| && g.queue[i] == u.queue[i];
      }
    }
    if Saves(g, a) { assert TagOk(u, brandNew); }
    forall i | 0 <= i < |u.queue| && u.queue[i].StartOf? ensures TagOk(u, u.queue[i].tag) && !Seen(u, u.queue[i].tag) {
      if i < |g.queue| { assert u.queue[i] == g.queue[i]; } else { assert u.queue[i].tag == brandNew; }
    }
  }

  lemma {:induction false} ReplyTagged(g: Actor, a: Action)
    requires Tagged(g) && a.Reply? && Possible(g, a)
    ensures Tagged(Next(g, a))
  {
    var u := Next(g, a);
    forall x | Seen(u, x) ensures Seen(g, x) { ReplySeen(g, a, x); }
    forall x ensures TagOk(u, x) == TagOk(g, x) {}
    forall i | 0 <= i < |u.queue| && u.queue[i].StartOf? ensures g.queue[i] == u.queue[i] {}
  }

  lemma {:induction false} ReplySeen(g: Actor, a: Action, x: Tag)
    requires a.Reply? && Possible(g, a) && Seen(Next(g, a), x)
    ensures Seen(g, x)
  {
    var u := Next(g, a);
    if i :| 0 <= i < |u.waiting| && u.waiting[i] == x {
      assert g.waiting[if i < a.i then i else i + 1] == x;
    } else if u.cookie != Some(x) {
      var i :| 0 <= i < |u.queue| && u.queue[i].LeaseResult? && u.queue[i].own == x;
      if i < |g.queue| { assert g.queue[i] == u.queue[i]; } else { assert g.waiting[a.i] == x; }
    }
  }

  lemma {:induction false} HandleTagged(g: Actor, a: Action)
    requires Tagged(g) && a.HandleNext? && Possible(g, a)
    ensures Tagged(Next(g, a))
  {
    var u := Next(g, a);
    forall i | 0 <= i < |u.queue| ensures u.queue[i] == g.queue[i + 1] {}
    forall x ensures TagOk(g, x) ==> TagOk(u, x) {
      if TagOk(g, x) {
        match g.queue[0]
        case StartOf(tag) => TagsKept(g, tag.device, Abort, x);
        case LeaseResult(own, read, granted) => TagsKept(g, read.device, if granted then Start(a.sent) else Abort, x);
      }
    }
    forall x | Seen(u, x) ensures Seen(g, x) || (g.queue[0].StartOf? && x == g.queue[0].tag) {
      if exists i :: 0 <= i < |u.queue| && u.queue[i].LeaseResult? && u.queue[i].own == x {
        var i :| 0 <= i < |u.queue| && u.queue[i].LeaseResult? && u.queue[i].own == x;
        assert g.queue[i + 1].own == x;
      } else if exists i :: 0 <= i < |u.waiting| && u.waiting[i] == x {
        var i :| 0 <= i < |u.waiting| && u.waiting[i] == x;
        assert i < |g.waiting| ==> g.waiting[i] == x;
      }
    }
  }

  lemma {:induction false} TaggedStep(g: Actor, a: Action)
    requires Tagged(g) && Possible(g, a)
    ensures Tagged(Next(g, a))
  {
    match a
    case Local(_, _) => LocalTagged(g, a);
    case Reply(_, _) => ReplyTagged(g, a);
    case HandleNext(_, _) => HandleTagged(g, a);
  }

  lemma {:induction false} TaggedRun(acts: seq<Action>, k: nat)
    requires k <= |acts|
    ensures Tagged(After(acts[..k]))
  {
    if k > 0 {
      TaggedRun(acts, k - 1);
      StepAt(acts, k - 1);
      if Possible(After(acts[..k - 1]), acts[k - 1]) { TaggedStep(After(acts[..k - 1]), acts[k - 1]); }
    }
  }

  /** An outstanding lease that is not the cookie's: its result will not be applied to its own transaction. */
  ghost predicate Stray(g: Actor, x: Tag) {
    && g.cookie != Some(x)
    && ((exists i :: 0 <= i < |g.waiting| && g.waiting[i] == x)
        || (exists i :: 0 <= i < |g.queue| && g.queue[i].LeaseResult? && g.queue[i].own == x))
  }

  lemma {:induction false} StrayStays(g: Actor, a: Action, x: Tag)
    requires Tagged(g) && Possible(g, a) && Stray(g, x) && OwnResult(g, a)
    ensures Stray(Next(g, a), x)
  {
    var u := Next(g, a);
    assert Seen(g, x);
    if i :| 0 <= i < |g.waiting| && g.waiting[i] == x {
      match a
      case Local(_, _) =>
      case Reply(j, _) =>
        if i == j { assert u.queue[|g.queue|].own == x; } else { assert u.waiting[if i < j then i else i - 1] == x; }
      case HandleNext(_, _) => assert u.waiting[i] == x;
    } else {
      var i :| 0 <= i < |g.queue| && g.queue[i].LeaseResult? && g.queue[i].own == x;
      if a.HandleNext? { assert i > 0 && u.queue[i - 1] == g.queue[i]; } else { assert u.queue[i] == g.queue[i]; }
    }
  }

  lemma {:induction false} StrayStep(g: Actor, a: Action, x: Tag)
    requires Tagged(g) && Stray(g, x) && OwnResult(g, a)
    ensures Stray(Next(g, a), x)
  {
    if Possible(g, a) { StrayStays(g, a, x); }
  }

  /** Handling a start while a lease is outstanding strands that lease. */
  lemma {:induction false} Strands(g: Actor, a: Action) returns (x: Tag)
    requires Tagged(g) && !Alone(g, a)
    ensures Stray(Next(g, a), x)
  {
    var u := Next(g, a);
    if g.waiting != [] {
      x := g.waiting[0];
      assert Seen(g, x) && u.waiting[0] == x;
    } else {
      var i :| 0 <= i < |g.queue| && g.queue[i].LeaseResult?;
      x := g.queue[i].own;
      assert Seen(g, x) && u.queue[i - 1] == g.queue[i];
    }
  }

  lemma {:induction false} StrayNext(acts: seq<Action>, k: nat, x: Tag)
    requires k < |acts| && OwnResult(After(acts[..k]), acts[k]) && Stray(After(acts[..k]), x)
    ensures Stray(After(acts[..k + 1]), x)
  {
    StepAt(acts, k);
    TaggedRun(acts, k);
    StrayStep(After(acts[..k]), acts[k], x);
  }

  lemma {:induction false} StrayRun(acts: seq<Action>, n: nat, k: nat, x: Tag)
    requires AllOwn(acts) && n <= k <= |acts| && Stray(After(acts[..n]), x)
    ensures Stray(After(acts[..k]), x)
    decreases k
  {
    if k > n {
      StrayRun(acts, n, k - 1, x);
      StrayNext(acts, k - 1, x);
    }
  }

  /** For every run over any number of devices that leaves nothing outstanding: every lease result is handled under the
      cookie of the transaction that asked, if and only if no TRANSACTION_START was handled while an earlier transaction's
      lease was outstanding. */
  lemma {:induction false} OwnResultsIff(acts: seq<Action>)
    requires After(acts).waiting == [] && After(acts).queue == []
    ensures AllOwn(acts) <==> AllAlone(acts)
  {
    if AllAlone(acts) { AloneOwns(acts); }
    if AllOwn(acts) {
      forall k | 0 <= k < |acts| ensures Alone(After(acts[..k]), acts[k]) {
        OwnMeansAlone(acts, k);
      }
    }
  }

  lemma {:induction false} OwnMeansAlone(acts: seq<Action>, k: nat)
    requires AllOwn(acts) && After(acts).waiting == [] && After(acts).queue == [] && k < |acts|
    ensures Alone(After(acts[..k]), acts[k])
  {
    StepAt(acts, k);
    TaggedRun(acts, k);
    assert acts[..|acts|] == acts;
    if !Alone(After(acts[..k]), acts[k]) {
      var x := Strands(After(acts[..k]), acts[k]);
      StrayRun(acts, k + 1, |acts|, x);
      assert false;
    }
  }

  // ----- does the outcome of a lease request act on the transaction that asked?

  /** The transaction whose lease request gets its outcome, and the device the actor applies it to: a refused request at
      once, a result when the cookie test lets it through. */
  function Outcome(g: Actor, a: Action): Option<(Tag, string)> {
    if !(a.HandleNext? && |g.queue| > 0) then None
    else
      match g.queue[0]
      case StartOf(tag) => if a.leased then None else Some((tag, tag.device))
      case LeaseResult(own, read, _) => if g.cookie == Some(read) then Some((own, read.device)) else None
  }

  /** The outcome acts on the transaction that asked, or finds none. */
  predicate MeetsAsker(g: Actor, a: Action) {
    var o := Outcome(g, a);
    o.Some? && WorldOf(g, o.value.1).tx.Some? ==> Tag(o.value.1, WorldOf(g, o.value.1).tx.value.t) == o.value.0
  }

  /** No later save of the asking device is active when the outcome is handled: the comparison of the event's generation
      with the transaction's id that the handler does not make. */
  predicate Current(g: Actor, a: Action) {
    var o := Outcome(g, a);
    o.Some? && WorldOf(g, o.value.0.device).tx.Some? ==> WorldOf(g, o.value.0.device).tx.value.t <= o.value.0.t
  }

  /** The outcome is applied to a device other than the one that asked, and that device has a transaction. */
  predicate Misdirected(g: Actor, a: Action) {
    var o := Outcome(g, a);
    o.Some? && o.value.0.device != o.value.1 && WorldOf(g, o.value.1).tx.Some?
  }

  ghost predicate AllMeet(acts: seq<Action>) { forall k :: 0 <= k < |acts| ==> MeetsAsker(After(acts[..k]), acts[k]) }
  ghost predicate AllCurrent(acts: seq<Action>) { forall k :: 0 <= k < |acts| ==> Current(After(acts[..k]), acts[k]) }

  /** The active transaction is the newest save of its device. */
  lemma {:induction false} ActiveIsNewest(g: Actor, x: Tag)
    requires TagOk(g, x) && WorldOf(g, x.device).tx.Some?
    ensures x.t <= WorldOf(g, x.device).tx.value.t
  {
    RevisionsAlways(RunOf(g, x.device));
  }

  lemma {:induction false} AskerKnown(g: Actor, a: Action)
    requires Tagged(g) && Outcome(g, a).Some?
    ensures TagOk(g, Outcome(g, a).value.0)
  {
    if g.queue[0].LeaseResult? { assert Seen(g, g.queue[0].own); }
  }

  /** In every reached state: the outcome acts on the transaction that asked or on none, if and only if it is not applied
      to another device's transaction and, where it is applied to the asking device, no later save is active there. */
  lemma {:induction false} MeetsAskerIff(acts: seq<Action>, a: Action)
    ensures var g := After(acts); var o := Outcome(g, a);
            MeetsAsker(g, a) <==> !Misdirected(g, a) && (o.Some? && o.value.0.device == o.value.1 ==> Current(g, a))
  {
    var g := After(acts);
    TaggedRun(acts, |acts|);
    assert acts[..|acts|] == acts;
    var o := Outcome(g, a);
    if o.Some? && WorldOf(g, o.value.1).tx.Some? && o.value.0.device == o.value.1 {
      AskerKnown(g, a);
      ActiveIsNewest(g, o.value.0);
    }
  }

  /** Under the asker's own cookie the two conditions are one. */
  lemma {:induction false} MeetsIffCurrent(acts: seq<Action>, k: nat)
    requires k < |acts| && OwnResult(After(acts[..k]), acts[k])
    ensures MeetsAsker(After(acts[..k]), acts[k]) <==> Current(After(acts[..k]), acts[k])
  {
    MeetsAskerIff(acts[..k], acts[k]);
  }

  lemma {:induction false} OwnMeets(acts: seq<Action>)
    requires AllOwn(acts)
    ensures AllMeet(acts) <==> AllCurrent(acts)
  {
    if AllMeet(acts) {
      forall k | 0 <= k < |acts| ensures Current(After(acts[..k]), acts[k]) {
        assert OwnResult(After(acts[..k]), acts[k]) && MeetsAsker(After(acts[..k]), acts[k]);
        MeetsIffCurrent(acts, k);
      }
    }
    if AllCurrent(acts) {
      forall k | 0 <= k < |acts| ensures MeetsAsker(After(acts[..k]), acts[k]) {
        assert OwnResult(After(acts[..k]), acts[k]) && Current(After(acts[..k]), acts[k]);
        MeetsIffCurrent(acts, k);
      }
    }
  }

  lemma {:induction false} AloneOwns(acts: seq<Action>)
    requires AllAlone(acts)
    ensures AllOwn(acts)
  {
    forall k | 0 <= k < |acts| ensures OwnResult(After(acts[..k]), acts[k]) {
      MatchedRun(acts, k);
      assert Alone(After(acts[..k]), acts[k]);
      MatchedStep(After(acts[..k]), acts[k]);
    }
  }

  /** In every run, finished or not, the two conditions make every outcome act on the transaction that asked or on none. */
  lemma {:induction false} CurrentMeets(acts: seq<Action>)
    requires AllAlone(acts) && AllCurrent(acts)
    ensures AllMeet(acts)
  {
    AloneOwns(acts);
    OwnMeets(acts);
  }

  /** For every run over any number of devices that leaves nothing outstanding: every lease result is handled under the
      cookie of the transaction that asked, and every outcome, refusals included, acts on the transaction that asked or on
      none, if and only if no TRANSACTION_START was handled while a lease was outstanding and no outcome was handled while
      a later save of its device was active. */
  lemma {:induction false} OutcomesReachAskersIff(acts: seq<Action>)
    requires After(acts).waiting == [] && After(acts).queue == []
    ensures AllOwn(acts) && AllMeet(acts) <==> AllAlone(acts) && AllCurrent(acts)
  {
    OwnResultsIff(acts);
    if AllOwn(acts) { OwnMeets(acts); }
  }

  // ----- a save that an old outcome gets hold of

  /** Handling the events ahead leaves a device without a transaction as it is, and the cookie too if no start is among them. */
  lemma {:induction false} Drains(acts: seq<Action>, n: nat, d: string) returns (more: seq<Action>)
    requires n <= |After(acts).queue| && WorldOf(After(acts), d).tx.None?
    ensures var g, u := After(acts), After(more);
            && acts <= more && u.queue == g.queue[n..] && WorldOf(u, d) == WorldOf(g, d)
            && ((forall i :: 0 <= i < n ==> g.queue[i].LeaseResult?) ==> u.cookie == g.cookie)
    decreases n
  {
    if n == 0 {
      more := acts;
    } else {
      var g := After(acts);
      var next := acts + [HandleNext(true, true)];
      Grows(acts, HandleNext(true, true));
      HandledIdle(g, d);
      var u := After(next);
      more := Drains(next, n - 1, d);
      assert u.queue[n - 1..] == g.queue[n..];
      assert forall i :: 0 <= i < n - 1 ==> u.queue[i] == g.queue[i + 1];
    }
  }

  lemma {:induction false} HandledIdle(g: Actor, d: string)
    requires |g.queue| > 0 && WorldOf(g, d).tx.None?
    ensures var u := Next(g, HandleNext(true, true));
            u.queue == g.queue[1..] && WorldOf(u, d) == WorldOf(g, d) && (g.queue[0].LeaseResult? ==> u.cookie == g.cookie)
  {
    match g.queue[0]
    case StartOf(_) =>
    case LeaseResult(_, read, granted) => IdleKept(g.(queue := g.queue[1..]), d, read.device, if granted then Start(true) else Abort);
  }

  lemma {:induction false} IdleKept(g: Actor, d: string, x: string, e: Event)
    requires (e.Start? || e.Abort?) && WorldOf(g, d).tx.None?
    ensures WorldOf(Happens(g, x, e), d) == WorldOf(g, d)
  {
    if x == d {
      AfterAppend(RunOf(g, d), e);
    } else {
      assert RunOf(Happens(g, x, e), d) == RunOf(g, d);
    }
  }

  /** The save and the old outcome, one after the other. */
  lemma {:induction false} SavedThenHandled(acts: seq<Action>, d: string, e: Event, leased: bool) returns (more: seq<Action>)
    requires Saves(After(acts), Local(d, e)) && |After(acts).queue| > 0
    ensures var g := After(acts); var t := Next(g, Local(d, e));
            && more == acts + [Local(d, e)] + [HandleNext(leased, true)] && After(acts + [Local(d, e)]) == t
            && t.queue[0] == g.queue[0] && t.cookie == g.cookie && After(more) == Next(t, HandleNext(leased, true))
            && WorldOf(t, d) == Step(WorldOf(g, d), e) && WorldOf(t, d).tx == Some(Tx(|WorldOf(g, d).plans|, e.changes, e.expected, 0, 0, Prevalidating))
  {
    Grows(acts, Local(d, e));
    AfterAppend(RunOf(After(acts), d), e);
    Grows(acts + [Local(d, e)], HandleNext(leased, true));
    more := acts + [Local(d, e)] + [HandleNext(leased, true)];
  }

  /** From any reached state: if the grant of some transaction is queued behind lease results only, the cookie is the one it
      read, and the device it names has no transaction any more, then a save accepted there is started by that grant. */
  lemma {:induction false} QueuedGrantStartsSave(acts: seq<Action>, n: nat, e: Event) returns (more: seq<Action>)
    requires var g := After(acts);
             && n < |g.queue| && (forall i :: 0 <= i <= n ==> g.queue[i].LeaseResult?) && g.queue[n].granted && g.cookie == Some(g.queue[n].read)
             && e.Save? && SaveAccepted(WorldOf(g, g.queue[n].read.device), e.changes, e.queued)
    ensures var g := After(acts); var d := g.queue[n].read.device;
            && acts <= more && WorldOf(After(more), d).log == WorldOf(g, d).log + [Begin(|WorldOf(g, d).plans|, e.expected)]
            && g.queue[n].own != Tag(d, |WorldOf(g, d).plans|)
  {
    var g := After(acts);
    var d := g.queue[n].read.device;
    TaggedRun(acts, |acts|);
    assert acts[..|acts|] == acts && Seen(g, g.queue[n].own);
    var ready := Drains(acts, n, d);
    more := SavedThenHandled(ready, d, e, true);
    AfterAppend(RunOf(After(ready + [Local(d, e)]), d), Start(true));
  }

  /** Likewise a queued start of a transaction that is gone, once its lease request is refused, aborts a save accepted
      meanwhile: the save is called back as cancelled before its own start is handled. */
  lemma {:induction false} RefusedRequestAbortsSave(acts: seq<Action>, n: nat, e: Event) returns (more: seq<Action>)
    requires var g := After(acts);
             && n < |g.queue| && g.queue[n].StartOf? && e.Save? && SaveAccepted(WorldOf(g, g.queue[n].tag.device), e.changes, e.queued)
    ensures var g := After(acts); var d := g.queue[n].tag.device; var u := WorldOf(After(more), d);
            && acts <= more && u.tx.None? && u.calls == WorldOf(g, d).calls + [Call(|WorldOf(g, d).plans|, Cancelled)]
            && g.queue[n].tag != Tag(d, |WorldOf(g, d).plans|)
  {
    var g := After(acts);
    var d := g.queue[n].tag.device;
    TaggedRun(acts, |acts|);
    assert acts[..|acts|] == acts;
    var ready := Drains(acts, n, d);
    more := SavedThenHandled(ready, d, e, false);
    AfterAppend(RunOf(After(ready + [Local(d, e)]), d), Abort);
  }
}
