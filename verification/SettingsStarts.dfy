/** When every settings transaction is started once: the discipline under which the actor's single cookie is harmless, and
    runs that break it. */
module SettingsStarts {
  import opened Basics
  import opened Search
  import T = SettingsTransaction
  import opened SettingsGrants

  // ----- the invariant

  function TagOf(x: Item): Tag { if x.StartOf? then x.tag else x.own }

  /** The transaction's start or lease is still in progress. */
  ghost predicate Pends(g: Actor, x: Tag) {
    || (exists i :: 0 <= i < |g.waiting| && g.waiting[i] == x)
    || (exists i :: 0 <= i < |g.queue| && TagOf(g.queue[i]) == x)
  }

  /** At most one lease is outstanding. */
  ghost predicate OneLease(g: Actor) {
    && |g.waiting| <= 1
    && (g.waiting != [] ==> forall i :: 0 <= i < |g.queue| ==> !g.queue[i].LeaseResult?)
    && (forall i, j :: 0 <= i < j < |g.queue| ==> !(g.queue[i].LeaseResult? && g.queue[j].LeaseResult?))
  }

  /** If the transaction is active, it has not been started. */
  predicate Unstarted(w: T.World, t: nat) { w.tx.Some? && w.tx.value.t == t ==> w.tx.value.phase.Prevalidating? }

  ghost predicate AllUnstarted(g: Actor) { forall x :: Pends(g, x) ==> Unstarted(WorldOf(g, x.device), x.t) }
  ghost predicate AllFresh(g: Actor) { forall d :: T.FreshRun(RunOf(g, d)) }

  ghost predicate Orderly(g: Actor) { Matched(g) && Tagged(g) && OneLease(g) && AllUnstarted(g) && AllFresh(g) }

  lemma {:induction false} HandleOneLease(g: Actor, a: Action)
    requires OneLease(g) && Alone(g, a) && a.HandleNext? && Possible(g, a)
    ensures OneLease(Next(g, a))
  {
    var u := Next(g, a);
    assert |u.queue| == |g.queue| - 1;
    forall i | 0 <= i < |u.queue| ensures u.queue[i] == g.queue[i + 1] {}
    assert u.waiting == g.waiting || (g.waiting == [] && |u.waiting| == 1 && NoLease(g));
  }

  lemma {:induction false} ReplyOneLease(g: Actor, a: Action)
    requires OneLease(g) && a.Reply? && Possible(g, a)
    ensures OneLease(Next(g, a))
  {
    var u := Next(g, a);
    assert u.waiting == [] && |u.queue| == |g.queue| + 1;
    forall i | 0 <= i < |g.queue| ensures u.queue[i] == g.queue[i] {}
  }

  lemma {:induction false} OneLeaseStep(g: Actor, a: Action)
    requires OneLease(g) && Alone(g, a) && Possible(g, a)
    ensures OneLease(Next(g, a))
  {
    match a
    case Local(_, _) => assert forall i :: 0 <= i < |g.queue| ==> Next(g, a).queue[i] == g.queue[i];
    case Reply(_, _) => ReplyOneLease(g, a);
    case HandleNext(_, _) => HandleOneLease(g, a);
  }

  /** Only a start leaves the prevalidating phase. */
  lemma {:induction false} UnstartedStays(w: T.World, e: T.Event, t: nat)
    requires Unstarted(w, t) && !e.Start?
    ensures Unstarted(T.Step(w, e), t)
  {
  }

  /** And a start leaves it for the active transaction alone. */
  lemma {:induction false} OthersUnstarted(w: T.World, sent: bool, t: nat)
    requires w.tx.Some? ==> w.tx.value.t != t
    ensures Unstarted(T.Step(w, T.Start(sent)), t)
  {
  }

  lemma {:induction false} FreshAppend(run: seq<T.Event>, e: T.Event)
    requires T.FreshRun(run) && T.StartsFresh(T.After(run), e)
    ensures T.FreshRun(run + [e])
  {
    assert (run + [e])[..|run|] == run;
    T.FreshLast(run + [e]);
  }

  lemma {:induction false} HappensFresh(g: Actor, d: string, e: T.Event)
    requires AllFresh(g) && T.StartsFresh(WorldOf(g, d), e)
    ensures AllFresh(Happens(g, d, e))
  {
    FreshAppend(RunOf(g, d), e);
    forall x ensures T.FreshRun(RunOf(Happens(g, d, e), x)) { assert T.FreshRun(RunOf(g, x)); }
  }

  lemma {:induction false} HappensUnstarted(g: Actor, d: string, e: T.Event, x: Tag)
    requires Unstarted(WorldOf(g, x.device), x.t)
    requires e.Start? && d == x.device && WorldOf(g, d).tx.Some? ==> WorldOf(g, d).tx.value.t != x.t
    ensures Unstarted(WorldOf(Happens(g, d, e), x.device), x.t)
  {
    if d == x.device {
      T.AfterAppend(RunOf(g, d), e);
      if e.Start? { OthersUnstarted(WorldOf(g, d), e.sent, x.t); } else { UnstartedStays(WorldOf(g, d), e, x.t); }
    } else {
      assert RunOf(Happens(g, d, e), x.device) == RunOf(g, x.device);
    }
  }

  lemma {:induction false} LocalOrderly(g: Actor, a: Action)
    requires Orderly(g) && a.Local? && Possible(g, a)
    ensures AllUnstarted(Next(g, a)) && AllFresh(Next(g, a))
  {
    var t, u := Happens(g, a.device, a.e), Next(g, a);
    HappensFresh(g, a.device, a.e);
    forall x ensures RunOf(u, x) == RunOf(t, x) {}
    forall d ensures T.FreshRun(RunOf(u, d)) { assert T.FreshRun(RunOf(t, d)); }
    forall x | Pends(u, x) ensures Unstarted(WorldOf(u, x.device), x.t) {
      if Pends(g, x) {
        HappensUnstarted(g, a.device, a.e, x);
      } else {
        NewTag(g, a, x);
      }
    }
  }

  /** The only tag a local event adds is that of an accepted save, which is not started yet. */
  lemma {:induction false} NewTag(g: Actor, a: Action, x: Tag)
    requires a.Local? && Possible(g, a) && Pends(Next(g, a), x) && !Pends(g, x)
    ensures Unstarted(WorldOf(Next(g, a), x.device), x.t)
  {
    var u := Next(g, a);
    assert forall j :: 0 <= j < |g.queue| ==> u.queue[j] == g.queue[j];
    var i :| 0 <= i < |u.queue| && TagOf(u.queue[i]) == x;
    T.AfterAppend(RunOf(g, a.device), a.e);
    assert RunOf(u, x.device) == RunOf(g, a.device) + [a.e];
  }

  lemma {:induction false} ReplyPends(g: Actor, a: Action, x: Tag)
    requires a.Reply? && Possible(g, a) && Pends(Next(g, a), x)
    ensures Pends(g, x)
  {
    var u := Next(g, a);
    if i :| 0 <= i < |u.waiting| && u.waiting[i] == x {
      assert g.waiting[if i < a.i then i else i + 1] == x;
    } else {
      var i :| 0 <= i < |u.queue| && TagOf(u.queue[i]) == x;
      if i < |g.queue| { assert TagOf(g.queue[i]) == x; } else { assert g.waiting[a.i] == x; }
    }
  }

  lemma {:induction false} ReplyOrderly(g: Actor, a: Action)
    requires Orderly(g) && a.Reply? && Possible(g, a)
    ensures AllUnstarted(Next(g, a)) && AllFresh(Next(g, a))
  {
    var u := Next(g, a);
    forall d ensures RunOf(u, d) == RunOf(g, d) {}
    forall x | Pends(u, x) ensures Unstarted(WorldOf(u, x.device), x.t) { ReplyPends(g, a, x); }
    forall d ensures T.FreshRun(RunOf(u, d)) { assert T.FreshRun(RunOf(g, d)); }
  }

  /** What pends after an event is handled did before; and a handled lease result was the last of its transaction. */
  lemma {:induction false} HandlePends(g: Actor, a: Action, x: Tag)
    requires Tagged(g) && OneLease(g) && a.HandleNext? && Possible(g, a) && Pends(Next(g, a), x)
    ensures Pends(g, x) && (g.queue[0].LeaseResult? ==> x != g.queue[0].own)
  {
    var u := Next(g, a);
    assert TagOf(g.queue[0]) == if g.queue[0].StartOf? then g.queue[0].tag else g.queue[0].own;
    if i :| 0 <= i < |u.waiting| && u.waiting[i] == x {
      if i < |g.waiting| { assert g.waiting[i] == x; }
    } else {
      var i :| 0 <= i < |u.queue| && TagOf(u.queue[i]) == x;
      assert u.queue[i] == g.queue[i + 1] && TagOf(g.queue[i + 1]) == x;
      if g.queue[0].LeaseResult? {
        assert g.queue[i + 1].StartOf? && Seen(g, g.queue[0].own);
      }
    }
  }

  lemma {:induction false} HandleOrderly(g: Actor, a: Action)
    requires Orderly(g) && a.HandleNext? && Possible(g, a) && MeetsAsker(g, a)
    ensures AllUnstarted(Next(g, a)) && AllFresh(Next(g, a))
  {
    var rest, u := g.(queue := g.queue[1..]), Next(g, a);
    assert Pends(g, TagOf(g.queue[0]));
    forall d ensures RunOf(rest, d) == RunOf(g, d) {}
    forall d ensures T.FreshRun(RunOf(rest, d)) { assert T.FreshRun(RunOf(g, d)); }
    match g.queue[0]
    case StartOf(tag) =>
      if !a.leased { HappensFresh(rest, tag.device, T.Abort); }
      SameRuns(u, if a.leased then rest else Happens(rest, tag.device, T.Abort));
      forall x | Pends(u, x) ensures Unstarted(WorldOf(u, x.device), x.t) {
        HandlePends(g, a, x);
        if !a.leased { HappensUnstarted(rest, tag.device, T.Abort, x); }
      }
    case LeaseResult(own, read, granted) =>
      var e := if granted then T.Start(a.sent) else T.Abort;
      HappensFresh(rest, read.device, e);
      forall x | Pends(u, x) ensures Unstarted(WorldOf(u, x.device), x.t) {
        HandlePends(g, a, x);
        HappensUnstarted(rest, read.device, e, x);
      }
  }

  lemma {:induction false} SameRuns(u: Actor, t: Actor)
    requires u.runs == t.runs
    ensures (forall d :: RunOf(u, d) == RunOf(t, d)) && (AllFresh(t) ==> AllFresh(u))
  {
    if AllFresh(t) {
      forall d ensures T.FreshRun(RunOf(u, d)) { assert T.FreshRun(RunOf(t, d)); }
    }
  }

  lemma {:induction false} StepOrderly(g: Actor, a: Action)
    requires Orderly(g) && Alone(g, a) && MeetsAsker(g, a)
    ensures Orderly(Next(g, a))
  {
    MatchedStep(g, a);
    if Possible(g, a) {
      TaggedStep(g, a);
      OneLeaseStep(g, a);
      match a
      case Local(_, _) => LocalOrderly(g, a);
      case Reply(_, _) => ReplyOrderly(g, a);
      case HandleNext(_, _) => HandleOrderly(g, a);
    }
  }

  lemma {:induction false} OrderlyNext(acts: seq<Action>, k: nat)
    requires k < |acts| && Orderly(After(acts[..k])) && Alone(After(acts[..k]), acts[k]) && MeetsAsker(After(acts[..k]), acts[k])
    ensures Orderly(After(acts[..k + 1]))
  {
    StepAt(acts, k);
    StepOrderly(After(acts[..k]), acts[k]);
  }

  lemma {:induction false} OrderlyRun(acts: seq<Action>, k: nat)
    requires AllAlone(acts) && AllMeet(acts) && k <= |acts|
    ensures Orderly(After(acts[..k]))
  {
    if k > 0 {
      OrderlyRun(acts, k - 1);
      OrderlyNext(acts, k - 1);
    }
  }

  /** In every run over any number of devices in which a start is handled only when no lease is outstanding, and no outcome
      of a lease request while a later save of its device is active, every transaction is started at most once and every
      device's commands follow the script. */
  lemma {:induction false} DisciplinedScripts(acts: seq<Action>, d: string)
    requires AllAlone(acts) && AllCurrent(acts)
    ensures T.FreshRun(RunOf(After(acts), d)) && T.Scripted(WorldOf(After(acts), d))
  {
    CurrentMeets(acts);
    OrderlyRun(acts, |acts|);
    assert acts[..|acts|] == acts;
    T.CommandsFollowScriptIff(RunOf(After(acts), d));
  }

  // ----- two runs that break it

  const CHANGE := T.Change("s", T.BoolValue(true))
  const SAVE := T.Save([CHANGE], 5, true)

  function Rules(): seq<T.Rule> { [T.Rule("s", T.Bool, true, false, 0, 0, 0, 0, [])] }

  /** A device that has announced its settings and accepted one save. */
  function Saved(): seq<T.Event> { [T.Advertise(true)] + [T.CommitSchema(Rules())] + [SAVE] }

  function Waiting0(): T.Tx { T.Tx(0, [CHANGE], 5, 0, 0, T.Prevalidating) }
  function Ready0(): T.Record { T.Record(Some(Rules()), true, None, 0, false, 0, 0) }

  lemma {:induction false} SavedWorld()
    ensures var w := T.After([T.Advertise(true)] + [T.CommitSchema(Rules())]);
            w == T.World(None, Some(Ready0()), None, [], [], []) && T.SaveAccepted(w, [CHANGE], true)
    ensures T.After(Saved()) == T.World(Some(Waiting0()), Some(Ready0()), None, [T.Plan([CHANGE], 5)], [], [])
  {
    assert T.RuleOf("s")(Rules()[0]);
    FirstIndexUnique(Rules(), T.RuleOf("s"), 0);
    T.AfterAppend([], T.Advertise(true));
    assert [] + [T.Advertise(true)] == [T.Advertise(true)];
    T.AfterAppend([T.Advertise(true)], T.CommitSchema(Rules()));
    T.AfterAppend([T.Advertise(true)] + [T.CommitSchema(Rules())], SAVE);
  }

  lemma {:induction false} Handles(runs: map<string, seq<T.Event>>, c: Option<Tag>, w: seq<Tag>, y: Tag, q: seq<Item>)
    ensures Next(Actor(runs, c, w, [StartOf(y)] + q), HandleNext(true, true)) == Actor(runs, Some(y), w + [y], q)
  {
    assert ([StartOf(y)] + q)[1..] == q;
  }

  lemma {:induction false} Replies(runs: map<string, seq<T.Event>>, y: Tag, x: Tag, w: seq<Tag>, q: seq<Item>)
    ensures Next(Actor(runs, Some(y), [x] + w, q), Reply(0, true)) == Actor(runs, Some(y), w, q + [LeaseResult(x, y, true)])
  {
    assert ([x] + w)[..0] + ([x] + w)[1..] == w;
  }

  lemma {:induction false} Grants(runs: map<string, seq<T.Event>>, y: Tag, own: Tag, w: seq<Tag>, q: seq<Item>)
    requires y.device in runs
    ensures Next(Actor(runs, Some(y), w, [LeaseResult(own, y, true)] + q), HandleNext(true, true))
         == Actor(runs[y.device := runs[y.device] + [T.Start(true)]], Some(y), w, q)
  {
    assert ([LeaseResult(own, y, true)] + q)[1..] == q;
  }

  /** Announce and save on a device that nothing happened to yet. */
  lemma {:induction false} Saving(acts: seq<Action>, d: string) returns (more: seq<Action>)
    requires d !in After(acts).runs
    ensures var g := After(acts);
            After(more) == g.(runs := g.runs[d := Saved()], queue := g.queue + [StartOf(Tag(d, 0))])
    ensures (Steady(acts) ==> Steady(more)) && (Meeting(acts) ==> Meeting(more))
  {
    var g := After(acts);
    SavedWorld();
    Grows(acts, Local(d, T.Advertise(true)));
    var a1 := acts + [Local(d, T.Advertise(true))];
    assert [] + [T.Advertise(true)] == [T.Advertise(true)];
    assert After(a1) == g.(runs := g.runs[d := [T.Advertise(true)]]);
    Grows(a1, Local(d, T.CommitSchema(Rules())));
    var a2 := a1 + [Local(d, T.CommitSchema(Rules()))];
    assert After(a2) == g.(runs := g.runs[d := [T.Advertise(true)] + [T.CommitSchema(Rules())]]);
    Grows(a2, Local(d, SAVE));
    more := a2 + [Local(d, SAVE)];
    LocalKeeps(acts, d, T.Advertise(true));
    LocalKeeps(a1, d, T.CommitSchema(Rules()));
    LocalKeeps(a2, d, SAVE);
  }

  /** An event of one device handles nothing. */
  lemma {:induction false} LocalKeeps(acts: seq<Action>, d: string, e: T.Event)
    ensures Steady(acts) ==> Steady(acts + [Local(d, e)])
    ensures Meeting(acts) ==> Meeting(acts + [Local(d, e)])
  {
    if Steady(acts) { AloneGrows(acts, Local(d, e)); }
    if Meeting(acts) { MeetGrows(acts, Local(d, e)); }
  }

  /** AllAlone, step by step. */
  ghost predicate Steady(acts: seq<Action>) {
    |acts| == 0 || (Steady(acts[..|acts| - 1]) && Alone(After(acts[..|acts| - 1]), acts[|acts| - 1]))
  }

  lemma {:induction false} SteadyAlone(acts: seq<Action>)
    requires Steady(acts)
    ensures AllAlone(acts)
  {
    if |acts| > 0 {
      var before := acts[..|acts| - 1];
      SteadyAlone(before);
      forall k | 0 <= k < |acts| ensures Alone(After(acts[..k]), acts[k]) {
        if k < |before| { assert before[..k] == acts[..k] && Alone(After(before[..k]), before[k]); }
      }
    }
  }

  lemma {:induction false} AloneGrows(acts: seq<Action>, a: Action)
    requires Steady(acts) && Alone(After(acts), a)
    ensures Steady(acts + [a]) && After(acts + [a]) == Next(After(acts), a)
  {
    assert (acts + [a])[..|acts|] == acts;
  }

  /** AllMeet, step by step. */
  ghost predicate Meeting(acts: seq<Action>) {
    |acts| == 0 || (Meeting(acts[..|acts| - 1]) && MeetsAsker(After(acts[..|acts| - 1]), acts[|acts| - 1]))
  }

  lemma {:induction false} MeetingMeets(acts: seq<Action>)
    requires Meeting(acts)
    ensures AllMeet(acts)
  {
    if |acts| > 0 {
      var before := acts[..|acts| - 1];
      MeetingMeets(before);
      forall k | 0 <= k < |acts| ensures MeetsAsker(After(acts[..k]), acts[k]) {
        if k < |before| { assert before[..k] == acts[..k] && MeetsAsker(After(before[..k]), before[k]); }
      }
    }
  }

  lemma {:induction false} MeetGrows(acts: seq<Action>, a: Action)
    requires Meeting(acts) && MeetsAsker(After(acts), a)
    ensures Meeting(acts + [a]) && After(acts + [a]) == Next(After(acts), a)
  {
    assert (acts + [a])[..|acts|] == acts;
  }

  /** BEGIN sent twice in a row. */
  lemma {:induction false} StartedTwice(run: seq<T.Event>)
    requires T.After(run).tx.Some?
    ensures var w := T.After(run); var x := w.tx.value;
            T.After(run + [T.Start(true)] + [T.Start(true)]).log == w.log + [T.Begin(x.t, x.expected)] + [T.Begin(x.t, x.expected)]
  {
    T.AfterAppend(run, T.Start(true));
    T.AfterAppend(run + [T.Start(true)], T.Start(true));
  }

  /** Saves on two devices whose starts are both handled before the first lease is granted: the second device is sent
      BEGIN twice, the first is never started, and nothing is left to happen. */
  lemma {:induction false} TwoSavesStartOneTwice() returns (acts: seq<Action>)
    ensures var g := After(acts); var a, b := WorldOf(g, "a"), WorldOf(g, "b");
            && g.waiting == [] && g.queue == []
            && a.log == [] && a.tx == Some(Waiting0())
            && b.log == [T.Begin(0, 5)] + [T.Begin(0, 5)]
  {
    var x, y := Tag("a", 0), Tag("b", 0);
    acts := Saving([], "a");
    acts := Saving(acts, "b");
    var runs: map<string, seq<T.Event>> := map["a" := Saved()]["b" := Saved()];
    assert [] + [StartOf(x)] + [StartOf(y)] == [StartOf(x)] + ([StartOf(y)] + []);
    Handles(runs, None, [], x, [StartOf(y)] + []);
    Grows(acts, HandleNext(true, true));
    acts := acts + [HandleNext(true, true)];
    Handles(runs, Some(x), [] + [x], y, []);
    Grows(acts, HandleNext(true, true));
    acts := acts + [HandleNext(true, true)];
    assert After(acts) == Actor(runs, Some(y), [] + [x] + [y], []);
    acts := Replied(acts, runs, x, y);
    SavedWorld();
    StartedTwice(Saved());
  }

  lemma {:induction false} Replied(acts: seq<Action>, runs: map<string, seq<T.Event>>, x: Tag, y: Tag) returns (more: seq<Action>)
    requires After(acts) == Actor(runs, Some(y), [] + [x] + [y], []) && y.device in runs
    ensures After(more) == Actor(runs[y.device := runs[y.device] + [T.Start(true)] + [T.Start(true)]], Some(y), [], [])
  {
    assert [] + [x] + [y] == [x] + ([y] + []);
    Replies(runs, y, x, [y] + [], []);
    Grows(acts, Reply(0, true));
    var a1 := acts + [Reply(0, true)];
    Replies(runs, y, y, [], [] + [LeaseResult(x, y, true)]);
    Grows(a1, Reply(0, true));
    var a2 := a1 + [Reply(0, true)];
    assert [] + [LeaseResult(x, y, true)] + [LeaseResult(y, y, true)] == [LeaseResult(x, y, true)] + ([LeaseResult(y, y, true)] + []);
    more := BothGranted(a2, runs, x, y);
  }

  lemma {:induction false} BothGranted(acts: seq<Action>, runs: map<string, seq<T.Event>>, x: Tag, y: Tag) returns (more: seq<Action>)
    requires y.device in runs
    requires After(acts) == Actor(runs, Some(y), [], [LeaseResult(x, y, true)] + ([LeaseResult(y, y, true)] + []))
    ensures After(more) == Actor(runs[y.device := runs[y.device] + [T.Start(true)] + [T.Start(true)]], Some(y), [], [])
  {
    Grants(runs, y, x, [], [LeaseResult(y, y, true)] + []);
    Grows(acts, HandleNext(true, true));
    var a3 := acts + [HandleNext(true, true)];
    var once := runs[y.device := runs[y.device] + [T.Start(true)]];
    Grants(once, y, y, [], []);
    Grows(a3, HandleNext(true, true));
    more := a3 + [HandleNext(true, true)];
    assert once[y.device := once[y.device] + [T.Start(true)]] == runs[y.device := runs[y.device] + [T.Start(true)] + [T.Start(true)]];
  }

  /** A result that does not pass the cookie test is dropped. */
  lemma {:induction false} Dropped(runs: map<string, seq<T.Event>>, x: Tag, y: Tag, w: seq<Tag>, q: seq<Item>)
    requires x != y
    ensures Next(Actor(runs, Some(y), w, [LeaseResult(x, x, true)] + q), HandleNext(true, true)) == Actor(runs, Some(y), w, q)
  {
    assert ([LeaseResult(x, x, true)] + q)[1..] == q;
  }

  /** The grant of one device is queued behind the start of another: every outcome acts on the transaction that asked, yet
      the first grant is dropped, its transaction is never started or called back, and nothing is left to happen. */
  lemma {:induction false} DroppedGrantStrandsSave() returns (acts: seq<Action>)
    ensures AllMeet(acts) && !AllAlone(acts)
    ensures var g := After(acts); var a, b := WorldOf(g, "a"), WorldOf(g, "b");
            g.waiting == [] && g.queue == [] && a.log == [] && a.calls == [] && a.tx == Some(Waiting0()) && b.log == [] + [T.Begin(0, 5)]
  {
    var x, y := Tag("a", 0), Tag("b", 0);
    acts := Saving([], "a");
    acts := Saving(acts, "b");
    var runs: map<string, seq<T.Event>> := map["a" := Saved()]["b" := Saved()];
    assert [] + [StartOf(x)] + [StartOf(y)] == [StartOf(x)] + [StartOf(y)];
    Handles(runs, None, [], x, [StartOf(y)]);
    MeetGrows(acts, HandleNext(true, true));
    acts := acts + [HandleNext(true, true)];
    assert [] + [x] == [x] + [];
    Replies(runs, x, x, [], [StartOf(y)]);
    MeetGrows(acts, Reply(0, true));
    var before := acts + [Reply(0, true)];
    Handles(runs, Some(x), [], y, [LeaseResult(x, x, true)]);
    assert After(before) == Actor(runs, Some(x), [], [StartOf(y)] + [LeaseResult(x, x, true)]);
    assert !Alone(After(before), HandleNext(true, true)) by { assert After(before).queue[1].LeaseResult?; }
    MeetGrows(before, HandleNext(true, true));
    acts := Strands(before, runs, x, y);
    MeetingMeets(acts);
    assert acts[..|before|] == before && acts[|before|] == HandleNext(true, true);
    SavedWorld();
    T.AfterAppend(Saved(), T.Start(true));
  }

  lemma {:induction false} Strands(before: seq<Action>, runs: map<string, seq<T.Event>>, x: Tag, y: Tag) returns (acts: seq<Action>)
    requires runs == map["a" := Saved()]["b" := Saved()] && x == Tag("a", 0) && y == Tag("b", 0)
    requires var start := before + [HandleNext(true, true)];
             Meeting(start) && After(start) == Actor(runs, Some(y), [] + [y], [LeaseResult(x, x, true)])
    ensures before + [HandleNext(true, true)] <= acts && Meeting(acts)
    ensures After(acts) == Actor(runs["b" := Saved() + [T.Start(true)]], Some(y), [], [])
  {
    var start := before + [HandleNext(true, true)];
    assert [LeaseResult(x, x, true)] == [LeaseResult(x, x, true)] + [] && [] + [y] == [y] + [];
    Dropped(runs, x, y, [] + [y], []);
    MeetGrows(start, HandleNext(true, true));
    var a1 := start + [HandleNext(true, true)];
    Replies(runs, y, y, [], []);
    MeetGrows(a1, Reply(0, true));
    var a2 := a1 + [Reply(0, true)];
    assert [] + [LeaseResult(y, y, true)] == [LeaseResult(y, y, true)] + [];
    SavedWorld();
    assert WorldOf(After(a2), "b") == T.After(Saved());
    Grants(runs, y, y, [], []);
    MeetGrows(a2, HandleNext(true, true));
    acts := a2 + [HandleNext(true, true)];
  }

  /** One device is enough when a save follows an abort while the old grant is still queued: the old grant starts the new
      transaction and its own grant starts it again. No start is handled while a lease is outstanding here. */
  lemma {:induction false} OldGrantStartsNewSave() returns (acts: seq<Action>)
    ensures AllAlone(acts) && !AllCurrent(acts)
    ensures var g := After(acts); g.waiting == [] && g.queue == [] && WorldOf(g, "a").log == [T.Begin(1, 5)] + [T.Begin(1, 5)]
  {
    var x, runs := Tag("a", 0), map["a" := Saved()];
    acts := Saving([], "a");
    assert After(acts) == Actor(runs, None, [], [StartOf(x)] + []);
    Handles(runs, None, [], x, []);
    AloneGrows(acts, HandleNext(true, true));
    acts := acts + [HandleNext(true, true)];
    assert [] + [x] == [x] + [];
    Replies(runs, x, x, [], []);
    AloneGrows(acts, Reply(0, true));
    acts := acts + [Reply(0, true)];
    acts := SavedAgain(acts, x);
    acts := GrantedTwice(acts, x, Saved() + [T.Abort] + [SAVE]);
    SteadyAlone(acts);
    SavedAgainWorld();
    StartedTwice(Saved() + [T.Abort] + [SAVE]);
    NotFresh(Saved() + [T.Abort] + [SAVE]);
    if AllCurrent(acts) { DisciplinedScripts(acts, "a"); }
  }

  lemma {:induction false} NotFresh(run: seq<T.Event>)
    requires T.After(run).tx.Some?
    ensures !T.FreshRun(run + [T.Start(true)] + [T.Start(true)])
  {
    var once := run + [T.Start(true)];
    T.AfterAppend(run, T.Start(true));
    StaleLast(once, T.Start(true));
  }

  lemma {:induction false} StaleLast(run: seq<T.Event>, e: T.Event)
    requires !T.StartsFresh(T.After(run), e)
    ensures !T.FreshRun(run + [e])
  {
    var longer := run + [e];
    assert longer[..|run|] == run && longer[|run|] == e && |run| < |longer|;
  }

  function Waiting1(): T.Tx { T.Tx(1, [CHANGE], 5, 0, 0, T.Prevalidating) }

  lemma {:induction false} SavedAgainWorld()
    ensures T.After(Saved() + [T.Abort]).tx.None? && T.SaveAccepted(T.After(Saved() + [T.Abort]), [CHANGE], true)
    ensures |T.After(Saved() + [T.Abort]).plans| == 1
    ensures T.After(Saved() + [T.Abort] + [SAVE]).tx == Some(Waiting1()) && T.After(Saved() + [T.Abort] + [SAVE]).log == []
  {
    SavedWorld();
    assert T.RuleOf("s")(Rules()[0]);
    FirstIndexUnique(Rules(), T.RuleOf("s"), 0);
    T.AfterAppend(Saved(), T.Abort);
    T.AfterAppend(Saved() + [T.Abort], SAVE);
  }

  /** An event of device a that is no accepted save. */
  lemma {:induction false} Quietly(run: seq<T.Event>, c: Option<Tag>, q: seq<Item>, e: T.Event)
    requires !e.Start? && !e.Save?
    ensures Next(Actor(map["a" := run], c, [], q), Local("a", e)) == Actor(map["a" := run + [e]], c, [], q)
  {
    assert map["a" := run]["a" := run + [e]] == map["a" := run + [e]];
  }

  lemma {:induction false} Saves1(run: seq<T.Event>, c: Option<Tag>, q: seq<Item>)
    requires T.SaveAccepted(T.After(run), [CHANGE], true) && |T.After(run).plans| == 1
    ensures Next(Actor(map["a" := run], c, [], q), Local("a", SAVE)) == Actor(map["a" := run + [SAVE]], c, [], q + [StartOf(Tag("a", 1))])
  {
    var g := Actor(map["a" := run], c, [], q);
    assert Saves(g, Local("a", SAVE));
    assert map["a" := run]["a" := run + [SAVE]] == map["a" := run + [SAVE]];
  }

  lemma {:induction false} SavedAgain(acts: seq<Action>, x: Tag) returns (more: seq<Action>)
    requires Steady(acts) && x.device == "a" && After(acts) == Actor(map["a" := Saved()], Some(x), [], [] + [LeaseResult(x, x, true)])
    ensures Steady(more)
    ensures After(more) == Actor(map["a" := Saved() + [T.Abort] + [SAVE]], Some(x), [], [LeaseResult(x, x, true)] + [StartOf(Tag("a", 1))])
  {
    SavedAgainWorld();
    assert [] + [LeaseResult(x, x, true)] == [LeaseResult(x, x, true)];
    Quietly(Saved(), Some(x), [LeaseResult(x, x, true)], T.Abort);
    AloneGrows(acts, Local("a", T.Abort));
    var a1 := acts + [Local("a", T.Abort)];
    Saves1(Saved() + [T.Abort], Some(x), [LeaseResult(x, x, true)]);
    AloneGrows(a1, Local("a", SAVE));
    more := a1 + [Local("a", SAVE)];
  }

  lemma {:induction false} GrantedTwice(acts: seq<Action>, x: Tag, run: seq<T.Event>) returns (more: seq<Action>)
    requires Steady(acts) && x.device == "a"
    requires After(acts) == Actor(map["a" := run], Some(x), [], [LeaseResult(x, x, true)] + [StartOf(Tag("a", 1))])
    ensures Steady(more) && After(more) == Actor(map["a" := run + [T.Start(true)] + [T.Start(true)]], Some(Tag("a", 1)), [], [])
  {
    var y := Tag("a", 1);
    Grants(map["a" := run], x, x, [], [StartOf(y)]);
    AloneGrows(acts, HandleNext(true, true));
    var a1 := acts + [HandleNext(true, true)];
    assert map["a" := run]["a" := run + [T.Start(true)]] == map["a" := run + [T.Start(true)]];
    more := GrantedOnce(a1, x, y, run + [T.Start(true)]);
  }

  lemma {:induction false} GrantedOnce(acts: seq<Action>, x: Tag, y: Tag, run: seq<T.Event>) returns (more: seq<Action>)
    requires Steady(acts) && y.device == "a" && After(acts) == Actor(map["a" := run], Some(x), [], [StartOf(y)])
    ensures Steady(more) && After(more) == Actor(map["a" := run + [T.Start(true)]], Some(y), [], [])
  {
    assert [StartOf(y)] == [StartOf(y)] + [] && [] + [y] == [y] + [];
    Handles(map["a" := run], Some(x), [], y, []);
    AloneGrows(acts, HandleNext(true, true));
    var a2 := acts + [HandleNext(true, true)];
    Replies(map["a" := run], y, y, [], []);
    AloneGrows(a2, Reply(0, true));
    var a3 := a2 + [Reply(0, true)];
    assert [] + [LeaseResult(y, y, true)] == [LeaseResult(y, y, true)] + [];
    Grants(map["a" := run], y, y, [], []);
    AloneGrows(a3, HandleNext(true, true));
    more := a3 + [HandleNext(true, true)];
    assert map["a" := run]["a" := run + [T.Start(true)]] == map["a" := run + [T.Start(true)]];
  }
}
