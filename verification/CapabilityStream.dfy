/** The capability stream of one device: BEGIN announces a snapshot, tool and feature items are staged, END commits.
    Every handler is one step under the schema lock. */
module CapabilityStream {
  import opened Basics
  import opened Search

  const MAX_TOOLS: nat := 12
  const MAX_FEATURES: nat := 12
  const NAME_LEN: nat := 32
  const VALUE_NONE: nat := 0
  const VALUE_BOOL: nat := 1
  const VALUE_INT: nat := 2

  datatype State = Unknown | Discovering | Ready | Error
  datatype Op = Idle | Queued | Running

  datatype Tool = Tool(command: string, title: string, unit: string, valueType: nat, flags: nat, low: int, high: int, step: nat)

  /** `link` is the index of the tool that writes the feature, or -1. */
  datatype Feature = Feature(id: string, title: string, unit: string, kind: nat, version: nat, flags: nat, property: nat, valueType: nat,
                             decimals: nat, link: int)

  /** `settings` is the settings schema revision when the device supports settings. */
  datatype Snapshot = Snapshot(state: State, id: nat, revision: nat, settings: Option<nat>, tools: seq<Tool>, features: seq<Feature>)

  datatype Record = Record(hasCommitted: bool, committed: Snapshot, active: bool, expectedTools: nat, expectedFeatures: nat,
                           staging: Snapshot, op: Op)

  /** `addressed`: the protocol version and the device id are the record's. */
  datatype Frame =
    | Begin(addressed: bool, snapshot: Option<nat>, total: Option<nat>, revision: Option<nat>, featureTotal: Option<nat>,
            settings: Option<nat>)
    | ToolItem(addressed: bool, snapshot: Option<nat>, sequence: Option<nat>, valueType: Option<nat>, ranged: bool, command: string,
               title: string, unit: string, toolFlags: Option<nat>, low: int, high: int, step: nat)
    | FeatureItem(addressed: bool, snapshot: Option<nat>, place: nat, id: Option<string>, kind: Option<nat>, property: Option<nat>,
                  valueType: Option<nat>, version: Option<nat>, featureFlags: Option<nat>, decimals: Option<nat>, title: string,
                  unit: string, tool: Option<string>)
    | End(addressed: bool, snapshot: Option<nat>, total: Option<nat>)

  datatype Event =
    | Notify(frame: Frame)
    | Enqueue
    | Discover(busy: bool)
    | Refused
    | Settle(failed: bool)
    | Lost(owner: bool, manual: bool)
    | Forget(erased: bool)

  function Blank(): Snapshot { Snapshot(Unknown, 0, 0, None, [], []) }
  function Boot(): Record { Record(false, Blank(), false, 0, 0, Blank(), Idle) }

  // ----- field checks

  predicate NameChar(c: char) { 'a' <= c <= 'z' || 'A' <= c <= 'Z' || '0' <= c <= '9' || c == '_' || c == '-' || c == '.' }

  predicate ValidCommand(s: string) { 0 < |s| < NAME_LEN && forall i :: 0 <= i < |s| ==> NameChar(s[i]) }

  predicate ValidTool(t: Tool) {
    && ValidCommand(t.command) && t.valueType <= VALUE_INT
    && (t.valueType == VALUE_INT ==> t.low <= t.high && t.step != 0)
  }

  /** Value type of a property; unknown properties have none. */
  function PropertyType(p: nat): nat {
    if p == 1 || p == 7 then VALUE_BOOL else if 2 <= p <= 8 then VALUE_INT else VALUE_NONE
  }

  /** Primary property of the templates, all of version 1. */
  function TemplateProperty(kind: nat, version: nat): Option<nat> {
    if version != 1 then None
    else if kind == 1 || kind == 10 || kind == 11 then Some(1)
    else if kind == 2 then Some(8)
    else if kind == 12 then Some(2)
    else if kind == 20 then Some(3)
    else if kind == 30 then Some(5)
    else if kind == 31 then Some(6)
    else if kind == 40 then Some(7)
    else None
  }

  predicate MatchesTemplate(x: Feature) {
    && x.valueType == PropertyType(x.property)
    && (TemplateProperty(x.kind, x.version).Some? ==> x.property == TemplateProperty(x.kind, x.version).value)
  }

  /** The tool can write the feature. */
  predicate Compatible(x: Feature, t: Tool) {
    && x.valueType == t.valueType && (x.unit != "" && t.unit != "" ==> x.unit == t.unit)
    && (x.valueType == VALUE_INT ==> t.step != 0 && t.low <= t.high)
  }

  function OrElse(o: Option<nat>, d: nat): nat { if o.Some? then o.value else d }

  /** The tool a frame carries; None when a field is missing or invalid, and such a frame is ignored. */
  function ToolIn(f: Frame): (r: Option<Tool>)
    ensures r.Some? ==> f.ToolItem? && f.addressed && f.snapshot.Some? && f.sequence.Some? && ValidTool(r.value)
  {
    if !f.ToolItem? || !f.addressed || f.snapshot.None? || f.sequence.None? || f.valueType.None? then None
    else
      var t := Tool(f.command, if f.title != "" then f.title else f.command, f.unit, f.valueType.value, OrElse(f.toolFlags, 0), f.low, f.high, f.step);
      if (t.valueType == VALUE_INT && !f.ranged) || !ValidTool(t) then None else Some(t)
  }

  /** The feature a frame carries, its tool not yet resolved. */
  function FeatureIn(f: Frame): (r: Option<Feature>)
    ensures r.Some? ==> f.FeatureItem? && f.addressed && f.snapshot.Some? && MatchesTemplate(r.value) && 0 < |r.value.id| < NAME_LEN
  {
    if !f.FeatureItem? || !f.addressed || f.snapshot.None? || f.id.None? || f.kind.None? || f.property.None? || f.valueType.None? then None
    else if !(0 < |f.id.value| < NAME_LEN) then None
    else
      var x := Feature(f.id.value, if f.title != "" then f.title else f.id.value, f.unit, f.kind.value, OrElse(f.version, 0),
                       OrElse(f.featureFlags, 0), f.property.value, f.valueType.value, OrElse(f.decimals, 0), -1);
      if MatchesTemplate(x) then Some(x) else None
  }

  // ----- steps

  predicate BeginOk(f: Frame) {
    && f.Begin? && f.addressed && f.snapshot.Some? && f.total.Some? && f.revision.Some? && f.total.value <= MAX_TOOLS
    && (f.featureTotal.Some? ==> f.featureTotal.value <= MAX_FEATURES)
  }

  function Started(r: Record, f: Frame): Record
    requires BeginOk(f)
  {
    r.(active := true, expectedTools := f.total.value, expectedFeatures := OrElse(f.featureTotal, 0),
       staging := Snapshot(Discovering, f.snapshot.value, f.revision.value, f.settings, [], []))
  }

  /** Give up: the staged part is dropped and the operation ends; only a never committed record shows the error. */
  function Rejected(r: Record): Record {
    r.(active := false, staging := Blank(), op := Idle, committed := if r.hasCommitted then r.committed else r.committed.(state := Error))
  }

  function HasCommand(c: string): Tool -> bool { (t: Tool) => t.command == c }
  function HasId(id: string): Feature -> bool { (x: Feature) => x.id == id }

  predicate ToolAccepted(r: Record, f: Frame, t: Tool)
    requires f.ToolItem?
  {
    && r.active && Some(r.staging.id) == f.snapshot && f.sequence == Some(|r.staging.tools|) && |r.staging.tools| < r.expectedTools
    && FirstIndex(r.staging.tools, HasCommand(t.command)) == -1
  }

  predicate Named(f: Frame) requires f.FeatureItem? { f.tool.Some? && f.tool.value != "" }

  /** The index of the tool a feature frame names, -1 when it names none or an unknown one. */
  function LinkOf(tools: seq<Tool>, f: Frame): (k: int)
    requires f.FeatureItem?
    ensures -1 <= k < |tools|
  {
    if Named(f) then FirstIndex(tools, HasCommand(f.tool.value)) else -1
  }

  predicate FeatureAccepted(r: Record, f: Frame, x: Feature)
    requires f.FeatureItem?
  {
    && r.active && Some(r.staging.id) == f.snapshot && f.place == r.expectedTools + |r.staging.features|
    && |r.staging.features| < r.expectedFeatures
    && FirstIndex(r.staging.features, HasId(x.id)) == -1
    && (Named(f) ==> var k := LinkOf(r.staging.tools, f); k >= 0 && Compatible(x, r.staging.tools[k]))
  }

  predicate EndComplete(r: Record, f: Frame)
    requires f.End?
  {
    && r.active && f.snapshot == Some(r.staging.id) && f.total == Some(r.expectedTools)
    && |r.staging.tools| == r.expectedTools && |r.staging.features| == r.expectedFeatures
  }

  function Handle(r: Record, f: Frame): Record {
    match f
    case Begin(_, _, _, _, _, _) => if BeginOk(f) && r.op.Running? then Started(r, f) else r
    case ToolItem(_, _, _, _, _, _, _, _, _, _, _, _) =>
      var t := ToolIn(f);
      if t.None? then r
      else if ToolAccepted(r, f, t.value) then r.(staging := r.staging.(tools := r.staging.tools + [t.value]))
      else Rejected(r)
    case FeatureItem(_, _, _, _, _, _, _, _, _, _, _, _, _) =>
      var x := FeatureIn(f);
      if x.None? then r
      else if FeatureAccepted(r, f, x.value)
      then r.(staging := r.staging.(features := r.staging.features + [x.value.(link := LinkOf(r.staging.tools, f))]))
      else Rejected(r)
    case End(addressed, snapshot, total) =>
      if !addressed || snapshot.None? || total.None? then r
      else if EndComplete(r, f)
      then var s := r.staging.(state := Ready); r.(staging := s, committed := s, hasCommitted := true, active := false)
      else Rejected(r)
  }

  function Step(r: Record, e: Event): Record {
    match e
    case Notify(f) => Handle(r, f)
    case Enqueue => if r.op.Idle? then r.(op := Queued) else r
    case Discover(busy) =>
      var shown := r.committed.(state := Discovering);
      if busy then r.(op := Queued, committed := shown) else r.(op := Running, active := false, committed := shown)
    case Refused => Rejected(r)
    case Settle(failed) => Settled(r, failed)
    case Lost(owner, manual) =>
      if r.op.Running? && owner then Settled(r.(active := false, staging := Blank()), !manual)
      else if r.op.Queued? then Settled(r, !manual)
      else r
    case Forget(erased) => if erased then Boot() else r.(op := Idle, active := false, staging := Blank())
  }

  function Settled(r: Record, failed: bool): Record {
    r.(op := Idle, committed := if failed && !r.hasCommitted then r.committed.(state := Error) else r.committed)
  }

  function After(run: seq<Event>): Record {
    if |run| == 0 then Boot() else Step(After(run[..|run| - 1]), run[|run| - 1])
  }

  lemma {:induction false} AfterAppend(run: seq<Event>, e: Event)
    ensures After(run + [e]) == Step(After(run), e)
  {
    assert (run + [e])[..|run|] == run;
  }

  // ----- what a committed snapshot is

  ghost predicate DistinctCommands(tools: seq<Tool>) { forall i, j :: 0 <= i < j < |tools| ==> tools[i].command != tools[j].command }
  ghost predicate DistinctIds(features: seq<Feature>) { forall i, j :: 0 <= i < j < |features| ==> features[i].id != features[j].id }

  /** Valid tools with distinct commands; features with distinct ids, matching their templates, each writable one
      linked to an existing tool of its own type. */
  ghost predicate Sound(s: Snapshot) {
    && DistinctCommands(s.tools) && DistinctIds(s.features)
    && (forall i :: 0 <= i < |s.tools| ==> ValidTool(s.tools[i]))
    && (forall i :: 0 <= i < |s.features| ==>
          MatchesTemplate(s.features[i]) && Linked(s.tools, s.features[i]))
  }

  ghost predicate Linked(tools: seq<Tool>, x: Feature) {
    -1 <= x.link < |tools| && (x.link >= 0 ==> Compatible(x, tools[x.link]))
  }

  lemma {:induction false} HandleSound(r: Record, f: Frame)
    requires Sound(r.staging) && Sound(r.committed)
    ensures Sound(Handle(r, f).staging) && Sound(Handle(r, f).committed)
  {
    if ToolIn(f).Some? && ToolAccepted(r, f, ToolIn(f).value) { ToolSound(r.staging, ToolIn(f).value); }
    if FeatureIn(f).Some? && FeatureAccepted(r, f, FeatureIn(f).value) {
      FeatureSound(r.staging, FeatureIn(f).value.(link := LinkOf(r.staging.tools, f)));
    }
  }

  lemma {:induction false} ToolSound(s: Snapshot, t: Tool)
    requires Sound(s) && ValidTool(t) && FirstIndex(s.tools, HasCommand(t.command)) == -1
    ensures Sound(s.(tools := s.tools + [t]))
  {
    forall i | 0 <= i < |s.tools| ensures s.tools[i].command != t.command { assert !HasCommand(t.command)(s.tools[i]); }
  }

  lemma {:induction false} FeatureSound(s: Snapshot, x: Feature)
    requires Sound(s) && MatchesTemplate(x) && Linked(s.tools, x) && FirstIndex(s.features, HasId(x.id)) == -1
    ensures Sound(s.(features := s.features + [x]))
  {
    forall i | 0 <= i < |s.features| ensures s.features[i].id != x.id { assert !HasId(x.id)(s.features[i]); }
  }

  // ----- what was announced and sent

  /** The tool frames of a run that are not ignored, in order. */
  function ToolFrames(run: seq<Event>): seq<Frame> {
    if |run| == 0 then []
    else
      var e := run[|run| - 1];
      ToolFrames(run[..|run| - 1]) + if e.Notify? && ToolIn(e.frame).Some? then [e.frame] else []
  }

  function FeatureFrames(run: seq<Event>): seq<Frame> {
    if |run| == 0 then []
    else
      var e := run[|run| - 1];
      FeatureFrames(run[..|run| - 1]) + if e.Notify? && FeatureIn(e.frame).Some? then [e.frame] else []
  }

  /** Frame f made feature x: same fields, and linked to the tool it names if it names one. */
  ghost predicate Made(tools: seq<Tool>, f: Frame, x: Feature) {
    && FeatureIn(f).Some? && x == FeatureIn(f).value.(link := x.link)
    && (if Named(f) then 0 <= x.link < |tools| && tools[x.link].command == f.tool.value else x.link == -1)
  }

  /** The snapshot holds exactly these tools and features, each frame at its announced place in the sequence. */
  ghost predicate Carries(s: Snapshot, base: nat, ts: seq<Frame>, fs: seq<Frame>) {
    && |ts| == |s.tools| && |fs| == |s.features|
    && (forall i :: 0 <= i < |ts| ==> ToolIn(ts[i]) == Some(s.tools[i]) && ts[i].snapshot == Some(s.id) && ts[i].sequence == Some(i))
    && (forall i :: 0 <= i < |fs| ==> Made(s.tools, fs[i], s.features[i]) && fs[i].snapshot == Some(s.id) && fs[i].place == base + i)
  }

  ghost predicate Opens(e: Event, s: Snapshot, tools: nat, features: nat) {
    && e.Notify? && BeginOk(e.frame) && e.frame.total.value == tools && OrElse(e.frame.featureTotal, 0) == features
    && e.frame.snapshot == Some(s.id) && e.frame.revision == Some(s.revision) && e.frame.settings == s.settings
  }

  /** The staged part holds exactly what was sent since the BEGIN at position b. */
  ghost predicate StagedSince(run: seq<Event>, b: nat, r: Record) {
    && b < |run| && Opens(run[b], r.staging, r.expectedTools, r.expectedFeatures)
    && Carries(r.staging, r.expectedTools, ToolFrames(run[b + 1..]), FeatureFrames(run[b + 1..]))
  }

  /** Between the BEGIN at b and the END at e exactly the announced tools and features of s were sent, in sequence. */
  ghost predicate Announced(run: seq<Event>, b: nat, e: nat, s: Snapshot) {
    && b < e < |run| && Opens(run[b], s, |s.tools|, |s.features|)
    && run[e].Notify? && run[e].frame.End? && run[e].frame.addressed && run[e].frame.snapshot == Some(s.id)
    && run[e].frame.total == Some(|s.tools|)
    && Carries(s, |s.tools|, ToolFrames(run[b + 1..e]), FeatureFrames(run[b + 1..e]))
  }

  ghost predicate Staged(run: seq<Event>) { After(run).active ==> exists b: nat :: StagedSince(run, b, After(run)) }

  lemma {:induction false} FramesAppend(run: seq<Event>, e: Event)
    ensures ToolFrames(run + [e]) == ToolFrames(run) + if e.Notify? && ToolIn(e.frame).Some? then [e.frame] else []
    ensures FeatureFrames(run + [e]) == FeatureFrames(run) + if e.Notify? && FeatureIn(e.frame).Some? then [e.frame] else []
  {
    assert (run + [e])[..|run|] == run;
  }

  /** An accepted tool extends what the snapshot carries. */
  lemma {:induction false} ToolCarried(r: Record, f: Frame, ts: seq<Frame>, fs: seq<Frame>)
    requires ToolIn(f).Some? && ToolAccepted(r, f, ToolIn(f).value) && Carries(r.staging, r.expectedTools, ts, fs)
    ensures Carries(Handle(r, f).staging, r.expectedTools, ts + [f], fs)
  {
    var s, u := r.staging, Handle(r, f).staging;
    forall i | 0 <= i < |fs| ensures Made(u.tools, fs[i], u.features[i]) { assert Made(s.tools, fs[i], s.features[i]); }
  }

  lemma {:induction false} FeatureCarried(r: Record, f: Frame, ts: seq<Frame>, fs: seq<Frame>)
    requires FeatureIn(f).Some? && FeatureAccepted(r, f, FeatureIn(f).value) && Carries(r.staging, r.expectedTools, ts, fs)
    ensures Carries(Handle(r, f).staging, r.expectedTools, ts, fs + [f])
  {
    var s, u := r.staging, Handle(r, f).staging;
    forall i | 0 <= i < |fs| + 1 ensures Made(u.tools, (fs + [f])[i], u.features[i]) {
      if i < |fs| { assert Made(s.tools, fs[i], s.features[i]); }
      else if Named(f) { assert HasCommand(f.tool.value)(s.tools[LinkOf(s.tools, f)]); }
    }
  }

  predicate Restarts(r: Record, e: Event) { e.Notify? && BeginOk(e.frame) && r.op.Running? }

  /** A step after which a stream is still active accepted its frame or ignored it. */
  lemma {:induction false} ActiveStep(r: Record, e: Event)
    requires Step(r, e).active && !Restarts(r, e)
    ensures var u := Step(r, e);
            && r.active && u.expectedTools == r.expectedTools && u.expectedFeatures == r.expectedFeatures
            && u.staging.id == r.staging.id && u.staging.revision == r.staging.revision && u.staging.settings == r.staging.settings
    ensures e.Notify? && ToolIn(e.frame).Some? ==> ToolAccepted(r, e.frame, ToolIn(e.frame).value) && Step(r, e) == Handle(r, e.frame)
    ensures e.Notify? && FeatureIn(e.frame).Some? ==> FeatureAccepted(r, e.frame, FeatureIn(e.frame).value) && Step(r, e) == Handle(r, e.frame)
    ensures !(e.Notify? && (ToolIn(e.frame).Some? || FeatureIn(e.frame).Some?)) ==> Step(r, e).staging == r.staging
  {
  }

  lemma {:induction false} CarriedStep(r: Record, e: Event, ts: seq<Frame>, fs: seq<Frame>)
    requires Step(r, e).active && !Restarts(r, e) && Carries(r.staging, r.expectedTools, ts, fs)
    ensures Carries(Step(r, e).staging, r.expectedTools,
                    ts + if e.Notify? && ToolIn(e.frame).Some? then [e.frame] else [],
                    fs + if e.Notify? && FeatureIn(e.frame).Some? then [e.frame] else [])
  {
    ActiveStep(r, e);
    if e.Notify? && ToolIn(e.frame).Some? { ToolCarried(r, e.frame, ts, fs); assert fs + [] == fs; }
    else if e.Notify? && FeatureIn(e.frame).Some? { FeatureCarried(r, e.frame, ts, fs); assert ts + [] == ts; }
    else { assert ts + [] == ts && fs + [] == fs; }
  }

  /** A step that leaves the stream active extends the staged part or starts a new one. */
  lemma {:induction false} StagedContinues(run: seq<Event>, b: nat, e: Event, r: Record)
    requires StagedSince(run, b, r) && Step(r, e).active && !Restarts(r, e)
    ensures StagedSince(run + [e], b, Step(r, e))
  {
    var longer := run + [e];
    assert longer[b] == run[b];
    assert longer[b + 1..] == run[b + 1..] + [e];
    FramesAppend(run[b + 1..], e);
    ActiveStep(r, e);
    CarriedStep(r, e, ToolFrames(run[b + 1..]), FeatureFrames(run[b + 1..]));
  }

  lemma {:induction false} StagedStep(run: seq<Event>, e: Event)
    requires Staged(run)
    ensures Staged(run + [e])
  {
    AfterAppend(run, e);
    var r, u := After(run), Step(After(run), e);
    if u.active {
      if Restarts(r, e) {
        assert (run + [e])[|run|] == e && (run + [e])[|run| + 1..] == [];
        assert StagedSince(run + [e], |run|, u);
      } else {
        ActiveStep(r, e);
        var b: nat :| StagedSince(run, b, r);
        StagedContinues(run, b, e, r);
      }
    }
  }

  lemma {:induction false} StagedAlways(run: seq<Event>)
    ensures Staged(run)
  {
    if |run| > 0 {
      StagedAlways(run[..|run| - 1]);
      StagedStep(run[..|run| - 1], run[|run| - 1]);
      assert run[..|run| - 1] + [run[|run| - 1]] == run;
    }
  }

  /** Same snapshot up to the state shown for it. */
  predicate SameContent(a: Snapshot, b: Snapshot) { a.(state := b.state) == b }

  lemma {:induction false} AnnouncedGrows(run: seq<Event>, x: Event, b: nat, e: nat, s: Snapshot, s': Snapshot)
    requires Announced(run, b, e, s) && SameContent(s, s')
    ensures Announced(run + [x], b, e, s')
  {
    assert (run + [x])[b] == run[b] && (run + [x])[e] == run[e] && (run + [x])[b + 1..e] == run[b + 1..e];
  }

  predicate Commits(r: Record, e: Event) { e.Notify? && e.frame.End? && e.frame.addressed && EndComplete(r, e.frame) }

  /** Only a complete END changes what is committed: every other event, including rejected and partial streams, leaves
      tools, features and revision alone, and a frame can only turn the state of a never committed record to Error. */
  lemma {:induction false} CommittedChangesOnlyAtEnd(r: Record, e: Event)
    requires !(e.Forget? && e.erased) && !Commits(r, e)
    ensures var u := Step(r, e);
            && u.hasCommitted == r.hasCommitted && SameContent(u.committed, r.committed)
            && (e.Notify? && u.committed != r.committed ==> !r.hasCommitted && u.committed.state.Error? && !u.active && u.op.Idle?)
  {
  }

  /** A complete END commits what was staged since its BEGIN. */
  lemma {:induction false} EndAnnounced(run: seq<Event>, b: nat, e: Event, r: Record)
    requires StagedSince(run, b, r) && Commits(r, e)
    ensures Announced(run + [e], b, |run|, Step(r, e).committed) && Step(r, e).hasCommitted
  {
    var longer := run + [e];
    assert longer[b] == run[b] && longer[|run|] == e;
    assert longer[b + 1..|run|] == run[b + 1..];
  }

  ghost predicate AnnouncedSomewhere(run: seq<Event>, s: Snapshot) { exists b: nat, e: nat :: Announced(run, b, e, s) }

  lemma {:induction false} OriginStep(run: seq<Event>, e: Event, r: Record)
    requires r == After(run) && (r.hasCommitted ==> AnnouncedSomewhere(run, r.committed))
    ensures Step(r, e).hasCommitted ==> AnnouncedSomewhere(run + [e], Step(r, e).committed)
  {
    if Commits(r, e) {
      StagedAlways(run);
      var b: nat :| StagedSince(run, b, r);
      EndAnnounced(run, b, e, r);
    } else if !(e.Forget? && e.erased) {
      CommittedChangesOnlyAtEnd(r, e);
      if r.hasCommitted {
        var b: nat, k: nat :| Announced(run, b, k, r.committed);
        AnnouncedGrows(run, e, b, k, r.committed, Step(r, e).committed);
      }
    }
  }

  lemma {:induction false} StepSound(r: Record, e: Event)
    requires Sound(r.staging) && Sound(r.committed)
    ensures Sound(Step(r, e).staging) && Sound(Step(r, e).committed)
  {
    if e.Notify? { HandleSound(r, e.frame); }
  }

  /** In every run, whatever is committed was announced by some BEGIN and closed by some END between which exactly its
      tools and features were sent in sequence, and it is sound. */
  lemma {:induction false} CommittedAsAnnounced(run: seq<Event>)
    ensures Sound(After(run).staging) && Sound(After(run).committed)
    ensures After(run).hasCommitted ==> AnnouncedSomewhere(run, After(run).committed)
  {
    if |run| > 0 {
      var before, e := run[..|run| - 1], run[|run| - 1];
      assert run == before + [e];
      CommittedAsAnnounced(before);
      OriginStep(before, e, After(before));
      StepSound(After(before), e);
      AfterAppend(before, e);
    }
  }

  // ----- every well-formed stream is committed

  /** A well-formed stream for a snapshot id: tools in sequence with distinct commands, then features in sequence with
      distinct ids, each naming no tool or a compatible one. */
  ghost predicate WellFormedTools(id: nat, ts: seq<Frame>) {
    && (forall i :: 0 <= i < |ts| ==> ToolIn(ts[i]).Some? && ts[i].snapshot == Some(id) && ts[i].sequence == Some(i))
    && (forall i, j :: 0 <= i < j < |ts| ==> ToolIn(ts[i]).Some? && ToolIn(ts[j]).Some? ==> ToolIn(ts[i]).value.command != ToolIn(ts[j]).value.command)
  }

  ghost predicate WellFormedFeatures(id: nat, base: nat, tools: seq<Tool>, fs: seq<Frame>) {
    && (forall i :: 0 <= i < |fs| ==> FeatureIn(fs[i]).Some? && fs[i].snapshot == Some(id) && fs[i].place == base + i)
    && (forall i :: 0 <= i < |fs| && FeatureIn(fs[i]).Some? && Named(fs[i]) ==>
          var k := LinkOf(tools, fs[i]); k >= 0 && Compatible(FeatureIn(fs[i]).value, tools[k]))
    && (forall i, j :: 0 <= i < j < |fs| ==> FeatureIn(fs[i]).Some? && FeatureIn(fs[j]).Some? ==> FeatureIn(fs[i]).value.id != FeatureIn(fs[j]).value.id)
  }

  function HandleAll(r: Record, fs: seq<Frame>): Record {
    if |fs| == 0 then r else Handle(HandleAll(r, fs[..|fs| - 1]), fs[|fs| - 1])
  }

  /** A tool frame in sequence with a command not staged yet is staged. */
  lemma {:induction false} ToolStaged(u: Record, f: Frame)
    requires u.active && ToolIn(f).Some? && f.snapshot == Some(u.staging.id) && f.sequence == Some(|u.staging.tools|)
    requires |u.staging.tools| < u.expectedTools && forall i :: 0 <= i < |u.staging.tools| ==> u.staging.tools[i].command != ToolIn(f).value.command
    ensures Handle(u, f) == u.(staging := u.staging.(tools := u.staging.tools + [ToolIn(f).value]))
  {
    FirstIndexUnique(u.staging.tools, HasCommand(ToolIn(f).value.command), -1);
  }

  /** Handling a prefix of the tools stages exactly that prefix. */
  lemma {:induction false} ToolsStaged(r: Record, ts: seq<Frame>)
    requires r.active && r.staging.tools == [] && |ts| <= r.expectedTools && WellFormedTools(r.staging.id, ts)
    ensures var u := HandleAll(r, ts);
            && u == r.(staging := r.staging.(tools := u.staging.tools)) && |u.staging.tools| == |ts|
            && forall i :: 0 <= i < |ts| ==> ToolIn(ts[i]) == Some(u.staging.tools[i])
  {
    if |ts| > 0 {
      var before, f := ts[..|ts| - 1], ts[|ts| - 1];
      assert forall i :: 0 <= i < |before| ==> before[i] == ts[i];
      ToolsStaged(r, before);
      var u := HandleAll(r, before);
      forall i | 0 <= i < |u.staging.tools| ensures u.staging.tools[i].command != ToolIn(f).value.command {
        assert ToolIn(before[i]) == Some(u.staging.tools[i]) && before[i] == ts[i];
      }
      ToolStaged(u, f);
    }
  }

  /** A feature frame in sequence with a new id and no tool or a compatible one is staged with its link. */
  lemma {:induction false} FeatureStaged(u: Record, f: Frame)
    requires u.active && FeatureIn(f).Some? && f.snapshot == Some(u.staging.id) && f.place == u.expectedTools + |u.staging.features|
    requires |u.staging.features| < u.expectedFeatures
    requires Named(f) ==> var k := LinkOf(u.staging.tools, f); k >= 0 && Compatible(FeatureIn(f).value, u.staging.tools[k])
    requires forall i :: 0 <= i < |u.staging.features| ==> u.staging.features[i].id != FeatureIn(f).value.id
    ensures Handle(u, f) == u.(staging := u.staging.(features := u.staging.features + [FeatureIn(f).value.(link := LinkOf(u.staging.tools, f))]))
  {
    FirstIndexUnique(u.staging.features, HasId(FeatureIn(f).value.id), -1);
  }

  lemma {:induction false} FeaturesStaged(r: Record, fs: seq<Frame>)
    requires r.active && r.staging.features == [] && |fs| <= r.expectedFeatures
    requires WellFormedFeatures(r.staging.id, r.expectedTools, r.staging.tools, fs)
    ensures var u := HandleAll(r, fs);
            && u == r.(staging := r.staging.(features := u.staging.features)) && |u.staging.features| == |fs|
            && forall i :: 0 <= i < |fs| ==> FeatureIn(fs[i]).Some? && u.staging.features[i] == FeatureIn(fs[i]).value.(link := LinkOf(r.staging.tools, fs[i]))
  {
    if |fs| > 0 {
      var before, f := fs[..|fs| - 1], fs[|fs| - 1];
      assert forall i :: 0 <= i < |before| ==> before[i] == fs[i];
      FeaturesStaged(r, before);
      var u := HandleAll(r, before);
      forall i | 0 <= i < |u.staging.features| ensures u.staging.features[i].id != FeatureIn(f).value.id {
        assert before[i] == fs[i];
      }
      FeatureStaged(u, f);
    }
  }

  /** While a discovery runs, a BEGIN followed by a well-formed stream of the announced size and its END commits
      exactly that stream, whatever was staged or committed before. */
  lemma {:induction false} WellFormedStreamCommits(r: Record, begin: Frame, ts: seq<Frame>, fs: seq<Frame>, last: Frame)
    requires r.op.Running? && BeginOk(begin) && begin.total == Some(|ts|) && OrElse(begin.featureTotal, 0) == |fs|
    requires WellFormedTools(begin.snapshot.value, ts)
    requires WellFormedFeatures(begin.snapshot.value, |ts|, HandleAll(Handle(r, begin), ts).staging.tools, fs)
    requires last == End(true, begin.snapshot, begin.total)
    ensures var u := Handle(HandleAll(HandleAll(Handle(r, begin), ts), fs), last);
            && u.hasCommitted && u.committed.state.Ready? && u.committed.revision == begin.revision.value
            && Carries(u.committed, |ts|, ts, fs)
  {
    var r0 := Handle(r, begin);
    ToolsStaged(r0, ts);
    var r1 := HandleAll(r0, ts);
    FeaturesStaged(r1, fs);
    var r2 := HandleAll(r1, fs);
    forall i | 0 <= i < |fs| ensures Made(r2.staging.tools, fs[i], r2.staging.features[i]) {
      if Named(fs[i]) { assert HasCommand(fs[i].tool.value)(r1.staging.tools[LinkOf(r1.staging.tools, fs[i])]); }
    }
  }
}
