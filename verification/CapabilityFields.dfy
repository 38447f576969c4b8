/** Which capability frames are taken and what they become, field by field, and that a committed snapshot shows
    exactly the fields that were sent. */
module CapabilityFields {
  import opened Basics
  import opened Search
  import opened CapabilityStream

  /** A command name: 1 to 31 letters, digits, underscores, dashes and dots. */
  ghost predicate IsCommand(s: string) {
    1 <= |s| <= 31 && forall c :: c in s ==> 'a' <= c <= 'z' || 'A' <= c <= 'Z' || '0' <= c <= '9' || c in {'_', '-', '.'}
  }

  lemma {:induction false} CommandIff(s: string)
    ensures ValidCommand(s) <==> IsCommand(s)
  {
    if IsCommand(s) { forall i | 0 <= i < |s| ensures NameChar(s[i]) { assert s[i] in s; } }
  }

  /** What makes a tool frame one to take: addressed, with snapshot, sequence and value type; a command name; a value type
      of none, BOOL (1) or INT (2); and for INT a range with its step that is not empty. */
  ghost predicate TakesTool(f: Frame) {
    && f.ToolItem? && f.addressed && f.snapshot.Some? && f.sequence.Some? && f.valueType.Some?
    && IsCommand(f.command) && f.valueType.value <= 2
    && (f.valueType.value == 2 ==> f.ranged && f.low <= f.high && f.step > 0)
  }

  /** The tool shows the frame's fields; its title is the command when none was sent, its flags are 0 when none were. */
  ghost predicate ShowsTool(f: Frame, t: Tool)
    requires f.ToolItem?
  {
    && t.command == f.command && t.unit == f.unit && Some(t.valueType) == f.valueType
    && t.low == f.low && t.high == f.high && t.step == f.step
    && (f.title != "" ==> t.title == f.title) && (f.title == "" ==> t.title == f.command)
    && (f.toolFlags.Some? ==> t.flags == f.toolFlags.value) && (f.toolFlags.None? ==> t.flags == 0)
  }

  /** A frame carries a tool exactly under these conditions, and then the tool shows its fields. */
  lemma {:induction false} ToolFields(f: Frame)
    ensures ToolIn(f).Some? <==> TakesTool(f)
    ensures ToolIn(f).Some? ==> ShowsTool(f, ToolIn(f).value)
  {
    if f.ToolItem? { CommandIff(f.command); }
  }

  /** The properties: 1 and 7 are flags, 2 to 6 and 8 numbers; a property outside has no value. */
  ghost predicate TypeOfProperty(property: nat, valueType: nat) {
    && (property in {1, 7} <==> valueType == 1) && (property in {2, 3, 4, 5, 6, 8} <==> valueType == 2)
    && (property == 0 || property > 8 <==> valueType == 0)
  }

  /** The feature kinds with a fixed property in version 1: relay, outlet and light show property 1, a generic value 8, a
      dimmable light 2, a fan 3, a temperature 5, a humidity 6, a contact 7. */
  ghost predicate FitsKind(kind: nat, version: nat, property: nat) {
    version == 1 ==>
      && (kind in {1, 10, 11} ==> property == 1) && (kind == 2 ==> property == 8) && (kind == 12 ==> property == 2)
      && (kind == 20 ==> property == 3) && (kind == 30 ==> property == 5) && (kind == 31 ==> property == 6) && (kind == 40 ==> property == 7)
  }

  ghost predicate TakesFeature(f: Frame) {
    && f.FeatureItem? && f.addressed && f.snapshot.Some? && f.id.Some? && f.kind.Some? && f.property.Some? && f.valueType.Some?
    && 1 <= |f.id.value| <= 31 && TypeOfProperty(f.property.value, f.valueType.value)
    && FitsKind(f.kind.value, if f.version.Some? then f.version.value else 0, f.property.value)
  }

  ghost predicate ShowsFeature(f: Frame, x: Feature)
    requires f.FeatureItem?
  {
    && Some(x.id) == f.id && x.unit == f.unit && Some(x.kind) == f.kind && Some(x.property) == f.property && Some(x.valueType) == f.valueType
    && (f.title != "" ==> x.title == f.title) && (f.title == "" ==> x.title == x.id)
    && (f.version.Some? ==> x.version == f.version.value) && (f.version.None? ==> x.version == 0)
    && (f.featureFlags.Some? ==> x.flags == f.featureFlags.value) && (f.featureFlags.None? ==> x.flags == 0)
    && (f.decimals.Some? ==> x.decimals == f.decimals.value) && (f.decimals.None? ==> x.decimals == 0)
  }

  /** The same of a feature frame. */
  lemma {:induction false} FeatureFields(f: Frame)
    ensures FeatureIn(f).Some? <==> TakesFeature(f)
    ensures FeatureIn(f).Some? ==> ShowsFeature(f, FeatureIn(f).value)
  {
  }

  /** What may be sent for an announced snapshot: tools numbered from 0 with distinct commands, then features numbered on
      with distinct ids, each naming nothing or a tool that was sent and that may write it. */
  ghost predicate MaySend(id: nat, ts: seq<Frame>, fs: seq<Frame>) {
    && (forall i :: 0 <= i < |ts| ==> TakesTool(ts[i]) && ts[i].snapshot == Some(id) && ts[i].sequence == Some(i))
    && (forall i, j :: 0 <= i < j < |ts| && TakesTool(ts[i]) && TakesTool(ts[j]) ==> ts[i].command != ts[j].command)
    && (forall i :: 0 <= i < |fs| ==> TakesFeature(fs[i]) && fs[i].snapshot == Some(id) && fs[i].place == |ts| + i)
    && (forall i, j :: 0 <= i < j < |fs| && TakesFeature(fs[i]) && TakesFeature(fs[j]) ==> fs[i].id != fs[j].id)
    && (forall i :: 0 <= i < |fs| ==> WritableIn(ts, fs[i]))
  }

  /** The feature names no tool, or one that was sent with its value type and, if both have a unit, with its unit. */
  ghost predicate WritableIn(ts: seq<Frame>, f: Frame) {
    f.FeatureItem? ==>
      || f.tool.None? || f.tool.value == ""
      || exists k :: 0 <= k < |ts| && ts[k].ToolItem? && ts[k].command == f.tool.value && ts[k].valueType == f.valueType
                     && (f.unit == "" || ts[k].unit == "" || f.unit == ts[k].unit)
  }

  /** The snapshot shows the frames, and each feature is linked to the tool its frame names, or to none. */
  ghost predicate Shows(s: Snapshot, ts: seq<Frame>, fs: seq<Frame>) {
    && |s.tools| == |ts| && |s.features| == |fs|
    && (forall i :: 0 <= i < |ts| ==> ts[i].ToolItem? && ShowsTool(ts[i], s.tools[i]))
    && (forall i :: 0 <= i < |fs| ==> fs[i].FeatureItem? && ShowsFeature(fs[i], s.features[i]) && LinksTo(s, fs[i], s.features[i]))
  }

  ghost predicate LinksTo(s: Snapshot, f: Frame, x: Feature)
    requires f.FeatureItem?
  {
    if f.tool.None? || f.tool.value == "" then x.link == -1
    else 0 <= x.link < |s.tools| && s.tools[x.link].command == f.tool.value
  }

  lemma {:induction false} SentTools(id: nat, ts: seq<Frame>, fs: seq<Frame>)
    requires MaySend(id, ts, fs)
    ensures WellFormedTools(id, ts)
  {
    forall i | 0 <= i < |ts| ensures ToolIn(ts[i]).Some? && ToolIn(ts[i]).value.command == ts[i].command { ToolFields(ts[i]); }
  }

  lemma {:induction false} SentFeatures(id: nat, ts: seq<Frame>, fs: seq<Frame>, tools: seq<Tool>)
    requires MaySend(id, ts, fs) && |tools| == |ts| && forall i :: 0 <= i < |ts| ==> ToolIn(ts[i]) == Some(tools[i])
    ensures WellFormedFeatures(id, |ts|, tools, fs)
  {
    forall i | 0 <= i < |fs| ensures FeatureIn(fs[i]).Some? && Some(FeatureIn(fs[i]).value.id) == fs[i].id { FeatureFields(fs[i]); }
    forall i | 0 <= i < |fs| && Named(fs[i]) ensures var k := LinkOf(tools, fs[i]); k >= 0 && Compatible(FeatureIn(fs[i]).value, tools[k]) {
      FeatureFields(fs[i]);
      SentLink(id, ts, fs, tools, fs[i]);
    }
  }

  lemma {:induction false} SentLink(id: nat, ts: seq<Frame>, fs: seq<Frame>, tools: seq<Tool>, f: Frame)
    requires MaySend(id, ts, fs) && |tools| == |ts| && forall i :: 0 <= i < |ts| ==> ToolIn(ts[i]) == Some(tools[i])
    requires TakesFeature(f) && Named(f) && WritableIn(ts, f) && FeatureIn(f).Some?
    ensures var k := LinkOf(tools, f); k >= 0 && Compatible(FeatureIn(f).value, tools[k])
  {
    var k :| 0 <= k < |ts| && ts[k].ToolItem? && ts[k].command == f.tool.value && ts[k].valueType == f.valueType
             && (f.unit == "" || ts[k].unit == "" || f.unit == ts[k].unit);
    forall j | 0 <= j < |ts| ensures tools[j].command == ts[j].command && TakesTool(ts[j]) { ToolFields(ts[j]); }
    LinkAt(tools, f, k);
    ToolFields(ts[k]);
    FeatureFields(f);
  }

  lemma {:induction false} LinkAt(tools: seq<Tool>, f: Frame, k: nat)
    requires f.FeatureItem? && Named(f) && k < |tools| && tools[k].command == f.tool.value
    requires forall j :: 0 <= j < k ==> tools[j].command != tools[k].command
    ensures LinkOf(tools, f) == k
  {
    FirstIndexUnique(tools, HasCommand(f.tool.value), k);
  }

  lemma {:induction false} CarriedShows(s: Snapshot, base: nat, ts: seq<Frame>, fs: seq<Frame>)
    requires Carries(s, base, ts, fs)
    ensures Shows(s, ts, fs)
  {
    forall i | 0 <= i < |ts| ensures ts[i].ToolItem? && ShowsTool(ts[i], s.tools[i]) { ToolFields(ts[i]); }
    forall i | 0 <= i < |fs| ensures fs[i].FeatureItem? && ShowsFeature(fs[i], s.features[i]) && LinksTo(s, fs[i], s.features[i]) {
      FeatureFields(fs[i]);
      assert Made(s.tools, fs[i], s.features[i]);
    }
  }

  /** Staging the frames fills the tools and features and changes nothing else. */
  lemma {:induction false} SentIsStaged(r: Record, ts: seq<Frame>, fs: seq<Frame>)
    requires r.active && r.staging.tools == [] && r.staging.features == [] && r.expectedTools == |ts| && r.expectedFeatures == |fs|
    requires MaySend(r.staging.id, ts, fs)
    ensures WellFormedTools(r.staging.id, ts) && WellFormedFeatures(r.staging.id, |ts|, HandleAll(r, ts).staging.tools, fs)
    ensures var u := HandleAll(HandleAll(r, ts), fs);
            && u == r.(staging := r.staging.(tools := u.staging.tools, features := u.staging.features))
            && |u.staging.tools| == |ts| && |u.staging.features| == |fs|
  {
    SentTools(r.staging.id, ts, fs);
    ToolsStaged(r, ts);
    SentFeatures(r.staging.id, ts, fs, HandleAll(r, ts).staging.tools);
    FeaturesStaged(HandleAll(r, ts), fs);
  }

  /** A BEGIN taken during a discovery starts an empty snapshot under its id and revision. */
  lemma {:induction false} BeginEffect(r: Record, f: Frame)
    requires r.op == Running && f.Begin? && f.addressed && f.snapshot.Some? && f.revision.Some? && f.total.Some? && f.total.value <= 12
    requires f.featureTotal.Some? ==> f.featureTotal.value <= 12
    ensures Handle(r, f) == r.(active := true, expectedTools := f.total.value,
                               expectedFeatures := if f.featureTotal.Some? then f.featureTotal.value else 0,
                               staging := Snapshot(Discovering, f.snapshot.value, f.revision.value, f.settings, [], []))
  {
  }

  /** While a discovery runs, a BEGIN, frames that may be sent in the announced numbers, and their END commit a snapshot
      that shows exactly those frames under the announced id and revision. */
  lemma {:induction false} SentIsCommitted(r: Record, begin: Frame, ts: seq<Frame>, fs: seq<Frame>)
    requires r.op == Running && begin.Begin? && begin.addressed && begin.snapshot.Some? && begin.revision.Some?
    requires begin.total == Some(|ts|) && |ts| <= 12 && |fs| <= 12
    requires begin.featureTotal == Some(|fs|) || (begin.featureTotal.None? && fs == [])
    requires MaySend(begin.snapshot.value, ts, fs)
    ensures var u := Handle(HandleAll(HandleAll(Handle(r, begin), ts), fs), End(true, begin.snapshot, begin.total));
            && u.hasCommitted && !u.active && u.committed.state == Ready && Shows(u.committed, ts, fs)
            && u.committed.id == begin.snapshot.value && u.committed.revision == begin.revision.value && u.committed.settings == begin.settings
  {
    BeginEffect(r, begin);
    SentIsStaged(Handle(r, begin), ts, fs);
    EndEffect(HandleAll(HandleAll(Handle(r, begin), ts), fs), End(true, begin.snapshot, begin.total));
    SentShows(r, begin, ts, fs);
  }

  lemma {:induction false} SentShows(r: Record, begin: Frame, ts: seq<Frame>, fs: seq<Frame>)
    requires r.op.Running? && BeginOk(begin) && begin.total == Some(|ts|) && OrElse(begin.featureTotal, 0) == |fs|
    requires WellFormedTools(begin.snapshot.value, ts)
    requires WellFormedFeatures(begin.snapshot.value, |ts|, HandleAll(Handle(r, begin), ts).staging.tools, fs)
    ensures Shows(Handle(HandleAll(HandleAll(Handle(r, begin), ts), fs), End(true, begin.snapshot, begin.total)).committed, ts, fs)
  {
    var last := End(true, begin.snapshot, begin.total);
    WellFormedStreamCommits(r, begin, ts, fs, last);
    CarriedShows(Handle(HandleAll(HandleAll(Handle(r, begin), ts), fs), last).committed, |ts|, ts, fs);
  }

  /** The staged part is dropped and the discovery ends; a committed snapshot stays, a record without one shows the error. */
  ghost predicate GaveUp(r: Record, u: Record) {
    && !u.active && u.op == Idle && u.hasCommitted == r.hasCommitted
    && u.staging == Snapshot(Unknown, 0, 0, None, [], [])
    && (r.hasCommitted ==> u.committed == r.committed) && (!r.hasCommitted ==> u.committed == r.committed.(state := Error))
  }

  /** A tool frame is staged exactly when a stream is active under its id and it is the next announced tool with a command
      not staged yet; otherwise the stream is given up. */
  lemma {:induction false} ToolEffect(r: Record, f: Frame)
    requires TakesTool(f)
    ensures ToolIn(f).Some?
    ensures var next := |r.staging.tools|;
            if r.active && f.snapshot == Some(r.staging.id) && f.sequence == Some(next) && next < r.expectedTools
               && forall i :: 0 <= i < next ==> r.staging.tools[i].command != f.command
            then Handle(r, f) == r.(staging := r.staging.(tools := r.staging.tools + [ToolIn(f).value]))
            else GaveUp(r, Handle(r, f))
  {
    ToolFields(f);
    var k := FirstIndex(r.staging.tools, HasCommand(f.command));
    if k < 0 { forall i | 0 <= i < |r.staging.tools| ensures r.staging.tools[i].command != f.command { assert !HasCommand(f.command)(r.staging.tools[i]); } }
    if k >= 0 { assert r.staging.tools[k].command == f.command; }
  }

  /** Tool k is the first with the command the frame names, and it may write the feature: the same value type, the same
      unit if both have one, and for INT a range with a step. */
  ghost predicate WrittenBy(tools: seq<Tool>, f: Frame, k: int)
    requires f.FeatureItem? && f.tool.Some?
  {
    && 0 <= k < |tools| && tools[k].command == f.tool.value && (forall j :: 0 <= j < k ==> tools[j].command != f.tool.value)
    && f.valueType == Some(tools[k].valueType) && (f.unit == "" || tools[k].unit == "" || f.unit == tools[k].unit)
    && (f.valueType == Some(2) ==> tools[k].step > 0 && tools[k].low <= tools[k].high)
  }

  ghost predicate NamesTool(f: Frame) { f.FeatureItem? && f.tool.Some? && f.tool.value != "" }

  lemma {:induction false} WriterIff(r: Record, f: Frame)
    requires TakesFeature(f) && NamesTool(f) && FeatureIn(f).Some?
    ensures var k := LinkOf(r.staging.tools, f);
            && (k >= 0 && Compatible(FeatureIn(f).value, r.staging.tools[k]) <==> WrittenBy(r.staging.tools, f, k))
            && forall j :: WrittenBy(r.staging.tools, f, j) ==> j == k
  {
    FeatureFields(f);
    var k := LinkOf(r.staging.tools, f);
    if k >= 0 { assert forall j :: 0 <= j < k ==> !HasCommand(f.tool.value)(r.staging.tools[j]); }
    forall j | WrittenBy(r.staging.tools, f, j) ensures j == k { FirstIndexUnique(r.staging.tools, HasCommand(f.tool.value), j); }
  }

  /** A feature frame is staged exactly when a stream is active under its id, it is the next announced feature with an id
      not staged yet, and it names no tool or one that may write it, to which it is then linked; otherwise the stream is
      given up. */
  lemma {:induction false} FeatureEffect(r: Record, f: Frame)
    requires TakesFeature(f)
    ensures FeatureIn(f).Some?
    ensures var next := |r.staging.features|;
            var fits := && r.active && f.snapshot == Some(r.staging.id) && f.place == r.expectedTools + next && next < r.expectedFeatures
                        && (forall i :: 0 <= i < next ==> Some(r.staging.features[i].id) != f.id);
            && (fits && !NamesTool(f) ==>
                  Handle(r, f) == r.(staging := r.staging.(features := r.staging.features + [FeatureIn(f).value.(link := -1)])))
            && (forall k :: fits && NamesTool(f) && WrittenBy(r.staging.tools, f, k) ==>
                  Handle(r, f) == r.(staging := r.staging.(features := r.staging.features + [FeatureIn(f).value.(link := k)])))
            && (!fits || (NamesTool(f) && forall k :: !WrittenBy(r.staging.tools, f, k)) ==> GaveUp(r, Handle(r, f)))
  {
    FeatureFields(f);
    if NamesTool(f) { WriterIff(r, f); }
    var k := FirstIndex(r.staging.features, HasId(f.id.value));
    if k < 0 { forall i | 0 <= i < |r.staging.features| ensures r.staging.features[i].id != f.id.value { assert !HasId(f.id.value)(r.staging.features[i]); } }
    if k >= 0 { assert r.staging.features[k].id == f.id.value; }
  }

  /** Frames that are not to take change nothing, a BEGIN outside a running discovery included. */
  lemma {:induction false} OtherFramesIgnored(r: Record, f: Frame)
    ensures f.ToolItem? && !TakesTool(f) ==> Handle(r, f) == r
    ensures f.FeatureItem? && !TakesFeature(f) ==> Handle(r, f) == r
    ensures f.End? && (!f.addressed || f.snapshot.None? || f.total.None?) ==> Handle(r, f) == r
    ensures f.Begin? && r.op != Running ==> Handle(r, f) == r
    ensures f.Begin? && (!f.addressed || f.snapshot.None? || f.revision.None? || f.total.None? || f.total.value > 12) ==> Handle(r, f) == r
    ensures f.Begin? && f.featureTotal.Some? && f.featureTotal.value > 12 ==> Handle(r, f) == r
  {
    if f.ToolItem? { ToolFields(f); }
    if f.FeatureItem? { FeatureFields(f); }
  }

  /** An END under the active stream's id commits exactly when everything announced is staged, and gives the stream up otherwise. */
  lemma {:induction false} EndEffect(r: Record, f: Frame)
    requires f.End? && f.addressed && f.snapshot.Some? && f.total.Some?
    ensures var u := Handle(r, f);
            if r.active && f.snapshot == Some(r.staging.id) && f.total == Some(r.expectedTools)
               && |r.staging.tools| == r.expectedTools && |r.staging.features| == r.expectedFeatures
            then u.committed == r.staging.(state := Ready) && u.hasCommitted && !u.active && u.op == r.op
            else GaveUp(r, u)
  {
  }

  /** A discovery is queued once and runs when its command is sent; its end, its refusal, a lost link and forgetting the
      device leave what was committed in place unless the device's data is erased. */
  lemma {:induction false} DiscoveryEffect(r: Record, busy: bool, failed: bool, owner: bool, manual: bool)
    ensures Step(r, Enqueue) == r.(op := if r.op == Idle then Queued else r.op)
    ensures Step(r, Discover(busy)) == r.(op := if busy then Queued else Running, active := busy && r.active,
                                          committed := r.committed.(state := Discovering))
    ensures GaveUp(r, Step(r, Refused))
    ensures var u := Step(r, Settle(failed));
            u == r.(op := Idle, committed := if failed && !r.hasCommitted then r.committed.(state := Error) else r.committed)
    ensures var u := Step(r, Lost(owner, manual));
            && (r.op == Running && owner ==> && u.op == Idle && !u.active && u.staging == Snapshot(Unknown, 0, 0, None, [], [])
                                             && (r.hasCommitted || manual ==> u.committed == r.committed)
                                             && (!r.hasCommitted && !manual ==> u.committed == r.committed.(state := Error)))
            && (r.op == Queued ==> u == Step(r, Settle(!manual)))
            && (r.op == Idle || (r.op == Running && !owner) ==> u == r)
    ensures Step(r, Forget(true)) == Boot()
    ensures Step(r, Forget(false)) == r.(op := Idle, active := false, staging := Snapshot(Unknown, 0, 0, None, [], []))
  {
  }
}
