/** The capability handlers in place: staged and committed tools and features in fixed arrays with counts. */
module CapabilityRecord {
  import opened Basics
  import opened Search
  import opened CapabilityStream

  /** schema_valid_command_name. */
  method ValidCommandName(command: string) returns (ok: bool)
    ensures ok == ValidCommand(command)
  {
    if |command| == 0 || |command| >= NAME_LEN { return false; }
    for i := 0 to |command|
      invariant forall j :: 0 <= j < i ==> NameChar(command[j])
    {
      if !NameChar(command[i]) { return false; }
    }
    return true;
  }

  /** The checks on a tool frame's own fields, before the lock. */
  method ReadTool(f: Frame) returns (r: Option<Tool>)
    requires f.ToolItem?
    ensures r == ToolIn(f)
  {
    if !f.addressed || f.snapshot.None? || f.sequence.None? || f.valueType.None? { return None; }
    var t := Tool(f.command, if f.title != "" then f.title else f.command, f.unit, f.valueType.value, OrElse(f.toolFlags, 0),
                  f.low, f.high, f.step);
    if t.valueType == VALUE_INT && !f.ranged { return None; }
    var named := ValidCommandName(t.command);
    if !named || t.valueType > VALUE_INT || (t.valueType == VALUE_INT && (t.low > t.high || t.step == 0)) { return None; }
    return Some(t);
  }

  /** A snapshot without its tools and features. */
  datatype Head = Head(state: State, id: nat, revision: nat, settings: Option<nat>)
  const NO_HEAD := Head(Unknown, 0, 0, None)
  const NO_TOOL := Tool("", "", "", 0, 0, 0, 0, 0)
  const NO_FEATURE := Feature("", "", "", 0, 0, 0, 0, 0, 0, 0)

  function Whole(h: Head, tools: seq<Tool>, features: seq<Feature>): Snapshot {
    Snapshot(h.state, h.id, h.revision, h.settings, tools, features)
  }

  /** One stored snapshot: device_schema_snapshot_t with its two arrays of twelve. */
  class Buffer {
    var head: Head
    const tools: array<Tool>
    const features: array<Feature>
    var toolCount: nat
    var featureCount: nat

    ghost predicate Valid()
      reads this
    {
      tools.Length == MAX_TOOLS && features.Length == MAX_FEATURES && toolCount <= MAX_TOOLS && featureCount <= MAX_FEATURES
    }

    ghost function Value(): Snapshot
      requires Valid()
      reads this, tools, features
    {
      Whole(head, tools[..toolCount], features[..featureCount])
    }

    constructor ()
      ensures Valid() && Value() == Blank() && fresh(tools) && fresh(features)
    {
      head, toolCount, featureCount := NO_HEAD, 0, 0;
      tools := new Tool[MAX_TOOLS](i => NO_TOOL);
      features := new Feature[MAX_FEATURES](i => NO_FEATURE);
    }

    /** memset, then the given head. */
    method Reset(h: Head)
      requires Valid()
      modifies this
      ensures Valid() && Value() == Whole(h, [], [])
    {
      head, toolCount, featureCount := h, 0, 0;
    }

    /** The scan both the duplicate check and schema_resolve_writable_tool make. */
    method FindCommand(command: string) returns (k: int)
      requires Valid()
      ensures k == FirstIndex(Value().tools, HasCommand(command))
    {
      for i := 0 to toolCount
        invariant forall j :: 0 <= j < i ==> tools[j].command != command
      {
        if tools[i].command == command {
          FirstIndexUnique(tools[..toolCount], HasCommand(command), i);
          return i;
        }
      }
      FirstIndexUnique(tools[..toolCount], HasCommand(command), -1);
      return -1;
    }

    method FindFeature(id: string) returns (k: int)
      requires Valid()
      ensures k == FirstIndex(Value().features, HasId(id))
    {
      for i := 0 to featureCount
        invariant forall j :: 0 <= j < i ==> features[j].id != id
      {
        if features[i].id == id {
          FirstIndexUnique(features[..featureCount], HasId(id), i);
          return i;
        }
      }
      FirstIndexUnique(features[..featureCount], HasId(id), -1);
      return -1;
    }

    method AddTool(t: Tool)
      requires Valid() && toolCount < MAX_TOOLS
      modifies this`toolCount, tools
      ensures Valid() && toolCount == old(toolCount) + 1
      ensures Value() == (var s := old(Value()); s.(tools := s.tools + [t]))
    {
      tools[toolCount] := t;
      toolCount := toolCount + 1;
      assert tools[..toolCount] == old(tools[..toolCount]) + [t];
    }

    method AddFeature(x: Feature)
      requires Valid() && featureCount < MAX_FEATURES
      modifies this`featureCount, features
      ensures Valid() && featureCount == old(featureCount) + 1
      ensures Value() == (var s := old(Value()); s.(features := s.features + [x]))
    {
      features[featureCount] := x;
      featureCount := featureCount + 1;
      assert features[..featureCount] == old(features[..featureCount]) + [x];
    }

    /** The struct assignment that commits. */
    method CopyFrom(other: Buffer)
      requires Valid() && other.Valid() && other != this
      requires other.tools != tools && other.features != features
      modifies this, tools, features
      ensures Valid() && Value() == old(other.Value()) && other.Valid() && other.Value() == old(other.Value())
    {
      for i := 0 to MAX_TOOLS
        invariant Valid() && forall j :: 0 <= j < i ==> tools[j] == other.tools[j]
      {
        tools[i] := other.tools[i];
      }
      for i := 0 to MAX_FEATURES
        invariant Valid() && forall j :: 0 <= j < MAX_TOOLS ==> tools[j] == other.tools[j]
        invariant forall j :: 0 <= j < i ==> features[j] == other.features[j]
      {
        features[i] := other.features[i];
      }
      head, toolCount, featureCount := other.head, other.toolCount, other.featureCount;
      assert tools[..toolCount] == other.tools[..toolCount] && features[..featureCount] == other.features[..featureCount];
    }
  }

  class DeviceSchema {
    var hasCommitted: bool
    const committed: Buffer
    var active: bool
    var expectedTools: nat
    var expectedFeatures: nat
    const staging: Buffer
    var op: Op

    ghost predicate Valid()
      reads this, committed, staging
    {
      && committed.Valid() && staging.Valid() && committed != staging
      && committed.tools != staging.tools && committed.features != staging.features
      && (active ==> expectedTools <= MAX_TOOLS && expectedFeatures <= MAX_FEATURES)
    }

    ghost function View(): Record
      requires Valid()
      reads this, committed, staging, committed.tools, committed.features, staging.tools, staging.features
    {
      Record(hasCommitted, committed.Value(), active, expectedTools, expectedFeatures, staging.Value(), op)
    }

    constructor ()
      ensures Valid() && View() == Boot()
    {
      committed := new Buffer();
      staging := new Buffer();
      hasCommitted, active, expectedTools, expectedFeatures, op := false, false, 0, 0, Idle;
    }

    /** A frame the stream cannot continue with. */
    method Reject()
      requires Valid()
      modifies this, committed, staging
      ensures Valid() && View() == Rejected(old(View()))
    {
      active := false;
      staging.Reset(NO_HEAD);
      if !hasCommitted { committed.head := committed.head.(state := Error); }
      op := Idle;
    }

    method HandleBegin(f: Frame)
      requires Valid() && f.Begin?
      modifies this, staging
      ensures Valid() && View() == Handle(old(View()), f)
    {
      if !f.addressed || f.snapshot.None? || f.total.None? || f.revision.None? || f.total.value > MAX_TOOLS
         || (f.featureTotal.Some? && f.featureTotal.value > MAX_FEATURES) { return; }
      if !op.Running? { return; }
      staging.Reset(Head(Discovering, f.snapshot.value, f.revision.value, f.settings));
      expectedTools := f.total.value;
      expectedFeatures := if f.featureTotal.Some? then f.featureTotal.value else 0;
      active := true;
    }

    /** The test under the lock: stream, snapshot, sequence, room and no duplicate. */
    method ToolFits(f: Frame, t: Tool) returns (ok: bool)
      requires Valid() && f.ToolItem?
      ensures ok == ToolAccepted(View(), f, t)
      ensures ok ==> staging.toolCount < MAX_TOOLS
    {
      ok := active && f.snapshot == Some(staging.head.id) && f.sequence == Some(staging.toolCount) && staging.toolCount < expectedTools;
      if ok {
        var k := staging.FindCommand(t.command);
        ok := k < 0;
      }
    }

    method HandleTool(f: Frame)
      requires Valid() && f.ToolItem?
      modifies this, committed, staging, staging.tools
      ensures Valid() && View() == Handle(old(View()), f)
    {
      var t := ReadTool(f);
      if t.None? { return; }
      var fits := ToolFits(f, t.value);
      if fits { staging.AddTool(t.value); } else { Reject(); }
    }

    /** The same for a feature, and the tool that writes it. */
    method FeatureFits(f: Frame, x: Feature) returns (ok: bool, link: int)
      requires Valid() && f.FeatureItem?
      ensures ok == FeatureAccepted(View(), f, x)
      ensures ok ==> staging.featureCount < MAX_FEATURES && link == LinkOf(View().staging.tools, f)
    {
      link := -1;
      ok := active && f.snapshot == Some(staging.head.id) && f.place == expectedTools + staging.featureCount
            && staging.featureCount < expectedFeatures;
      if !ok { return; }
      var k := staging.FindFeature(x.id);
      if k >= 0 { return false, link; }
      if f.tool.Some? && f.tool.value != "" {
        link := staging.FindCommand(f.tool.value);
        ok := link >= 0 && Compatible(x, staging.tools[link]);
      }
    }

    method HandleFeature(f: Frame)
      requires Valid() && f.FeatureItem?
      modifies this, committed, staging, staging.features
      ensures Valid() && View() == Handle(old(View()), f)
    {
      var x := FeatureIn(f);
      if x.None? { return; }
      var fits, link := FeatureFits(f, x.value);
      if fits { staging.AddFeature(x.value.(link := link)); } else { Reject(); }
    }

    method HandleEnd(f: Frame)
      requires Valid() && f.End?
      modifies this, committed, staging, committed.tools, committed.features
      ensures Valid() && View() == Handle(old(View()), f)
    {
      if !f.addressed || f.snapshot.None? || f.total.None? { return; }
      if active && f.snapshot == Some(staging.head.id) && f.total == Some(expectedTools)
         && staging.toolCount == expectedTools && staging.featureCount == expectedFeatures {
        staging.head := staging.head.(state := Ready);
        committed.CopyFrom(staging);
        hasCommitted := true;
        active := false;
      } else {
        Reject();
      }
    }
  }
}
