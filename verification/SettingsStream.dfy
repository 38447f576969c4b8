/** The settings schema stream: BEGIN, items and enum options in any interleaving, END. The arrays of the
    builder refine a plain list of settings, each with its own list of options. */
module SettingsStream {
  import opened Basics
  import opened SettingsPool

  const MAX_SETTINGS: nat := 16
  const MAX_ENUM_OPTS: nat := 16
  const MAX_OPTIONS: nat := 256
  const POOL_SIZE: nat := 512
  const TYPE_BOOL: nat := 1
  const TYPE_ENUM: nat := 5

  // ----- the simple form: a list of lists

  datatype Opt = Opt(value: nat, text: string)
  datatype Setting = Setting(id: string, title: string, group: string, unit: string, kind: nat, declared: Option<nat>,
                             options: seq<Opt>)

  /** `used` is the string pool's fill level, the only resource a stream can run out of. */
  datatype State = Idle | Collecting(expected: nat, used: nat, settings: seq<Setting>)

  /** Wire frames of the stream's owner; Foreign is one with a missing or different request id. */
  datatype Frame =
    | Begin(wellFormed: bool, total: nat)
    | Item(itemTotal: Option<nat>, sequence: Option<nat>, id: Option<string>, kind: Option<nat>, title: string,
           group: Option<string>, unit: string, declared: Option<nat>)
    | OptionItem(parent: Option<nat>, value: Option<nat>, text: string)
    | End(endTotal: Option<nat>)
    | Foreign

  function OptionalFootprint(s: string): nat { if s == "" then 0 else Footprint(s) }
  function GroupOf(f: Frame): string requires f.Item? { if f.group.Some? then f.group.value else "" }

  function ItemBytes(f: Frame): nat
    requires f.Item? && f.id.Some?
  {
    Footprint(f.id.value) + OptionalFootprint(f.title) + OptionalFootprint(GroupOf(f)) + OptionalFootprint(f.unit)
  }

  predicate ItemAccepted(s: State, f: Frame)
    requires s.Collecting? && f.Item?
  {
    && f.itemTotal == Some(s.expected) && f.sequence == Some(|s.settings|) && |s.settings| < s.expected
    && f.id.Some? && f.id.value != "" && f.kind.Some? && TYPE_BOOL <= f.kind.value <= TYPE_ENUM
    && (forall i :: 0 <= i < |s.settings| ==> s.settings[i].id != f.id.value)
    && s.used + ItemBytes(f) <= POOL_SIZE
    && (f.declared.Some? ==> f.declared.value <= MAX_ENUM_OPTS && f.kind.value == TYPE_ENUM)
  }

  function NewSetting(f: Frame): Setting
    requires f.Item? && f.id.Some? && f.kind.Some?
  {
    Setting(f.id.value, if f.title == "" then f.id.value else f.title, GroupOf(f), f.unit, f.kind.value, f.declared, [])
  }

  predicate OptionAccepted(s: State, f: Frame)
    requires s.Collecting? && f.OptionItem?
  {
    && f.parent.Some? && f.value.Some? && f.text != "" && f.parent.value < |s.settings|
    && var p := s.settings[f.parent.value];
       && p.kind == TYPE_ENUM && |p.options| < MAX_ENUM_OPTS
       && (forall i :: 0 <= i < |p.options| ==> p.options[i].value != f.value.value)
       && s.used + Footprint(f.text) <= POOL_SIZE
  }

  function WithOption(p: Setting, o: Opt): Setting { p.(options := p.options + [o]) }

  predicate EndAccepted(s: State, f: Frame)
    requires s.Collecting? && f.End?
  {
    && f.endTotal == Some(s.expected) && |s.settings| == s.expected
    && forall i :: 0 <= i < |s.settings| && s.settings[i].declared.Some? ==> s.settings[i].declared.value == |s.settings[i].options|
  }

  /** One frame; anything not accepted ends the stream. */
  function Step(s: State, f: Frame): State {
    if s.Idle? then
      if f.Begin? && f.wellFormed && f.total <= MAX_SETTINGS then Collecting(f.total, 4, []) else s
    else match f
      case Begin(_, _) => s
      case Foreign => Idle
      case End(_) => Idle
      case Item(_, _, _, _, _, _, _, _) =>
        if ItemAccepted(s, f) then s.(used := s.used + ItemBytes(f), settings := s.settings + [NewSetting(f)]) else Idle
      case OptionItem(_, _, _) =>
        if OptionAccepted(s, f) then
          var k := f.parent.value;
          s.(used := s.used + Footprint(f.text),
             settings := s.settings[k := WithOption(s.settings[k], Opt(f.value.value, f.text))])
        else Idle
  }

  /** What the frame commits, if anything. */
  function Commits(s: State, f: Frame): Option<seq<Setting>> {
    if s.Collecting? && f.End? && EndAccepted(s, f) then Some(s.settings) else None
  }

  // ----- reading the pools

  function OptOf(o: EnumOption, chars: seq<char>): Opt { Opt(o.value, CString(chars, o.labelOff)) }

  function OptsOf(slice: seq<EnumOption>, chars: seq<char>): (r: seq<Opt>)
    ensures |r| == |slice| && forall i :: 0 <= i < |r| ==> r[i] == OptOf(slice[i], chars)
  {
    seq(|slice|, i requires 0 <= i < |slice| => OptOf(slice[i], chars))
  }

  function SettingOf(d: Desc, declared: Option<nat>, pool: seq<EnumOption>, chars: seq<char>): Setting
    requires Fits(d, pool)
  {
    Setting(CString(chars, d.idOff), CString(chars, d.titleOff), CString(chars, d.groupOff), CString(chars, d.unitOff),
            d.kind, declared, OptsOf(Slice(d, pool), chars))
  }

  /** A committed snapshot: the builder's arrays cut to their used lengths. */
  datatype Schema = Schema(descs: seq<Desc>, declared: seq<Option<nat>>, pool: seq<EnumOption>, chars: seq<char>)

  ghost predicate StringsOk(x: Schema) {
    && (forall i :: 0 <= i < |x.descs| ==>
          && Terminated(x.chars, x.descs[i].idOff) && Terminated(x.chars, x.descs[i].titleOff)
          && Terminated(x.chars, x.descs[i].groupOff) && Terminated(x.chars, x.descs[i].unitOff))
    && (forall p :: 0 <= p < |x.pool| ==> Terminated(x.chars, x.pool[p].labelOff))
  }

  ghost predicate WellFormed(x: Schema) {
    && |x.declared| == |x.descs| <= MAX_SETTINGS && |x.pool| <= MAX_OPTIONS && |x.chars| <= POOL_SIZE
    && Layout(x.descs, x.pool) && StringsOk(x)
    && (forall i :: 0 <= i < |x.descs| ==> x.descs[i].optionCount <= MAX_ENUM_OPTS)
    && |x.chars| >= 1 && x.chars[0] == '\0'
  }

  function Meaning(x: Schema): (r: seq<Setting>)
    requires |x.declared| == |x.descs| && forall i :: 0 <= i < |x.descs| ==> Fits(x.descs[i], x.pool)
    ensures |r| == |x.descs|
    ensures forall i :: 0 <= i < |r| ==> r[i] == SettingOf(x.descs[i], x.declared[i], x.pool, x.chars)
  {
    seq(|x.descs|, i requires 0 <= i < |x.descs| => SettingOf(x.descs[i], x.declared[i], x.pool, x.chars))
  }

  /** A string is read back the same after the pool grew. */
  lemma {:induction false} StringGrown(a: seq<char>, b: seq<char>, off: nat)
    requires a <= b && Terminated(a, off)
    ensures CString(b, off) == CString(a, off) && Terminated(b, off)
  {
    assert b == a + b[|a|..];
    StringKept(a, b[|a|..], off);
  }

  lemma {:induction false} SettingGrown(x: Schema, b: seq<char>, i: nat)
    requires WellFormed(x) && x.chars <= b && i < |x.descs|
    ensures SettingOf(x.descs[i], x.declared[i], x.pool, b) == SettingOf(x.descs[i], x.declared[i], x.pool, x.chars)
  {
    var d := x.descs[i];
    StringGrown(x.chars, b, d.idOff);
    StringGrown(x.chars, b, d.titleOff);
    StringGrown(x.chars, b, d.groupOff);
    StringGrown(x.chars, b, d.unitOff);
    var slice := Slice(d, x.pool);
    forall j | 0 <= j < |slice| ensures OptOf(slice[j], b) == OptOf(slice[j], x.chars) {
      StringGrown(x.chars, b, x.pool[d.optionIndex + j].labelOff);
    }
    assert OptsOf(slice, b) == OptsOf(slice, x.chars);
  }

  lemma {:induction false} GrownWellFormed(x: Schema, b: seq<char>)
    requires WellFormed(x) && x.chars <= b && |b| <= POOL_SIZE
    ensures WellFormed(x.(chars := b)) && Meaning(x.(chars := b)) == Meaning(x)
  {
    forall i | 0 <= i < |x.descs|
      ensures Terminated(b, x.descs[i].idOff) && Terminated(b, x.descs[i].titleOff)
              && Terminated(b, x.descs[i].groupOff) && Terminated(b, x.descs[i].unitOff)
              && SettingOf(x.descs[i], x.declared[i], x.pool, b) == SettingOf(x.descs[i], x.declared[i], x.pool, x.chars) {
      SettingGrown(x, b, i);
      StringGrown(x.chars, b, x.descs[i].idOff);
      StringGrown(x.chars, b, x.descs[i].titleOff);
      StringGrown(x.chars, b, x.descs[i].groupOff);
      StringGrown(x.chars, b, x.descs[i].unitOff);
    }
    forall p | 0 <= p < |x.pool| ensures Terminated(b, x.pool[p].labelOff) { StringGrown(x.chars, b, x.pool[p].labelOff); }
  }

  /** Appending a descriptor whose strings are in the pool appends one setting. */
  lemma {:induction false} ItemRefines(x: Schema, d: Desc, declared: Option<nat>)
    requires WellFormed(x) && |x.descs| < MAX_SETTINGS && d.optionCount == 0 && d.optionIndex == |x.pool|
    requires Terminated(x.chars, d.idOff) && Terminated(x.chars, d.titleOff)
             && Terminated(x.chars, d.groupOff) && Terminated(x.chars, d.unitOff)
    ensures var y := x.(descs := x.descs + [d], declared := x.declared + [declared]);
            && WellFormed(y)
            && Meaning(y) == Meaning(x) + [Setting(CString(x.chars, d.idOff), CString(x.chars, d.titleOff), CString(x.chars, d.groupOff),
                                                   CString(x.chars, d.unitOff), d.kind, declared, [])]
  {
    AppendLayout(x.descs, x.pool, d);
    var y := x.(descs := x.descs + [d], declared := x.declared + [declared]);
    forall i | 0 <= i < |x.descs| ensures y.descs[i] == x.descs[i] && y.declared[i] == x.declared[i] && Fits(x.descs[i], x.pool) {}
    assert SettingOf(d, declared, x.pool, x.chars).options == [];
  }

  function AfterOption(x: Schema, k: nat, o: EnumOption): Schema
    requires k < |x.descs| && InsertAt(x.descs, x.pool, k) <= |x.pool|
  {
    var at := InsertAt(x.descs, x.pool, k);
    x.(descs := ShiftAll(x.descs, k, at, |x.pool|), pool := Inserted(x.pool, at, o))
  }

  lemma {:induction false} OptionWellFormed(x: Schema, k: nat, o: EnumOption)
    requires WellFormed(x) && k < |x.descs| && x.descs[k].optionCount < MAX_ENUM_OPTS && Terminated(x.chars, o.labelOff)
    ensures InsertAt(x.descs, x.pool, k) <= |x.pool| < MAX_OPTIONS && WellFormed(AfterOption(x, k, o))
  {
    InsertLayout(x.descs, x.pool, k, o);
    PoolHasRoom(x.descs, k);
  }

  lemma {:induction false} OptionSetting(x: Schema, k: nat, o: EnumOption, i: nat)
    requires Layout(x.descs, x.pool) && |x.declared| == |x.descs| && k < |x.descs| && i < |x.descs|
    ensures InsertAt(x.descs, x.pool, k) <= |x.pool|
    ensures var y := AfterOption(x, k, o);
            && Fits(y.descs[i], y.pool)
            && SettingOf(y.descs[i], y.declared[i], y.pool, y.chars)
               == var s := SettingOf(x.descs[i], x.declared[i], x.pool, x.chars);
                  if i == k then WithOption(s, OptOf(o, x.chars)) else s
  {
    InsertSlices(x.descs, x.pool, k, o, i);
    var y := AfterOption(x, k, o);
    var was, now := Slice(x.descs[i], x.pool), Slice(y.descs[i], y.pool);
    assert OptsOf(now, x.chars) == if i == k then OptsOf(was, x.chars) + [OptOf(o, x.chars)] else OptsOf(was, x.chars);
  }

  /** Inserting an option at its parent's tail appends it to that parent's list and to no other. */
  lemma {:induction false} OptionRefines(x: Schema, k: nat, o: EnumOption)
    requires WellFormed(x) && k < |x.descs| && x.descs[k].optionCount < MAX_ENUM_OPTS && Terminated(x.chars, o.labelOff)
    ensures InsertAt(x.descs, x.pool, k) <= |x.pool| < MAX_OPTIONS && WellFormed(AfterOption(x, k, o))
    ensures Meaning(AfterOption(x, k, o)) == Meaning(x)[k := WithOption(Meaning(x)[k], OptOf(o, x.chars))]
  {
    OptionWellFormed(x, k, o);
    var m := Meaning(AfterOption(x, k, o));
    forall i | 0 <= i < |x.descs| ensures m[i] == Meaning(x)[k := WithOption(Meaning(x)[k], OptOf(o, x.chars))][i] {
      OptionSetting(x, k, o, i);
    }
  }

  /** A descriptor with room means the shared option pool has room: its overflow check can never fire. */
  lemma {:induction false} PoolHasRoom(descs: seq<Desc>, k: nat)
    requires |descs| <= MAX_SETTINGS && k < |descs| && descs[k].optionCount < MAX_ENUM_OPTS
    requires forall i :: 0 <= i < |descs| ==> descs[i].optionCount <= MAX_ENUM_OPTS
    ensures Total(descs) < MAX_OPTIONS
  {
    var more := descs[k := descs[k].(optionCount := descs[k].optionCount + 1)];
    TotalUpdate(descs, more, k);
    TotalBound(more, MAX_ENUM_OPTS);
  }

  // ----- whole streams

  function Run(s: State, frames: seq<Frame>): State {
    if |frames| == 0 then s else Step(Run(s, frames[..|frames| - 1]), frames[|frames| - 1])
  }

  /** The options addressed to setting k, in arrival order. */
  function OptionsFor(frames: seq<Frame>, k: nat): seq<Opt> {
    if |frames| == 0 then []
    else
      var f := frames[|frames| - 1];
      var before := OptionsFor(frames[..|frames| - 1], k);
      if f.OptionItem? && f.parent == Some(k) && f.value.Some? then before + [Opt(f.value.value, f.text)] else before
  }

  /** The settings announced, in arrival order, each without options. */
  function ItemsOf(frames: seq<Frame>): seq<Setting> {
    if |frames| == 0 then []
    else
      var f := frames[|frames| - 1];
      var before := ItemsOf(frames[..|frames| - 1]);
      if f.Item? && f.id.Some? && f.kind.Some? then before + [NewSetting(f)] else before
  }

  /** No frame of the sequence ends the stream: they all belong to the same BEGIN. */
  predicate Flows(s: State, frames: seq<Frame>) {
    Run(s, frames).Collecting? && (|frames| == 0 || Flows(s, frames[..|frames| - 1]))
  }

  /** No option frame for setting k arrived before the setting itself. */
  lemma {:induction false} NoEarlyOptions(expected: nat, used: nat, frames: seq<Frame>, k: nat)
    requires Flows(Collecting(expected, used, []), frames) && |Run(Collecting(expected, used, []), frames).settings| <= k
    ensures OptionsFor(frames, k) == []
  {
    if |frames| > 0 {
      var n := |frames| - 1;
      var before := Run(Collecting(expected, used, []), frames[..n]);
      assert before.Collecting? && |before.settings| <= k;
      NoEarlyOptions(expected, used, frames[..n], k);
    }
  }

  /** For any interleaving of accepted frames, setting k is the k-th announced one and its options are exactly
      those addressed to it, in arrival order. */
  lemma {:induction false} SettingsInArrivalOrder(expected: nat, used: nat, frames: seq<Frame>)
    requires Flows(Collecting(expected, used, []), frames)
    ensures var s := Run(Collecting(expected, used, []), frames);
            && |s.settings| == |ItemsOf(frames)|
            && forall k :: 0 <= k < |s.settings| ==> s.settings[k] == ItemsOf(frames)[k].(options := OptionsFor(frames, k))
  {
    if |frames| > 0 {
      var n := |frames| - 1;
      var f := frames[n];
      var s0 := Collecting(expected, used, []);
      var before := Run(s0, frames[..n]);
      assert before.Collecting?;
      SettingsInArrivalOrder(expected, used, frames[..n]);
      if f.Item? { NoEarlyOptions(expected, used, frames[..n], |before.settings|); }
    }
  }

  predicate Sound(s: State) {
    s.Collecting? ==>
      && |s.settings| <= s.expected <= MAX_SETTINGS
      && (forall i, j :: 0 <= i < j < |s.settings| ==> s.settings[i].id != s.settings[j].id)
      && (forall i :: 0 <= i < |s.settings| ==> SoundSetting(s.settings[i]))
  }

  predicate SoundSetting(p: Setting) {
    && p.id != "" && TYPE_BOOL <= p.kind <= TYPE_ENUM && |p.options| <= MAX_ENUM_OPTS
    && (p.kind != TYPE_ENUM ==> p.options == [])
    && (forall i, j :: 0 <= i < j < |p.options| ==> p.options[i].value != p.options[j].value)
  }

  lemma {:induction false} StepSound(s: State, f: Frame)
    requires Sound(s)
    ensures Sound(Step(s, f))
  {
    if s.Collecting? && f.OptionItem? && OptionAccepted(s, f) {
      assert SoundSetting(s.settings[f.parent.value]);
    }
  }

  lemma {:induction false} RunSound(frames: seq<Frame>)
    ensures Sound(Run(State.Idle, frames))
  {
    if |frames| > 0 {
      RunSound(frames[..|frames| - 1]);
      StepSound(Run(State.Idle, frames[..|frames| - 1]), frames[|frames| - 1]);
    }
  }

  /** Whatever the frames, a commit has as many settings as BEGIN announced, distinct non-empty ids, options on ENUM
      settings only with distinct values, and every declared option count met. */
  lemma {:induction false} CommitsAreSound(frames: seq<Frame>, f: Frame)
    requires Commits(Run(State.Idle, frames), f).Some?
    ensures var s := Run(State.Idle, frames); var c := Commits(s, f).value;
            && |c| == s.expected
            && (forall i, j :: 0 <= i < j < |c| ==> c[i].id != c[j].id)
            && (forall i :: 0 <= i < |c| ==> SoundSetting(c[i]) && (c[i].declared.Some? ==> c[i].declared.value == |c[i].options|))
  {
    RunSound(frames);
  }
}
