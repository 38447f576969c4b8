/** Which settings schema streams are accepted: exactly the well-formed ones whose strings fit in the pool, and
    the END of a complete one commits exactly what was sent. Everything is said on the frames. */
module SettingsAcceptance {
  import opened Basics
  import opened SettingsPool
  import opened SettingsStream

  /** Pool bytes of a string: its NUL included, rounded up to a multiple of four. */
  function StringBytes(s: string): nat { 4 * ((|s| + 4) / 4) }

  function PartBytes(s: string): nat { if s == "" then 0 else StringBytes(s) }

  function FrameBytes(f: Frame): nat {
    match f
    case Item(_, _, id, _, title, group, unit, _) =>
      PartBytes(if id.Some? then id.value else "") + PartBytes(title) + PartBytes(if group.Some? then group.value else "") + PartBytes(unit)
    case OptionItem(_, _, text) => PartBytes(text)
    case _ => 0
  }

  function Bytes(frames: seq<Frame>): nat {
    if |frames| == 0 then 0 else Bytes(frames[..|frames| - 1]) + FrameBytes(frames[|frames| - 1])
  }

  /** An item that may follow the frames before it: the next in sequence, with the announced total, a new non-empty id, a
      type from BOOL (1) to ENUM (5), and a declared option count only on an ENUM and of at most 16. */
  ghost predicate GoodItem(total: nat, before: seq<Frame>, f: Frame)
    requires f.Item?
  {
    var sent := ItemsOf(before);
    && f.itemTotal == Some(total) && f.sequence == Some(|sent|) && |sent| < total
    && f.id.Some? && f.id.value != "" && (forall i :: 0 <= i < |sent| ==> sent[i].id != f.id.value)
    && f.kind.Some? && 1 <= f.kind.value <= 5
    && (f.declared.Some? ==> f.declared.value <= 16 && f.kind.value == 5)
  }

  /** An option that may follow: a text, an ENUM sent before as its parent, fewer than 16 options there and none with its value. */
  ghost predicate GoodOption(before: seq<Frame>, f: Frame)
    requires f.OptionItem?
  {
    && f.text != "" && f.parent.Some? && f.value.Some? && f.parent.value < |ItemsOf(before)|
    && ItemsOf(before)[f.parent.value].kind == 5
    && var sent := OptionsFor(before, f.parent.value);
       |sent| < 16 && forall i :: 0 <= i < |sent| ==> sent[i].value != f.value.value
  }

  ghost predicate MayFollow(total: nat, before: seq<Frame>, f: Frame) {
    && (f.Item? || f.OptionItem? || f.Begin?)
    && (f.Item? ==> GoodItem(total, before, f)) && (f.OptionItem? ==> GoodOption(before, f))
  }

  /** Items and options, interleaved in any way; a repeated BEGIN is ignored. */
  ghost predicate WellFormedStream(total: nat, frames: seq<Frame>) {
    |frames| == 0 ||
    var before, f := frames[..|frames| - 1], frames[|frames| - 1];
    WellFormedStream(total, before) && MayFollow(total, before, f)
  }

  ghost predicate FitsPool(frames: seq<Frame>) { 4 + Bytes(frames) <= 512 }

  function Opened(total: nat): State { Collecting(total, 4, []) }

  /** The state holds what the frames sent. */
  ghost predicate HoldsFrames(total: nat, frames: seq<Frame>, s: State) {
    && s.Collecting? && s.expected == total && s.used == 4 + Bytes(frames)
    && |s.settings| == |ItemsOf(frames)|
    && forall k :: 0 <= k < |s.settings| ==> s.settings[k] == ItemsOf(frames)[k].(options := OptionsFor(frames, k))
  }

  lemma {:induction false} FootprintIs(s: string)
    ensures Footprint(s) == StringBytes(s) && OptionalFootprint(s) == PartBytes(s)
  {
  }

  lemma {:induction false} ItemBytesAre(f: Frame)
    requires f.Item? && f.id.Some? && f.id.value != ""
    ensures ItemBytes(f) == FrameBytes(f)
  {
    FootprintIs(f.id.value);
    FootprintIs(f.title);
    FootprintIs(GroupOf(f));
    FootprintIs(f.unit);
  }

  /** One more frame is taken exactly when it may follow and its strings fit; any other ends the stream. */
  lemma {:induction false} TakesIff(total: nat, before: seq<Frame>, f: Frame, s: State)
    requires HoldsFrames(total, before, s) && FitsPool(before)
    ensures Step(s, f).Collecting? <==> MayFollow(total, before, f) && FitsPool(before + [f])
    ensures Step(s, f).Collecting? ==> Step(s, f).used == s.used + FrameBytes(f) && Step(s, f).expected == s.expected
  {
    FramesAppend(before, f);
    if f.Item? && f.id.Some? && f.id.value != "" { ItemBytesAre(f); }
    if f.OptionItem? { FootprintIs(f.text); }
  }

  lemma {:induction false} FramesAppend(before: seq<Frame>, f: Frame)
    ensures Bytes(before + [f]) == Bytes(before) + FrameBytes(f)
  {
    assert (before + [f])[..|before|] == before;
  }

  /** For every sequence of frames after a BEGIN: none of them ends the stream if and only if it is well-formed and its
      strings fit in the pool; and then the builder holds what the frames sent. */
  lemma {:induction false} StreamFlowsIff(total: nat, frames: seq<Frame>)
    ensures Flows(Opened(total), frames) <==> WellFormedStream(total, frames) && FitsPool(frames)
    ensures Flows(Opened(total), frames) ==> HoldsFrames(total, frames, Run(Opened(total), frames))
  {
    if |frames| > 0 {
      var n := |frames| - 1;
      StreamFlowsIff(total, frames[..n]);
      assert frames == frames[..n] + [frames[n]];
      FramesAppend(frames[..n], frames[n]);
      if Flows(Opened(total), frames[..n]) {
        TakesIff(total, frames[..n], frames[n], Run(Opened(total), frames[..n]));
        if Flows(Opened(total), frames) { SettingsInArrivalOrder(total, 4, frames); }
      }
    }
  }

  /** All announced items were sent, and each declared option count is the number of options sent for it. */
  ghost predicate Complete(total: nat, frames: seq<Frame>) {
    && |ItemsOf(frames)| == total
    && forall k :: 0 <= k < total && ItemsOf(frames)[k].declared.Some? ==> ItemsOf(frames)[k].declared.value == |OptionsFor(frames, k)|
  }

  lemma {:induction false} BeginOpens(total: nat, frames: seq<Frame>)
    requires total <= 16
    ensures Run(Idle, [Begin(true, total)] + frames) == Run(Opened(total), frames)
  {
    var all := [Begin(true, total)] + frames;
    if |frames| == 0 {
      assert all == [Begin(true, total)] && all[..0] == [];
    } else {
      BeginOpens(total, frames[..|frames| - 1]);
      assert all[..|all| - 1] == [Begin(true, total)] + frames[..|frames| - 1];
    }
  }

  /** A well-formed stream that fits is committed by its END if and only if it is complete and END repeats the announced
      total, and then the commit is exactly what was sent: the items in order, each with its own options in order. */
  lemma {:induction false} WellFormedStreamCommitsIff(total: nat, frames: seq<Frame>, endTotal: Option<nat>)
    requires total <= 16 && WellFormedStream(total, frames) && FitsPool(frames)
    ensures var c := Commits(Run(Idle, [Begin(true, total)] + frames), End(endTotal));
            && (c.Some? <==> Complete(total, frames) && endTotal == Some(total))
            && (c.Some? ==> |c.value| == total
                            && forall k :: 0 <= k < total ==> c.value[k] == ItemsOf(frames)[k].(options := OptionsFor(frames, k)))
  {
    BeginOpens(total, frames);
    StreamFlowsIff(total, frames);
  }

  /** A BEGIN opens a stream exactly when it is addressed and complete and announces at most 16 settings. */
  lemma {:induction false} BeginIff(wellFormed: bool, total: nat)
    ensures Step(Idle, Begin(wellFormed, total)) == if wellFormed && total <= 16 then Opened(total) else Idle
  {
  }

  /** A setting shows the sent title, or its id when none was sent, and the sent group, unit and type. */
  lemma {:induction false} SettingShows(frames: seq<Frame>, k: nat)
    requires k < |ItemsOf(frames)|
    ensures exists i :: 0 <= i < |frames| && frames[i].Item? && |ItemsOf(frames[..i])| == k
                        && frames[i].id == Some(ItemsOf(frames)[k].id) && frames[i].kind == Some(ItemsOf(frames)[k].kind)
                        && ItemsOf(frames)[k].title == (if frames[i].title == "" then frames[i].id.value else frames[i].title)
                        && ItemsOf(frames)[k].group == (if frames[i].group.Some? then frames[i].group.value else "")
                        && ItemsOf(frames)[k].unit == frames[i].unit && ItemsOf(frames)[k].declared == frames[i].declared
  {
    var n := |frames| - 1;
    var before := frames[..n];
    if k < |ItemsOf(before)| {
      SettingShows(before, k);
      var i :| 0 <= i < |before| && before[i].Item? && |ItemsOf(before[..i])| == k
               && before[i].id == Some(ItemsOf(before)[k].id) && before[i].kind == Some(ItemsOf(before)[k].kind)
               && ItemsOf(before)[k].title == (if before[i].title == "" then before[i].id.value else before[i].title)
               && ItemsOf(before)[k].group == (if before[i].group.Some? then before[i].group.value else "")
               && ItemsOf(before)[k].unit == before[i].unit && ItemsOf(before)[k].declared == before[i].declared;
      assert before[..i] == frames[..i] && before[i] == frames[i];
    } else {
      assert frames[n].Item? && frames[..n] == before;
    }
  }
}
