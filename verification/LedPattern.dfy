/** LED patterns: level and time to the next edge as functions of elapsed time, and the overlay logic
    that decides which pattern is shown until when. */
module LedPattern {
  import opened Basics

  /** Milliseconds in an unsigned 64-bit counter; the top value means "no deadline". */
  const TIME_MAX: nat := 0xFFFF_FFFF_FFFF_FFFF
  type Time = t: nat | t <= TIME_MAX
  const ACTIVITY_MS: nat := 80
  const IDENTIFY_MS: nat := 5000

  datatype Base = Booting | Provisioning | WifiConnecting | BaseReady | Degraded | Error
  datatype Overlay = NoOverlay | Activity | Identify | RestartArmed | FactoryArmed

  /** What is shown: a constant level, a blink, or the three-pulse error code. */
  datatype Pattern = Steady(on: bool) | Blink(period: nat, onMs: nat) | ErrorCode

  function BasePattern(b: Base): Pattern {
    match b
    case Booting => Blink(200, 100)
    case Provisioning => Blink(1000, 500)
    case WifiConnecting => Blink(250, 125)
    case BaseReady => Steady(true)
    case Degraded => Blink(1000, 150)
    case Error => ErrorCode
  }

  predicate Known(p: Pattern) { p.Blink? ==> p in {Blink(200, 100), Blink(1000, 500), Blink(250, 125), Blink(1000, 150), Blink(500, 250)} }

  function On(p: Pattern, elapsed: nat): bool
    requires Known(p)
  {
    match p
    case Steady(on) => on
    case Blink(period, onMs) => elapsed % period < onMs
    case ErrorCode => var q := elapsed % 1750; q < 150 || 300 <= q < 450 || 600 <= q < 750
  }

  /** Milliseconds to the next edge; None for a steady pattern. */
  function Rel(p: Pattern, elapsed: nat): Option<nat>
    requires Known(p)
  {
    match p
    case Steady(_) => None
    case Blink(period, onMs) => var q := elapsed % period; Some(if q < onMs then onMs - q else period - q)
    case ErrorCode =>
      var q := elapsed % 1750;
      Some(if q < 150 then 150 - q else if q < 300 then 300 - q else if q < 450 then 450 - q
           else if q < 600 then 600 - q else if q < 750 then 750 - q else 1750 - q)
  }

  lemma {:induction false} ModStays(e: nat, k: nat, m: nat)
    requires m > 0 && e % m + k < m
    ensures (e + k) % m == e % m + k
  {
    ModUnique(e + k, m, e / m, e % m + k);
  }

  lemma {:induction false} ModWraps(e: nat, k: nat, m: nat)
    requires m > 0 && e % m + k == m
    ensures (e + k) % m == 0
  {
    ModUnique(e + k, m, e / m + 1, 0);
  }

  lemma {:induction false} ModUnique(x: nat, m: nat, q: nat, r: nat)
    requires m > 0 && r < m && x == q * m + r
    ensures x % m == r
  {
    var d, r' := x / m - q, x % m;
    assert d * m == r - r';
    assert d < 1 by { if d >= 1 { AtLeast(d, m); } }
    assert -d < 1 by { if -d >= 1 { AtLeast(-d, m); } }
  }

  lemma {:induction false} AtLeast(d: int, m: nat)
    requires d >= 1
    ensures d * m >= m
  {
  }

  /** The level holds until the reported edge, and for ever if none is reported. */
  lemma {:induction false} LevelHolds(p: Pattern, e: nat, k: nat)
    requires Known(p) && (Rel(p, e).Some? ==> k < Rel(p, e).value)
    ensures On(p, e + k) == On(p, e)
  {
    match p
    case Steady(_) =>
    case Blink(period, onMs) => ModStays(e, k, period);
    case ErrorCode => ModStays(e, k, 1750);
  }

  /** The level flips exactly at the reported edge. */
  lemma {:induction false} LevelFlips(p: Pattern, e: nat)
    requires Known(p) && Rel(p, e).Some?
    ensures On(p, e + Rel(p, e).value) != On(p, e)
  {
    var k := Rel(p, e).value;
    match p
    case Blink(period, onMs) => if e % period < onMs { ModStays(e, k, period); } else { ModWraps(e, k, period); }
    case ErrorCode => if e % 1750 < 750 { ModStays(e, k, 1750); } else { ModWraps(e, k, 1750); }
  }

  // ----- overlays

  datatype Led = Led(enabled: bool, base: Base, overlay: Overlay, baseEpoch: Time, overlayEpoch: Time,
                     activityDeadline: Time, identifyDeadline: Time)

  /** board_led_process drops an overlay whose time is up. */
  function Expired(s: Led, now: Time): Led {
    if (s.overlay.Activity? && now >= s.activityDeadline) || (s.overlay.Identify? && now >= s.identifyDeadline)
    then s.(overlay := NoOverlay) else s
  }

  function Armed(s: Led, wanted: Overlay, now: Time): Led {
    if wanted.NoOverlay? then (if s.overlay.RestartArmed? || s.overlay.FactoryArmed? then s.(overlay := NoOverlay) else s)
    else if wanted != s.overlay then s.(overlay := wanted, overlayEpoch := now)
    else s
  }

  function Anchor(s: Led): Time {
    if s.overlay.Identify? || s.overlay.RestartArmed? || s.overlay.FactoryArmed? then s.overlayEpoch else s.baseEpoch
  }

  /** The pattern board_led_pattern_evaluate picks. */
  function Shown(s: Led, now: Time): (p: Pattern)
    ensures Known(p)
  {
    if s.overlay.FactoryArmed? then Blink(200, 100)
    else if s.overlay.RestartArmed? then Steady(true)
    else if s.base.Error? then ErrorCode
    else if s.overlay.Identify? && now < s.identifyDeadline then Blink(500, 250)
    else if s.overlay.Activity? && now < s.activityDeadline then Steady(true)
    else BasePattern(s.base)
  }

  /** Unsigned 64-bit difference. */
  function Since(now: Time, epoch: Time): Time { if now >= epoch then now - epoch else now + (TIME_MAX + 1) - epoch }

  /** The level board_led_process drives at `now`. */
  function Level(s: Led, now: Time): bool {
    var u := Expired(s, now);
    On(Shown(u, now), Since(now, Anchor(u)))
  }

  /** Saturating deadline arithmetic. */
  function DeadlineAdd(now: Time, delta: nat): Time { if delta >= TIME_MAX - now then TIME_MAX else now + delta }

  function OverlayDeadline(s: Led): Time {
    if s.overlay.Activity? then s.activityDeadline else if s.overlay.Identify? then s.identifyDeadline else TIME_MAX
  }

  /** board_led_next_deadline; TIME_MAX stands for none. */
  function NextDeadline(s: Led, now: Time): Time {
    var rel := Rel(Shown(s, now), Since(now, Anchor(s)));
    var edge := if rel.Some? then DeadlineAdd(now, rel.value) else TIME_MAX;
    if edge < OverlayDeadline(s) then edge else OverlayDeadline(s)
  }

  /** Between now and the deadline the overlay is alive, so the same pattern is shown against the same epoch. */
  lemma {:induction false} SamePatternUntilDeadline(s: Led, now: Time, t: Time)
    requires now <= t < OverlayDeadline(s)
    ensures Expired(s, t) == Expired(s, now) == s && Shown(s, t) == Shown(s, now)
  {
  }

  /** With epochs not after now and no new notification, the level is constant from now up to the deadline, or to the end
      of time when there is none. */
  lemma {:induction false} LevelConstantUntilDeadline(s: Led, now: Time, t: Time)
    requires s.baseEpoch <= now && s.overlayEpoch <= now && now <= t < NextDeadline(s, now)
    ensures Level(s, t) == Level(s, now)
  {
    SamePatternUntilDeadline(s, now, t);
    SamePatternUntilDeadline(s, now, now);
    LevelHolds(Shown(s, now), Since(now, Anchor(s)), t - now);
  }

  /** If the deadline is the pattern's own edge, the level changes exactly there. */
  lemma {:induction false} LevelFlipsAtDeadline(s: Led, now: Time)
    requires s.baseEpoch <= now && s.overlayEpoch <= now && now < OverlayDeadline(s)
    requires NextDeadline(s, now) < OverlayDeadline(s)
    ensures now < NextDeadline(s, now) && Level(s, NextDeadline(s, now)) != Level(s, now)
  {
    var d := NextDeadline(s, now);
    SamePatternUntilDeadline(s, now, d);
    SamePatternUntilDeadline(s, now, now);
    LevelFlips(Shown(s, now), Since(now, Anchor(s)));
  }

  /** Processing at an earlier time does not change any later level. */
  lemma {:induction false} ProcessingIsTransparent(s: Led, t: Time, later: Time)
    requires t <= later
    ensures Level(Expired(s, t), later) == Level(s, later)
  {
  }

  // ----- runs

  /** The calls the board worker makes; the disabled driver ignores them all. */
  datatype Call = SetStatus(status: Base) | Pulse | IdentifyNow | Arm(wanted: Overlay) | Tick

  function Called(s: Led, c: Call, now: Time): Led {
    if !s.enabled then s
    else match c
      case SetStatus(status) => if status != s.base then s.(base := status, baseEpoch := now) else s
      case Pulse => s.(overlay := Activity, activityDeadline := DeadlineAdd(now, ACTIVITY_MS))
      case IdentifyNow => s.(overlay := Identify, identifyDeadline := DeadlineAdd(now, IDENTIFY_MS), overlayEpoch := now)
      case Arm(wanted) => Armed(s, wanted, now)
      case Tick => Expired(s, now)
  }

  datatype Timed = Timed(call: Call, at: Time)

  function Started(now: Time): Led { Led(true, Booting, NoOverlay, now, now, 0, 0) }

  /** The driver after a sequence of calls, and the time of the last one. */
  function Run(start: Time, calls: seq<Timed>): Led {
    if |calls| == 0 then Started(start)
    else Called(Run(start, calls[..|calls| - 1]), calls[|calls| - 1].call, calls[|calls| - 1].at)
  }

  function Clock(start: Time, calls: seq<Timed>): Time { if |calls| == 0 then start else calls[|calls| - 1].at }

  /** The clock never goes back. */
  predicate Ordered(start: Time, calls: seq<Timed>) {
    |calls| == 0 || (Ordered(start, calls[..|calls| - 1]) && Clock(start, calls[..|calls| - 1]) <= calls[|calls| - 1].at)
  }

  predicate Timely(s: Led, now: Time) { s.baseEpoch <= now && s.overlayEpoch <= now }

  lemma {:induction false} EpochsNotAhead(start: Time, calls: seq<Timed>)
    requires Ordered(start, calls)
    ensures Timely(Run(start, calls), Clock(start, calls))
  {
    if |calls| > 0 { EpochsNotAhead(start, calls[..|calls| - 1]); }
  }

  /** In every state a sequence of calls under a nondecreasing clock can reach, the level is constant from now up to the
      deadline the driver reports, for ever if it reports none. */
  lemma {:induction false} LevelConstantInEveryRun(start: Time, calls: seq<Timed>, now: Time, t: Time)
    requires Ordered(start, calls) && Clock(start, calls) <= now <= t < NextDeadline(Run(start, calls), now)
    ensures Level(Run(start, calls), t) == Level(Run(start, calls), now)
  {
    EpochsNotAhead(start, calls);
    LevelConstantUntilDeadline(Run(start, calls), now, t);
  }

  /** And the level driven by a processing call is the right one until the deadline reported after it: the worker need
      not wake earlier. */
  lemma {:induction false} DrivenUntilDeadline(start: Time, calls: seq<Timed>, now: Time, t: Time)
    requires Ordered(start, calls) && Clock(start, calls) <= now
    requires var s := Run(start, calls); s.enabled && now <= t < NextDeadline(Called(s, Tick, now), now)
    ensures var s := Run(start, calls); Level(s, t) == Level(s, now)
  {
    var s := Run(start, calls);
    EpochsNotAhead(start, calls);
    LevelConstantUntilDeadline(Expired(s, now), now, t);
    ProcessingIsTransparent(s, now, t);
    ProcessingIsTransparent(s, now, now);
  }

  // ----- the driver in place

  class LedDriver {
    var enabled: bool
    var base: Base
    var overlay: Overlay
    var baseEpoch: Time
    var overlayEpoch: Time
    var activityDeadline: Time
    var identifyDeadline: Time
    var level: bool

    /** The time of the latest call. */
    ghost var clock: Time

    ghost predicate Valid()
      reads this
    {
      Timely(View(), clock)
    }

    ghost function View(): Led
      reads this
    {
      Led(enabled, base, overlay, baseEpoch, overlayEpoch, activityDeadline, identifyDeadline)
    }

    constructor (now: Time)
      ensures Valid() && View() == Started(now) && clock == now && !level
    {
      enabled, base, overlay, baseEpoch, overlayEpoch, activityDeadline, identifyDeadline, level :=
        true, Booting, NoOverlay, now, now, 0, 0, false;
      clock := now;
    }

    /** board_led_set_base, board_led_activity_pulse, board_led_identify_start and board_led_set_armed. */
    method Notify(c: Call, now: Time)
      requires Valid() && clock <= now && !c.Tick?
      modifies this
      ensures Valid() && clock == now && level == old(level)
      ensures View() == Called(old(View()), c, now)
    {
      clock := now;
      if !enabled { return; }
      match c
      case SetStatus(status) => if status != base { base, baseEpoch := status, now; }
      case Pulse => overlay, activityDeadline := Activity, DeadlineAdd(now, ACTIVITY_MS);
      case IdentifyNow => overlay, identifyDeadline, overlayEpoch := Identify, DeadlineAdd(now, IDENTIFY_MS), now;
      case Arm(wanted) =>
        if wanted.NoOverlay? {
          if overlay.RestartArmed? || overlay.FactoryArmed? { overlay := NoOverlay; }
        } else if wanted != overlay {
          overlay, overlayEpoch := wanted, now;
        }
    }

    /** The loop over the error code's bounds. */
    method ErrorEdge(elapsed: nat) returns (rel: nat)
      ensures Rel(ErrorCode, elapsed) == Some(rel)
    {
      rel := 0;
      var q, bounds := elapsed % 1750, [150, 300, 450, 600, 750, 1750];
      for i := 0 to 6
        invariant i > 0 ==> q >= bounds[i - 1]
      {
        if q < bounds[i] { return bounds[i] - q; }
      }
      assert false;
    }

    /** board_led_process. */
    method Process(now: Time)
      requires Valid() && clock <= now
      modifies this`overlay, this`level, this`clock
      ensures Valid() && clock == now && View() == Called(old(View()), Tick, now)
      ensures level == if old(enabled) then Level(old(View()), now) else old(level)
    {
      clock := now;
      if !enabled { return; }
      if overlay.Activity? && now >= activityDeadline { overlay := NoOverlay; }
      if overlay.Identify? && now >= identifyDeadline { overlay := NoOverlay; }
      var s := Led(enabled, base, overlay, baseEpoch, overlayEpoch, activityDeadline, identifyDeadline);
      level := On(Shown(s, now), Since(now, Anchor(s)));
    }

    /** board_led_next_deadline. */
    method NextWake(now: Time) returns (deadline: Option<Time>)
      ensures deadline == if enabled && NextDeadline(View(), now) != TIME_MAX then Some(NextDeadline(View(), now)) else None
    {
      if !enabled { return None; }
      var best: Time := TIME_MAX;
      if overlay.Activity? { best := activityDeadline; } else if overlay.Identify? { best := identifyDeadline; }
      var s := Led(enabled, base, overlay, baseEpoch, overlayEpoch, activityDeadline, identifyDeadline);
      var p, elapsed := Shown(s, now), Since(now, Anchor(s));
      var rel := Rel(p, elapsed);
      if p.ErrorCode? {
        var r := ErrorEdge(elapsed);
        rel := Some(r);
      }
      assert s == View() && rel == Rel(p, elapsed);
      if rel.Some? {
        var candidate := DeadlineAdd(now, rel.value);
        if candidate < best { best := candidate; }
      }
      return if best != TIME_MAX then Some(best) else None;
    }
  }
}
