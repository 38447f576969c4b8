/** What the LED shows, in milliseconds: the waveform of every status, the precedence of the overlays, and for how long a
    pulse and an identification last. */
module LedWaves {
  import opened Basics
  import opened LedPattern

  /** Where the n-th cycle starts. */
  function Start(n: nat, period: nat): nat { n * period }

  /** Some cycle has reached millisecond `from` and not yet `to` after e milliseconds. */
  ghost predicate Within(e: nat, period: nat, from: nat, to: nat) {
    exists n: nat :: Start(n, period) + from <= e < Start(n, period) + to
  }

  lemma {:induction false} WithinIff(e: nat, period: nat, from: nat, to: nat)
    requires from <= to <= period && period > 0
    ensures Within(e, period, from, to) <==> from <= e % period < to
  {
    if Within(e, period, from, to) {
      var n: nat :| Start(n, period) + from <= e < Start(n, period) + to;
      ModUnique(e, period, n, e - Start(n, period));
    }
    if from <= e % period < to { assert Start(e / period, period) == e - e % period; }
  }

  /** The waveform of a status, e milliseconds after its epoch. */
  ghost predicate Lit(b: Base, e: nat) {
    match b
    case Booting => Within(e, 200, 0, 100)
    case Provisioning => Within(e, 1000, 0, 500)
    case WifiConnecting => Within(e, 250, 0, 125)
    case BaseReady => true
    case Degraded => Within(e, 1000, 0, 150)
    case Error => Within(e, 1750, 0, 150) || Within(e, 1750, 300, 450) || Within(e, 1750, 600, 750)
  }

  lemma {:induction false} LitIff(b: Base, e: nat)
    ensures Lit(b, e) <==> On(BasePattern(b), e)
  {
    WithinIff(e, 200, 0, 100);
    WithinIff(e, 1000, 0, 500);
    WithinIff(e, 250, 0, 125);
    WithinIff(e, 1000, 0, 150);
    WithinIff(e, 1750, 0, 150);
    WithinIff(e, 1750, 300, 450);
    WithinIff(e, 1750, 600, 750);
  }

  /** The overlay's time is running. */
  predicate Running(s: Led, now: Time) {
    (s.overlay.Activity? && now < s.activityDeadline) || (s.overlay.Identify? && now < s.identifyDeadline)
  }

  predicate Arming(s: Led) { s.overlay.RestartArmed? || s.overlay.FactoryArmed? }

  /** With no overlay, or one whose time is up, the LED shows the waveform of the status since the status was set. */
  lemma {:induction false} StatusShows(s: Led, now: Time)
    requires Timely(s, now) && !Arming(s) && !Running(s, now)
    ensures Level(s, now) <==> Lit(s.base, now - s.baseEpoch)
  {
    LitIff(s.base, now - s.baseEpoch);
  }

  /** An armed factory reset blinks 100 ms in 200 and an armed restart is steady whatever the status; an error shows through
      a pulse and an identification, on the identification's clock; over any other status an identification blinks 250 ms
      in 500 and a pulse is steady. */
  lemma {:induction false} OverlayShows(s: Led, now: Time)
    requires Timely(s, now)
    ensures s.overlay.FactoryArmed? ==> (Level(s, now) <==> Within(now - s.overlayEpoch, 200, 0, 100))
    ensures s.overlay.RestartArmed? ==> Level(s, now)
    ensures Running(s, now) && s.base.Error? ==>
              (Level(s, now) <==> Lit(Error, now - if s.overlay.Identify? then s.overlayEpoch else s.baseEpoch))
    ensures Running(s, now) && s.overlay.Identify? && !s.base.Error? ==>
              (Level(s, now) <==> Within(now - s.overlayEpoch, 500, 0, 250))
    ensures Running(s, now) && s.overlay.Activity? && !s.base.Error? ==> Level(s, now)
  {
    WithinIff(now - s.overlayEpoch, 200, 0, 100);
    WithinIff(now - s.overlayEpoch, 500, 0, 250);
    LitIff(Error, now - s.overlayEpoch);
    LitIff(Error, now - s.baseEpoch);
  }

  /** A new status starts its waveform now; the status already shown keeps its phase. Neither touches the overlay. */
  lemma {:induction false} StatusEffect(s: Led, b: Base, now: Time)
    requires s.enabled
    ensures var u := Called(s, SetStatus(b), now);
            && u.base == b && u.baseEpoch == (if b == s.base then s.baseEpoch else now)
            && u.overlay == s.overlay && u.overlayEpoch == s.overlayEpoch
            && u.activityDeadline == s.activityDeadline && u.identifyDeadline == s.identifyDeadline
  {
  }

  /** A pulse lights the LED for 80 ms over any status but an error, whatever overlay it replaces; then the status shows
      again in its own phase. */
  lemma {:induction false} PulseShows(s: Led, now: Time, t: Time)
    requires s.enabled && Timely(s, now) && now <= t
    ensures var u := Called(s, Pulse, now);
            if t < TIME_MAX && t - now < 80 && !s.base.Error? then Level(u, t)
            else t < TIME_MAX ==> (Level(u, t) <==> Lit(s.base, t - s.baseEpoch))
  {
    var u := Called(s, Pulse, now);
    assert Running(u, t) <==> t < DeadlineAdd(now, ACTIVITY_MS);
    if Running(u, t) { OverlayShows(u, t); } else { StatusShows(u, t); }
  }

  /** An identification blinks 250 ms in 500 for five seconds over any status but an error; then the status shows again in
      its own phase. */
  lemma {:induction false} IdentificationShows(s: Led, now: Time, t: Time)
    requires s.enabled && Timely(s, now) && now <= t < TIME_MAX
    ensures var u := Called(s, IdentifyNow, now);
            if t - now >= 5000 then Level(u, t) <==> Lit(s.base, t - s.baseEpoch)
            else if s.base.Error? then Level(u, t) <==> Lit(Error, t - now)
            else Level(u, t) <==> Within(t - now, 500, 0, 250)
  {
    var u := Called(s, IdentifyNow, now);
    if t - now < 5000 { OverlayShows(u, t); } else { StatusShows(u, t); }
  }

  /** Arming a restart or a reset starts its pattern now, unless it is armed already; disarming gives the status back in its
      own phase and leaves a pulse or an identification alone. */
  lemma {:induction false} ArmShows(s: Led, wanted: Overlay, now: Time, t: Time)
    requires s.enabled && Timely(s, now) && now <= t
    ensures var u := Called(s, Arm(wanted), now);
            && (wanted.RestartArmed? ==> Level(u, t))
            && (wanted.FactoryArmed? ==> (Level(u, t) <==>
                  Within(t - if s.overlay.FactoryArmed? then s.overlayEpoch else now, 200, 0, 100)))
            && (wanted.NoOverlay? && Arming(s) ==> (Level(u, t) <==> Lit(s.base, t - s.baseEpoch)))
            && (wanted.NoOverlay? && !Arming(s) ==> u == s)
  {
    var u := Called(s, Arm(wanted), now);
    OverlayShows(u, t);
    if wanted.NoOverlay? && Arming(s) { StatusShows(u, t); }
  }

  /** Processing drops an overlay exactly when its time is up and changes nothing else; a disabled driver ignores every
      call. */
  lemma {:induction false} ProcessingDrops(s: Led, c: Call, now: Time)
    ensures !s.enabled ==> Called(s, c, now) == s
    ensures s.enabled && (Running(s, now) || Arming(s)) ==> Called(s, Tick, now) == s
    ensures s.enabled && !Running(s, now) && !Arming(s) ==> Called(s, Tick, now) == s.(overlay := NoOverlay)
  {
  }
}
