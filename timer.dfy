/**
 * The focus countdown. The clock is not read: every operation that needs the
 * current instant takes it as `now`, in milliseconds since 1970-01-01 UTC; the
 * countdown itself is kept in whole seconds.
 */
module Timer {
  import opened Wrappers

  datatype FocusState = FocusState(isRunning: bool, durationSec: int, remainingSec: int, lastTick: Option<int>)

  /** `FocusState::default`: a stopped 25-minute session with no anchor. */
  const DefaultFocus: FocusState := FocusState(false, 25 * 60, 25 * 60, None)

  /** The countdown never leaves [0, duration], and a running countdown has an anchor
      instant to measure elapsed time from. */
  predicate TimerInv(f: FocusState) {
    0 <= f.remainingSec <= f.durationSec && (f.isRunning ==> f.lastTick.Some?)
  }

  lemma DefaultFocusValid()
    ensures TimerInv(DefaultFocus) && DefaultFocus.remainingSec == 1500
  {
  }

  /** `Duration::num_seconds` of a span of `ms` milliseconds: the whole seconds in it,
      truncated toward zero. */
  function NumSeconds(ms: int): (s: int)
    ensures ms >= 0 ==> 0 <= 1000 * s <= ms < 1000 * s + 1000
    ensures ms < 0 ==> s <= 0 && ms <= 1000 * s < ms + 1000
    ensures s > 0 <==> ms >= 1000
  {
    if ms >= 0 then ms / 1000 else -((-ms) / 1000)
  }

  /** `reset_timer`: stopped, anchor dropped, a full session remaining. */
  function Reset(f: FocusState): (r: FocusState)
    ensures !r.isRunning && r.lastTick == None
    ensures r.durationSec == f.durationSec && r.remainingSec == f.durationSec
    ensures f.durationSec >= 0 ==> TimerInv(r)
  {
    f.(isRunning := false, remainingSec := f.durationSec, lastTick := None)
  }

  /** `toggle_timer` at instant `now`: starting anchors the countdown at `now`,
      pausing drops the anchor; the time remaining is kept either way. */
  function Toggle(f: FocusState, now: int): (r: FocusState)
    ensures r.isRunning == !f.isRunning
    ensures r.lastTick.Some? <==> r.isRunning
    ensures r.isRunning ==> r.lastTick == Some(now)
    ensures r.durationSec == f.durationSec && r.remainingSec == f.remainingSec
    ensures TimerInv(f) ==> TimerInv(r)
  {
    var g := f.(isRunning := !f.isRunning);
    if g.isRunning then g.(lastTick := Some(now)) else g.(lastTick := None)
  }

  /** `on_tick` at instant `now`, as written. A running countdown without an anchor takes
      `now` as its anchor. With an anchor, once at least one whole second has elapsed,
      those whole seconds are taken off the time remaining and `now` becomes the anchor,
      so the fraction of a second beyond them is dropped; when more time has elapsed
      than remained, the countdown stops at 0. Reaching exactly 0 does not stop it. */
  function Tick(f: FocusState, now: int): (r: FocusState)
    ensures r.durationSec == f.durationSec
    ensures !f.isRunning ==> r == f
    ensures f.isRunning && f.lastTick.None? ==> r == f.(lastTick := Some(now))
    ensures f.isRunning && f.lastTick.Some? && now - f.lastTick.value < 1000 ==> r == f
    ensures f.isRunning && f.lastTick.Some? && now - f.lastTick.value >= 1000 ==>
      var delta := (now - f.lastTick.value) / 1000;
      r.lastTick == Some(now)
      && (f.remainingSec >= delta ==> r.isRunning && r.remainingSec == f.remainingSec - delta)
      && (f.remainingSec < delta ==> !r.isRunning && r.remainingSec == 0)
    ensures f.remainingSec >= 0 ==> 0 <= r.remainingSec <= f.remainingSec
    ensures TimerInv(f) ==> TimerInv(r)
  {
    if !f.isRunning then f
    else
      match f.lastTick
      case None => f.(lastTick := Some(now))
      case Some(last) =>
        var delta := NumSeconds(now - last);
        if delta > 0 then
          var g := if f.remainingSec >= delta then f.(remainingSec := f.remainingSec - delta)
                   else f.(remainingSec := 0, isRunning := false);
          g.(lastTick := Some(now))
        else f
  }

  /** The tick as evidently intended: the same countdown, but the anchor advances by the
      whole seconds taken off rather than jumping to `now`, so the fraction of a second
      not yet counted is counted by a later tick. */
  function SteadyTick(f: FocusState, now: int): (r: FocusState)
    ensures r.isRunning == Tick(f, now).isRunning
    ensures r.durationSec == Tick(f, now).durationSec
    ensures r.remainingSec == Tick(f, now).remainingSec
    ensures r.lastTick.Some? == Tick(f, now).lastTick.Some?
    ensures f.isRunning && f.lastTick.Some? && now - f.lastTick.value >= 1000 ==>
      r.lastTick == Some(f.lastTick.value + 1000 * ((now - f.lastTick.value) / 1000))
      && f.lastTick.value < r.lastTick.value <= now
    ensures (f.isRunning && f.lastTick.Some? && now - f.lastTick.value >= 1000) || r == Tick(f, now)
    ensures TimerInv(f) ==> TimerInv(r)
  {
    var r := Tick(f, now);
    if f.isRunning && f.lastTick.Some? && NumSeconds(now - f.lastTick.value) > 0 then
      r.(lastTick := Some(f.lastTick.value + 1000 * NumSeconds(now - f.lastTick.value)))
    else r
  }

  /** A countdown that lands on exactly 0 keeps running, and the next tick a second or
      more later stops it, still at 0. */
  lemma ZeroStopsOnNextTick(f: FocusState, t1: int, t2: int)
    requires f.isRunning && f.lastTick.Some?
    requires NumSeconds(t1 - f.lastTick.value) == f.remainingSec > 0
    requires t2 - t1 >= 1000
    ensures Tick(f, t1).isRunning && Tick(f, t1).remainingSec == 0
    ensures !Tick(Tick(f, t1), t2).isRunning && Tick(Tick(f, t1), t2).remainingSec == 0
    ensures SteadyTick(f, t1).isRunning && SteadyTick(f, t1).remainingSec == 0
    ensures !SteadyTick(SteadyTick(f, t1), t2).isRunning && SteadyTick(SteadyTick(f, t1), t2).remainingSec == 0
  {
  }

  /** As written, the tick drops the fraction of a second beyond the whole seconds it
      counts: from a fresh 25-minute session anchored at 0, ticks at 1.5 s and at 3 s
      leave 1498 seconds, while one tick at 3 s leaves 1497. */
  lemma TicksLoseRemainder()
    ensures var f := FocusState(true, 1500, 1500, Some(0));
      Tick(Tick(f, 1500), 3000).remainingSec == 1498 && Tick(f, 3000).remainingSec == 1497
  {
    var f := FocusState(true, 1500, 1500, Some(0));
    assert NumSeconds(1500) == 1;
    assert NumSeconds(3000 - 1500) == 1;
    assert NumSeconds(3000) == 3;
  }

  /** Taking `d` whole seconds off a non-negative span takes `d` off its whole seconds. */
  lemma NumSecondsShift(x: int, d: int)
    requires 0 <= 1000 * d <= x
    ensures NumSeconds(x - 1000 * d) == NumSeconds(x) - d
  {
    var q, m := x / 1000, x % 1000;
    assert x == 1000 * q + m && 0 <= m < 1000;
    assert x - 1000 * d == 1000 * (q - d) + m;
  }

  /** With the steady anchor, while the session has not run out, two ticks take off as
      much time as one tick at the later instant, and leave the same anchor: the
      countdown does not depend on how often it is ticked. */
  lemma {:induction false} TicksCoalesce(f: FocusState, t1: int, t2: int)
    requires f.isRunning && f.lastTick.Some?
    requires f.lastTick.value <= t1 <= t2
    requires NumSeconds(t2 - f.lastTick.value) <= f.remainingSec
    ensures SteadyTick(SteadyTick(f, t1), t2) == SteadyTick(f, t2)
  {
    var last := f.lastTick.value;
    var d1 := NumSeconds(t1 - last);
    if d1 > 0 {
      NumSecondsShift(t2 - last, d1);
      assert t2 - (last + 1000 * d1) == (t2 - last) - 1000 * d1;
    }
  }

  /** Pausing and resuming keeps the time remaining. */
  lemma PauseResumeKeepsRemaining(f: FocusState, t1: int, t2: int)
    ensures Toggle(Toggle(f, t1), t2).isRunning == f.isRunning
    ensures Toggle(Toggle(f, t1), t2).remainingSec == f.remainingSec
  {
  }
}
