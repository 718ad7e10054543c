/**
 The playback clocks of ffplay, in real arithmetic: a clock runs from its last update at its
 speed, can be paused, and belongs to a queue serial.  The external clock is sped up and
 slowed down by the fill of the queues.
 */
module Clocks {
  import opened Common

  datatype Reading = NaN | Num(value: real)

  datatype Clock = Clock(pts: Reading, drift: Reading, lastUpdated: real, speed: real, serial: int, paused: bool)

  /** get_clock at time t, for a queue whose serial is now qs */
  function Get(c: Clock, qs: int, t: real): Reading {
    if qs != c.serial then NaN
    else if c.paused then c.pts
    else if c.drift.NaN? then NaN
    else Num(c.drift.value + t - (t - c.lastUpdated) * (1.0 - c.speed))
  }

  /** set_clock_at */
  function SetAt(c: Clock, pts: Reading, serial: int, t: real): Clock {
    c.(pts := pts, lastUpdated := t, drift := if pts.NaN? then NaN else Num(pts.value - t), serial := serial)
  }

  /** set_clock_speed */
  function SetSpeed(c: Clock, qs: int, speed: real, t: real): Clock {
    SetAt(c, Get(c, qs, t), c.serial, t).(speed := speed)
  }

  /** init_clock */
  function InitClock(t: real): Clock { SetAt(Clock(NaN, NaN, t, 1.0, -1, false), NaN, -1, t) }

  /** The drift is what set_clock_at made it. */
  predicate Valid(c: Clock) {
    c.drift == if c.pts.NaN? then NaN else Num(c.pts.value - c.lastUpdated)
  }

  lemma RealDistributes(a: real, s: real)
    ensures a * (1.0 - s) == a - s * a
  {
  }

  /** A running clock reads its base plus speed times the time since its last update. */
  lemma RunningReading(c: Clock, t: real)
    requires Valid(c) && !c.paused
    ensures Get(c, c.serial, t) == if c.pts.NaN? then NaN else Num(c.pts.value + c.speed * (t - c.lastUpdated))
  {
    if c.pts.Num? {
      var e, s := t - c.lastUpdated, c.speed;
      RealDistributes(e, s);
      assert Get(c, c.serial, t).value == c.drift.value + t - e * (1.0 - s);
      assert c.drift.value + t == c.pts.value + e;
      assert Get(c, c.serial, t).value == c.pts.value + s * e;
    }
  }

  lemma RealZero(s: real)
    ensures 0.0 * s == 0.0 && s * 0.0 == 0.0
  {
  }

  /** Right after set_clock_at a clock reads what it was set to, running or paused. */
  lemma ReadsWhatWasSet(c: Clock, pts: Reading, serial: int, t: real)
    ensures Valid(SetAt(c, pts, serial, t)) && Get(SetAt(c, pts, serial, t), serial, t) == pts
  {
    var c' := SetAt(c, pts, serial, t);
    if !c.paused {
      RunningReading(c', t);
      RealZero(c.speed);
    }
  }

  /** Changing the speed never makes a clock jump, and from then on it runs at the new speed. */
  lemma SpeedChangeIsSmooth(c: Clock, qs: int, speed: real, t: real, later: real)
    requires Valid(c)
    ensures var c' := SetSpeed(c, qs, speed, t);
      && Valid(c') && Get(c', qs, t) == Get(c, qs, t)
      && (!c.paused && Get(c, qs, t).Num? ==> Get(c', qs, later) == Num(Get(c, qs, t).value + speed * (later - t)))
  {
    var c' := SetSpeed(c, qs, speed, t);
    if qs == c.serial {
      if !c.paused {
        RunningReading(c', t);
        RunningReading(c', later);
        RealZero(speed);
      }
    }
  }

  /** A new clock has no reading; once set it runs at the speed of the time. */
  lemma NewClockKeepsTime(t0: real, x: real, serial: int, t: real, later: real)
    ensures var c := SetAt(InitClock(t0), Num(x), serial, t);
      && Get(InitClock(t0), -1, t).NaN? && Get(InitClock(t0), serial, t).NaN?
      && Get(c, serial, later) == Num(x + (later - t))
  {
    RunningReading(SetAt(InitClock(t0), Num(x), serial, t), later);
  }

  // ---------------------------------------------------------------------- pause and resume

  /** The part of VideoState that stream_toggle_pause works on. */
  datatype Player = Player(vid: Clock, aud: Clock, ext: Clock, paused: bool, frameTimer: real)

  /** `enosys`: the demuxer cannot pause.  The external clock is its own serial. */
  function TogglePause(p: Player, vidSerial: int, enosys: bool, t: real): Player {
    var p1 :=
      if !p.paused then p
      else
        var vid := if enosys then p.vid else p.vid.(paused := false);
        p.(frameTimer := p.frameTimer + (t - p.vid.lastUpdated),
           vid := SetAt(vid, Get(vid, vidSerial, t), vid.serial, t));
    var ext := SetAt(p1.ext, Get(p1.ext, p1.ext.serial, t), p1.ext.serial, t);
    var now := !p.paused;
    Player(p1.vid.(paused := now), p1.aud.(paused := now), ext.(paused := now), now, p1.frameTimer)
  }

  /** The external clock stands still while paused and goes on from where it stood. */
  lemma ExternalClockPauses(p: Player, vidSerial: int, e1: bool, e2: bool, t0: real, mid: real, t1: real, later: real)
    requires Valid(p.ext) && !p.paused && !p.ext.paused && p.ext.pts.Num?
    ensures var held := TogglePause(p, vidSerial, e1, t0);
      var resumed := TogglePause(held, vidSerial, e2, t1);
      var before := Get(p.ext, p.ext.serial, t0);
      && Valid(held.ext) && held.ext.paused && Get(held.ext, held.ext.serial, mid) == before
      && Valid(resumed.ext) && !resumed.ext.paused && Get(resumed.ext, resumed.ext.serial, t1) == before
      && before.Num? && Get(resumed.ext, resumed.ext.serial, later) == Num(before.value + p.ext.speed * (later - t1))
  {
    var held := TogglePause(p, vidSerial, e1, t0);
    var resumed := TogglePause(held, vidSerial, e2, t1);
    RunningReading(p.ext, t0);
    RunningReading(resumed.ext, t1);
    RunningReading(resumed.ext, later);
    RealZero(p.ext.speed);
  }

  lemma RealSplit(s: real, a: real, b: real, c: real)
    ensures s * (c - a) == s * (b - a) + s * (c - b)
  {
  }

  lemma ProductZero(a: real, b: real)
    ensures a * b == 0.0 <==> a == 0.0 || b == 0.0
  {
  }

  /**
   The video clock does not behave so.  While paused it reads its last update.  A demuxer that
   can pause lets it resume as if it had run all along; any other makes it step back to its
   last update.
   */
  lemma VideoClockAfterPause(p: Player, qs: int, e1: bool, e2: bool, t0: real, mid: real, t1: real)
    requires Valid(p.vid) && !p.paused && !p.vid.paused
    ensures var held := TogglePause(p, qs, e1, t0);
      var resumed := TogglePause(held, qs, e2, t1);
      var stuck := if qs == p.vid.serial then p.vid.pts else NaN;
      && Get(held.vid, qs, mid) == stuck
      && Get(resumed.vid, qs, t1) == (if e2 then stuck else Get(p.vid, qs, t1))
  {
    var held := TogglePause(p, qs, e1, t0);
    var resumed := TogglePause(held, qs, e2, t1);
    if qs == p.vid.serial && p.vid.pts.Num? {
      RunningReading(p.vid, t1);
      RunningReading(held.vid.(paused := false), t1);
      RunningReading(resumed.vid, t1);
      RealZero(p.vid.speed);
    }
  }

  /**
   It goes on from the reading it had at the pause exactly when it has no reading or speed 0,
   or else: when the pause took no time, for a demuxer that can pause; when the pause came
   right at the clock's last update, for one that cannot.
   */
  lemma VideoClockJumpsUnless(p: Player, qs: int, e1: bool, e2: bool, t0: real, t1: real)
    requires Valid(p.vid) && !p.paused && !p.vid.paused
    ensures var resumed := TogglePause(TogglePause(p, qs, e1, t0), qs, e2, t1);
      Get(resumed.vid, qs, t1) == Get(p.vid, qs, t0) <==>
        || qs != p.vid.serial || p.vid.pts.NaN? || p.vid.speed == 0.0
        || (if e2 then t0 == p.vid.lastUpdated else t0 == t1)
  {
    VideoClockAfterPause(p, qs, e1, e2, t0, t0, t1);
    if qs == p.vid.serial && p.vid.pts.Num? {
      RunningReading(p.vid, t0);
      RunningReading(p.vid, t1);
      RealSplit(p.vid.speed, p.vid.lastUpdated, t0, t1);
      ProductZero(p.vid.speed, t1 - t0);
      ProductZero(p.vid.speed, t0 - p.vid.lastUpdated);
    }
  }

  /** Without a demuxer that can pause even a pause that takes no time sets the clock back. */
  lemma VideoClockStepsBack(c: Clock)
    ensures var vid := Clock(Num(5.0), Num(5.0), 0.0, 1.0, 1, false);
      var resumed := TogglePause(TogglePause(Player(vid, c, c, false, 0.0), 1, true, 1.0), 1, true, 1.0);
      Get(vid, 1, 1.0) == Num(6.0) && Get(resumed.vid, 1, 1.0) == Num(5.0)
  {
    var vid := Clock(Num(5.0), Num(5.0), 0.0, 1.0, 1, false);
    RunningReading(vid, 1.0);
    VideoClockAfterPause(Player(vid, c, c, false, 0.0), 1, true, true, 1.0, 1.0, 1.0);
  }

  /** Pausing stops all three clocks and the player, resuming starts them; the audio clock's base never moves. */
  lemma PauseStopsAll(p: Player, qs: int, e1: bool, e2: bool, t0: real, t1: real)
    requires !p.paused && !p.aud.paused
    ensures var held := TogglePause(p, qs, e1, t0);
      var resumed := TogglePause(held, qs, e2, t1);
      && held.paused && held.vid.paused && held.aud.paused && held.ext.paused
      && !resumed.paused && !resumed.vid.paused && !resumed.aud.paused && !resumed.ext.paused
      && resumed.aud == p.aud
  {
  }

  /** The frame timer does not see a pause: the frame on screen is as old as it was at the clock's last update. */
  lemma FrameTimerSkipsPause(p: Player, qs: int, e1: bool, e2: bool, t0: real, t1: real)
    requires !p.paused
    ensures var held := TogglePause(p, qs, e1, t0);
      var resumed := TogglePause(held, qs, e2, t1);
      && held.frameTimer == p.frameTimer
      && t1 - resumed.frameTimer == p.vid.lastUpdated - p.frameTimer
  {
  }

  // ------------------------------------------------------------------ external clock speed

  const EXTERNAL_CLOCK_MIN_FRAMES := 2
  const EXTERNAL_CLOCK_MAX_FRAMES := 10
  const SPEED_MIN := 0.900
  const SPEED_MAX := 1.010
  const SPEED_STEP := 0.001

  /** Packets queued for each stream, None for a stream that is not there. */
  datatype Fill = Fill(video: Option<nat>, audio: Option<nat>)

  predicate Starving(f: Fill) {
    || (f.video.Some? && f.video.value <= EXTERNAL_CLOCK_MIN_FRAMES)
    || (f.audio.Some? && f.audio.value <= EXTERNAL_CLOCK_MIN_FRAMES)
  }

  predicate Flooded(f: Fill) {
    && (f.video.None? || f.video.value > EXTERNAL_CLOCK_MAX_FRAMES)
    && (f.audio.None? || f.audio.value > EXTERNAL_CLOCK_MAX_FRAMES)
  }

  function Abs(x: real): real { if x < 0.0 then -x else x }

  /** check_external_clock_speed: the new speed. */
  function NextSpeed(speed: real, f: Fill): real {
    if Starving(f) then (if speed - SPEED_STEP < SPEED_MIN then SPEED_MIN else speed - SPEED_STEP)
    else if Flooded(f) then (if speed + SPEED_STEP > SPEED_MAX then SPEED_MAX else speed + SPEED_STEP)
    else if speed != 1.0 then speed + SPEED_STEP * (1.0 - speed) / Abs(1.0 - speed)
    else speed
  }

  /** Speeds reached from 1.0 are whole steps away from it. */
  predicate OnGrid(speed: real, k: int) { speed == 1.0 + SPEED_STEP * (k as real) && -100 <= k <= 10 }

  lemma DivSelf(s: real, x: real)
    requires x != 0.0
    ensures s * x / x == s
  {
  }

  lemma SignOf(x: real)
    requires x != 0.0
    ensures SPEED_STEP * x / Abs(x) == if x > 0.0 then SPEED_STEP else -SPEED_STEP
  {
    if x > 0.0 {
      DivSelf(SPEED_STEP, x);
    } else {
      DivSelf(SPEED_STEP, -x);
      assert SPEED_STEP * x == -(SPEED_STEP * (-x));
      assert (-(SPEED_STEP * (-x))) / (-x) == -((SPEED_STEP * (-x)) / (-x));
    }
  }

  /** A stream with few packets queued slows the clock down; only full queues speed it up. */
  lemma SpeedFollowsFill(speed: real, f: Fill)
    requires 0.0 < speed
    ensures var short := (f.video.Some? && f.video.value <= 2) || (f.audio.Some? && f.audio.value <= 2);
      var full := (f.video.Some? ==> f.video.value > 10) && (f.audio.Some? ==> f.audio.value > 10);
      && (short && speed > 0.900 ==> 0.900 <= NextSpeed(speed, f) < speed)
      && (!short && full && speed < 1.010 ==> speed < NextSpeed(speed, f) <= 1.010)
      && (!short && !full && speed < 1.0 ==> speed < NextSpeed(speed, f) <= speed + 0.001)
      && (!short && !full && speed > 1.0 ==> speed - 0.001 <= NextSpeed(speed, f) < speed)
      && (!short && !full && speed == 1.0 ==> NextSpeed(speed, f) == 1.0)
  {
    if speed != 1.0 {
      SignOf(1.0 - speed);
    }
  }

  function NextStep(k: int, f: Fill): int {
    if Starving(f) then (if k == -100 then k else k - 1)
    else if Flooded(f) then (if k == 10 then k else k + 1)
    else if k > 0 then k - 1 else if k < 0 then k + 1 else k
  }

  lemma SpeedStep(speed: real, k: int, f: Fill)
    requires OnGrid(speed, k)
    ensures OnGrid(NextSpeed(speed, f), NextStep(k, f))
  {
    if !Starving(f) && !Flooded(f) && speed != 1.0 {
      SignOf(1.0 - speed);
    }
  }

  function SpeedAfter(speed: real, fills: seq<Fill>): real
    decreases |fills|
  {
    if fills == [] then speed else SpeedAfter(NextSpeed(speed, fills[0]), fills[1..])
  }

  function StepAfter(k: int, fills: seq<Fill>): int
    decreases |fills|
  {
    if fills == [] then k else StepAfter(NextStep(k, fills[0]), fills[1..])
  }

  lemma {:induction false} GridKept(speed: real, k: int, fills: seq<Fill>)
    requires OnGrid(speed, k)
    ensures OnGrid(SpeedAfter(speed, fills), StepAfter(k, fills))
    decreases |fills|
  {
    if fills != [] {
      SpeedStep(speed, k, fills[0]);
      GridKept(NextSpeed(speed, fills[0]), NextStep(k, fills[0]), fills[1..]);
    }
  }

  /** Over every run from 1.0 the speed stays between 0.900 and 1.010. */
  lemma {:induction false} SpeedInRange(fills: seq<Fill>)
    ensures SPEED_MIN <= SpeedAfter(1.0, fills) <= SPEED_MAX
  {
    GridKept(1.0, 0, fills);
  }

  ghost predicate AllMiddle(fills: seq<Fill>) {
    forall i :: 0 <= i < |fills| ==> !Starving(fills[i]) && !Flooded(fills[i])
  }

  lemma {:induction false} StepsHome(k: int, fills: seq<Fill>)
    requires AllMiddle(fills) && -|fills| <= k <= |fills|
    ensures StepAfter(k, fills) == 0
    decreases |fills|
  {
    if fills != [] {
      assert forall i :: 0 <= i < |fills[1..]| ==> fills[1..][i] == fills[i + 1];
      StepsHome(NextStep(k, fills[0]), fills[1..]);
    }
  }

  /** After any run, a hundred checks with the queues in between bring the speed back to exactly 1.0. */
  lemma {:induction false} SpeedReturnsToOne(fills: seq<Fill>, calm: seq<Fill>)
    requires AllMiddle(calm) && |calm| >= 100
    ensures SpeedAfter(SpeedAfter(1.0, fills), calm) == 1.0
  {
    GridKept(1.0, 0, fills);
    var k := StepAfter(0, fills);
    GridKept(SpeedAfter(1.0, fills), k, calm);
    StepsHome(k, calm);
  }

  // ------------------------------------------------------------------------- the structure

  class PlayClocks {
    var vid: Clock
    var aud: Clock
    var ext: Clock
    var paused: bool
    var frameTimer: real

    function View(): Player
      reads this
    {
      Player(vid, aud, ext, paused, frameTimer)
    }

    constructor (t: real)
      ensures View() == Player(InitClock(t), InitClock(t), InitClock(t), false, 0.0)
    {
      vid, aud, ext, paused, frameTimer := InitClock(t), InitClock(t), InitClock(t), false, 0.0;
    }

    method SetExternalSpeed(speed: real, t: real)
      modifies `ext
      ensures ext == SetSpeed(old(ext), old(ext.serial), speed, t)
      ensures Valid(old(ext)) ==> Valid(ext) && Get(ext, ext.serial, t) == Get(old(ext), old(ext.serial), t)
    {
      if Valid(ext) {
        SpeedChangeIsSmooth(ext, ext.serial, speed, t, t);
      }
      ext := SetSpeed(ext, ext.serial, speed, t);
    }

    /** check_external_clock_speed at time t */
    method CheckExternalClockSpeed(f: Fill, t: real)
      modifies this
      ensures View() == old(View()).(ext := ext) && ext.speed == NextSpeed(old(ext.speed), f)
      ensures ext == old(ext) || ext == SetSpeed(old(ext), old(ext.serial), ext.speed, t)
      ensures Valid(old(ext)) ==> Valid(ext) && Get(ext, ext.serial, t) == Get(old(ext), old(ext.serial), t)
    {
      if Starving(f) {
        var s := ext.speed - SPEED_STEP;
        SetExternalSpeed(if SPEED_MIN > s then SPEED_MIN else s, t);
      } else if Flooded(f) {
        var s := ext.speed + SPEED_STEP;
        SetExternalSpeed(if SPEED_MAX > s then s else SPEED_MAX, t);
      } else {
        var speed := ext.speed;
        if speed != 1.0 {
          SetExternalSpeed(speed + SPEED_STEP * (1.0 - speed) / Abs(1.0 - speed), t);
        }
      }
    }

    /** stream_toggle_pause at time t */
    method StreamTogglePause(vidSerial: int, enosys: bool, t: real)
      modifies this
      ensures View() == TogglePause(old(View()), vidSerial, enosys, t)
    {
      if paused {
        frameTimer := frameTimer + (t - vid.lastUpdated);
        if !enosys {
          vid := vid.(paused := false);
        }
        vid := SetAt(vid, Get(vid, vidSerial, t), vid.serial, t);
      }
      ext := SetAt(ext, Get(ext, ext.serial, t), ext.serial, t);
      paused := !paused;
      vid, aud, ext := vid.(paused := paused), aud.(paused := paused), ext.(paused := paused);
    }
  }
}
