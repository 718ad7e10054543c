/**
 The frame rate conversion of ffmpeg (do_video_out): how many copies of the previous and of
 the next picture go to the encoder, which timestamps they get, and what the drop and
 duplication counters say about it.  Doubles are reals.
 */
module VideoSync {
  import opened Common

  datatype SyncMethod = PassThrough | Cfr | Vfr | VsCfr | Drop

  datatype Config = Config(
    sync: SyncMethod,
    dropThreshold: real,          // frame_drop_threshold, 0 when off
    dtsErrorThreshold: real,
    maxFrames: Option<nat>,       // None: unlimited
    recordingEnd: Option<int>,    // None: unlimited; first timestamp past -t otherwise
    forcedKf: seq<int>
  )

  /** Pictures are named by their order of arrival. */
  type Picture = nat

  datatype Emission = Emission(pic: Picture, pts: int, forced: bool)

  datatype Ost = Ost(
    syncOpts: int,
    frameNumber: int,
    nb0: (int, int, int),         // last_nb0_frames
    lastDropped: bool,
    lastFrame: Option<Picture>,
    nbDrop: int,
    nbDup: int,
    kfIndex: nat
  )

  const START := Ost(0, 0, (0, 0, 0), false, None, 0, 0, 0)

  datatype Input = Frame(pic: Picture, ipts: real, duration: real) | End

  function Min(a: int, b: int): int { if a < b then a else b }

  function B(b: bool): int { if b then 1 else 0 }

  /** lrint in the default rounding mode: nearest, ties to even. */
  function Rint(x: real): (r: int)
    ensures x - 0.5 <= r as real <= x + 0.5
  {
    var f := x.Floor;
    var frac := x - f as real;
    if frac < 0.5 then f else if frac > 0.5 then f + 1 else if f % 2 == 0 then f else f + 1
  }

  /** mid_pred: the median of three. */
  function Median(a: int, b: int, c: int): int {
    if a > b then (if c > b then (if c > a then a else c) else b)
    else if b > c then (if c > a then c else a) else b
  }

  /** Frames to emit, how many of them repeat the previous picture, and the timestamp to go on from. */
  datatype Plan = Plan(nb: int, nb0: int, syncOpts: int)

  function CfrPlan(cfg: Config, started: bool, delta: real, delta0: real, syncOpts: int): Plan {
    if cfg.dropThreshold != 0.0 && delta < cfg.dropThreshold && started then Plan(0, 0, syncOpts)
    else if delta < -1.1 then Plan(0, 0, syncOpts)
    else if delta > 1.1 then Plan(Rint(delta), if delta0 > 1.1 then Rint(delta0 - 0.6) else 0, syncOpts)
    else Plan(1, 0, syncOpts)
  }

  /** The decision before any limit is applied: a median at the end, the drift of the clock otherwise. */
  function Decide(cfg: Config, o: Ost, input: Input): Plan {
    match input
    case End =>
      var m := Median(o.nb0.0, o.nb0.1, o.nb0.2);
      Plan(m, m, o.syncOpts)
    case Frame(_, ipts, dur) =>
      var d0 := ipts - o.syncOpts as real;
      var delta := d0 + dur;
      var clip := d0 < 0.0 && delta > 0.0 && !cfg.sync.PassThrough? && !cfg.sync.Drop?;
      var cor := if !clip then 0.0 else if -d0 < dur then -d0 else dur;
      var ipts', dur', delta0 := ipts + cor, dur - cor, d0 + cor;
      match cfg.sync
      case VsCfr =>
        if o.frameNumber == 0 && delta - dur' >= 0.5
        then CfrPlan(cfg, o.frameNumber != 0, dur', 0.0, Rint(ipts'))
        else CfrPlan(cfg, o.frameNumber != 0, delta, delta0, o.syncOpts)
      case Cfr => CfrPlan(cfg, o.frameNumber != 0, delta, delta0, o.syncOpts)
      case Vfr =>
        if delta <= -0.6 then Plan(0, 0, o.syncOpts)
        else Plan(1, 0, if delta > 0.6 then Rint(ipts') else o.syncOpts)
      case _ => Plan(1, 0, Rint(ipts'))
  }

  /** The decision under the frame limit. */
  function Limited(cfg: Config, o: Ost, p: Plan): Plan {
    var nb := if cfg.maxFrames.None? then p.nb else Min(p.nb, cfg.maxFrames.value - o.frameNumber);
    p.(nb := nb, nb0 := Min(p.nb0, nb))
  }

  function PlanFor(cfg: Config, o: Ost, input: Input): Plan { Limited(cfg, o, Decide(cfg, o, input)) }

  /** Copies that neither show the held back picture nor the new one for the first time. */
  function Repeats(o: Ost, p: Plan): int {
    p.nb - B(p.nb0 != 0 && o.lastDropped) - B(p.nb > p.nb0)
  }

  /** "frame duplication too large, skipping" */
  predicate Skips(cfg: Config, o: Ost, p: Plan) {
    Repeats(o, p) > 0 && p.nb as real > cfg.dtsErrorThreshold * 30.0
  }

  /** The counters after the decision: the history of nb0, drops, duplicates, and whether a picture is held back. */
  function Counted(cfg: Config, o: Ost, p: Plan, input: Input): Ost {
    var o1 := o.(syncOpts := p.syncOpts, nb0 := (p.nb0, o.nb0.0, o.nb0.1),
                 nbDrop := o.nbDrop + B(p.nb0 == 0 && o.lastDropped));
    if Skips(cfg, o, p) then o1.(nbDrop := o1.nbDrop + 1)
    else o1.(nbDup := o1.nbDup + (if Repeats(o, p) > 0 then Repeats(o, p) else 0),
             lastDropped := p.nb == p.nb0 && input.Frame?)
  }

  /** The counters do not depend on the timestamp before the decision. */
  lemma CountedSetsStamp(cfg: Config, o: Ost, p: Plan, input: Input, x: int)
    ensures Counted(cfg, o.(syncOpts := x), p, input) == Counted(cfg, o, p, input)
    ensures Skips(cfg, o.(syncOpts := x), p) == Skips(cfg, o, p)
  {
  }

  /** What the emit loop leaves behind; `complete` is false when it returned early. */
  datatype Emitted = Emitted(o: Ost, out: seq<Emission>, complete: bool)

  function Source(o: Ost, nb0: int, i: int, input: Input): Option<Picture> {
    if i < nb0 && o.lastFrame.Some? then o.lastFrame
    else if input.Frame? then Some(input.pic) else None
  }

  predicate PastEnd(cfg: Config, t: int) {
    cfg.recordingEnd.Some? && t >= cfg.recordingEnd.value
  }

  predicate ServesKf(cfg: Config, o: Ost) {
    o.kfIndex < |cfg.forcedKf| && o.syncOpts >= cfg.forcedKf[o.kfIndex]
  }

  /** One frame to the encoder, stamped with sync_opts. */
  function EmitOne(cfg: Config, o: Ost, pic: Picture): (Ost, Emission) {
    var forced := ServesKf(cfg, o);
    (o.(syncOpts := o.syncOpts + 1, frameNumber := o.frameNumber + 1, kfIndex := o.kfIndex + B(forced)),
     Emission(pic, o.syncOpts, forced))
  }

  function Emit(cfg: Config, o: Ost, p: Plan, i: int, input: Input): Emitted
    decreases p.nb - i
  {
    if i >= p.nb then Emitted(o, [], true)
    else
      var pic := Source(o, p.nb0, i, input);
      if pic.None? || PastEnd(cfg, o.syncOpts) then Emitted(o, [], false)
      else
        var (o', e) := EmitOne(cfg, o, pic.value);
        var rest := Emit(cfg, o', p, i + 1, input);
        rest.(out := [e] + rest.out)
  }

  /** One call of do_video_out. */
  function Step(cfg: Config, o: Ost, input: Input): Emitted {
    var p := PlanFor(cfg, o, input);
    var o1 := Counted(cfg, o, p, input);
    if Skips(cfg, o, p) then Emitted(o1, [], false)
    else
      var r := Emit(cfg, o1, p, 0, input);
      if r.complete then r.(o := r.o.(lastFrame := if input.Frame? then Some(input.pic) else None)) else r
  }

  function Run(cfg: Config, o: Ost, inputs: seq<Input>): Emitted
    decreases |inputs|
  {
    if inputs == [] then Emitted(o, [], true)
    else
      var first := Step(cfg, o, inputs[0]);
      var rest := Run(cfg, first.o, inputs[1..]);
      Emitted(rest.o, first.out + rest.out, first.complete && rest.complete)
  }

  // ------------------------------------------------------------------------ the emit loop

  lemma {:induction false} EmitFacts(cfg: Config, o: Ost, p: Plan, i: int, input: Input)
    requires 0 <= i
    ensures var r := Emit(cfg, o, p, i, input);
      && |r.out| <= (if p.nb > i then p.nb - i else 0)
      && (r.complete <==> |r.out| == (if p.nb > i then p.nb - i else 0))
      && r.o == o.(syncOpts := o.syncOpts + |r.out|, frameNumber := o.frameNumber + |r.out|, kfIndex := r.o.kfIndex)
      && (forall k :: 0 <= k < |r.out| ==>
            r.out[k].pts == o.syncOpts + k && Source(o, p.nb0, i + k, input) == Some(r.out[k].pic))
    decreases p.nb - i
  {
    if i < p.nb {
      var pic := Source(o, p.nb0, i, input);
      if pic.Some? && !PastEnd(cfg, o.syncOpts) {
        var (o', e) := EmitOne(cfg, o, pic.value);
        EmitFacts(cfg, o', p, i + 1, input);
        var r, rest := Emit(cfg, o, p, i, input), Emit(cfg, o', p, i + 1, input);
        forall k | 0 <= k < |r.out|
          ensures r.out[k].pts == o.syncOpts + k && Source(o, p.nb0, i + k, input) == Some(r.out[k].pic)
        {
          if k > 0 {
            assert r.out[k] == rest.out[k - 1];
            assert Source(o', p.nb0, (i + 1) + (k - 1), input) == Some(rest.out[k - 1].pic);
          }
        }
      }
    }
  }

  // ------------------------------------------------------------------- counters (ledger)

  /** What holds between two calls of do_video_out. */
  ghost predicate Inv(cfg: Config, o: Ost) {
    && o.nb0.0 >= 0 && o.nb0.1 >= 0 && o.nb0.2 >= 0
    && (cfg.maxFrames.Some? ==> o.frameNumber <= cfg.maxFrames.value)
    && o.frameNumber >= 0
  }

  lemma {:induction false} DecideNonNegative(cfg: Config, o: Ost, input: Input)
    requires Inv(cfg, o)
    ensures Decide(cfg, o, input).nb >= 0 && Decide(cfg, o, input).nb0 >= 0
  {
  }

  lemma {:induction false} StepKeepsInv(cfg: Config, o: Ost, input: Input)
    requires Inv(cfg, o)
    ensures Inv(cfg, Step(cfg, o, input).o)
    ensures Step(cfg, o, input).o.frameNumber == o.frameNumber + |Step(cfg, o, input).out|
  {
    DecideNonNegative(cfg, o, input);
    var p := PlanFor(cfg, o, input);
    EmitFacts(cfg, Counted(cfg, o, p, input), p, 0, input);
  }

  /** The pictures owed to the output by the counters alone. */
  function Owed(received: int, o: Ost): int { received - o.nbDrop + o.nbDup - B(o.lastDropped) }

  /** By how much one call leaves the counters off: a skip that already counted a drop, or frames cut short. */
  function Slack(cfg: Config, o: Ost, input: Input): int {
    var p := PlanFor(cfg, o, input);
    if Skips(cfg, o, p) then B(p.nb0 == 0 && o.lastDropped) + B(input.End?)
    else |Step(cfg, o, input).out| - p.nb
  }

  /** The books of one call, in every sync method and with every early return. */
  lemma {:induction false} StepLedger(cfg: Config, o: Ost, received: int, emitted: int, input: Input)
    requires Inv(cfg, o)
    ensures var r := Step(cfg, o, input);
      (emitted + |r.out|) - Owed(received + B(input.Frame?), r.o) == emitted - Owed(received, o) + Slack(cfg, o, input)
  {
    DecideNonNegative(cfg, o, input);
    var p := PlanFor(cfg, o, input);
    EmitFacts(cfg, Counted(cfg, o, p, input), p, 0, input);
  }

  /** Whether a call can hand over all the frames it decided on, as seen before the call. */
  ghost predicate Uncut(cfg: Config, o: Ost, input: Input) {
    var p := PlanFor(cfg, o, input);
    || p.nb == 0
    || ((input.Frame? || o.lastFrame.Some?) &&
        (cfg.recordingEnd.Some? ==> p.syncOpts + p.nb <= cfg.recordingEnd.value))
  }

  lemma {:induction false} EmitCompleteExactly(cfg: Config, o: Ost, p: Plan, i: int, input: Input)
    requires 0 <= i < p.nb && 0 <= p.nb0 <= p.nb && (input.End? ==> p.nb0 == p.nb)
    ensures Emit(cfg, o, p, i, input).complete <==>
      && (input.Frame? || o.lastFrame.Some?)
      && (cfg.recordingEnd.Some? ==> o.syncOpts + (p.nb - i) <= cfg.recordingEnd.value)
    decreases p.nb - i
  {
    var pic := Source(o, p.nb0, i, input);
    if pic.Some? && !PastEnd(cfg, o.syncOpts) && i + 1 < p.nb {
      EmitCompleteExactly(cfg, EmitOne(cfg, o, pic.value).0, p, i + 1, input);
    }
  }

  /** The books balance after a call exactly when it neither skips over a counted drop or a flush nor is cut short. */
  lemma {:induction false} BalancedExactly(cfg: Config, o: Ost, input: Input)
    requires Inv(cfg, o)
    ensures Slack(cfg, o, input) == 0 <==>
      if Skips(cfg, o, PlanFor(cfg, o, input)) then input.Frame? && !(PlanFor(cfg, o, input).nb0 == 0 && o.lastDropped)
      else Uncut(cfg, o, input)
  {
    DecideNonNegative(cfg, o, input);
    var p := PlanFor(cfg, o, input);
    var o1 := Counted(cfg, o, p, input);
    EmitFacts(cfg, o1, p, 0, input);
    if p.nb > 0 {
      EmitCompleteExactly(cfg, o1, p, 0, input);
    }
  }

  function Received(inputs: seq<Input>): nat {
    if inputs == [] then 0 else B(inputs[0].Frame?) + Received(inputs[1..])
  }

  ghost predicate CleanRun(cfg: Config, o: Ost, inputs: seq<Input>)
    decreases |inputs|
  {
    inputs != [] ==>
      && !Skips(cfg, o, PlanFor(cfg, o, inputs[0])) && Uncut(cfg, o, inputs[0])
      && CleanRun(cfg, Step(cfg, o, inputs[0]).o, inputs[1..])
  }

  lemma {:induction false} CleanStepCompletes(cfg: Config, o: Ost, input: Input)
    requires Inv(cfg, o) && !Skips(cfg, o, PlanFor(cfg, o, input)) && Uncut(cfg, o, input)
    ensures Step(cfg, o, input).complete && |Step(cfg, o, input).out| == PlanFor(cfg, o, input).nb
  {
    BalancedExactly(cfg, o, input);
    DecideNonNegative(cfg, o, input);
    var p := PlanFor(cfg, o, input);
    EmitFacts(cfg, Counted(cfg, o, p, input), p, 0, input);
  }

  /** By how much a whole run leaves the counters off. */
  function TotalSlack(cfg: Config, o: Ost, inputs: seq<Input>): int
    decreases |inputs|
  {
    if inputs == [] then 0
    else Slack(cfg, o, inputs[0]) + TotalSlack(cfg, Step(cfg, o, inputs[0]).o, inputs[1..])
  }

  /** The books of any run, with skips and cuts: what was owed and emitted before, and the slack of every call. */
  lemma {:induction false} RunLedger(cfg: Config, o: Ost, received: int, emitted: int, inputs: seq<Input>)
    requires Inv(cfg, o)
    ensures var r := Run(cfg, o, inputs);
      && Inv(cfg, r.o)
      && (emitted + |r.out|) - Owed(received + Received(inputs), r.o)
         == emitted - Owed(received, o) + TotalSlack(cfg, o, inputs)
    decreases |inputs|
  {
    hide Step, Slack, Owed;
    if inputs != [] {
      StepLedger(cfg, o, received, emitted, inputs[0]);
      StepKeepsInv(cfg, o, inputs[0]);
      var first := Step(cfg, o, inputs[0]);
      RunLedger(cfg, first.o, received + B(inputs[0].Frame?), emitted + |first.out|, inputs[1..]);
    }
  }

  lemma {:induction false} CleanRunHasNoSlack(cfg: Config, o: Ost, inputs: seq<Input>)
    requires Inv(cfg, o) && CleanRun(cfg, o, inputs)
    ensures TotalSlack(cfg, o, inputs) == 0 && Run(cfg, o, inputs).complete
    decreases |inputs|
  {
    hide Step, Slack, Skips, Uncut;
    if inputs != [] {
      BalancedExactly(cfg, o, inputs[0]);
      CleanStepCompletes(cfg, o, inputs[0]);
      StepKeepsInv(cfg, o, inputs[0]);
      CleanRunHasNoSlack(cfg, Step(cfg, o, inputs[0]).o, inputs[1..]);
    }
  }

  lemma {:induction false} StartOwesNothing(cfg: Config)
    ensures Inv(cfg, START) && Owed(0, START) == 0 && START.kfIndex == 0
  {
  }

  /** Emitted = received - dropped + duplicated - the picture still held back, exactly when the slacks cancel out. */
  lemma {:induction false} ConservedExactly(cfg: Config, o: Ost, inputs: seq<Input>)
    requires Inv(cfg, o) && Owed(0, o) == 0
    ensures var r := Run(cfg, o, inputs);
      |r.out| == Received(inputs) - r.o.nbDrop + r.o.nbDup - B(r.o.lastDropped) <==> TotalSlack(cfg, o, inputs) == 0
  {
    RunLedger(cfg, o, 0, 0, inputs);
  }

  /** Conservation: emitted = received - dropped + duplicated - the picture still held back. */
  lemma {:induction false} Conservation(cfg: Config, o: Ost, inputs: seq<Input>)
    requires Inv(cfg, o) && Owed(0, o) == 0 && CleanRun(cfg, o, inputs)
    ensures var r := Run(cfg, o, inputs);
      |r.out| == Received(inputs) - r.o.nbDrop + r.o.nbDup - B(r.o.lastDropped)
  {
    hide Inv, Owed, CleanRun;
    CleanRunHasNoSlack(cfg, o, inputs);
    ConservedExactly(cfg, o, inputs);
  }

  lemma {:induction false} RunSplit(cfg: Config, o: Ost, a: seq<Input>, last: Input)
    ensures Run(cfg, o, a + [last]).o == Step(cfg, Run(cfg, o, a).o, last).o
    decreases |a|
  {
    if a == [] {
      assert [last][1..] == [];
      assert Run(cfg, Step(cfg, o, last).o, []).o == Step(cfg, o, last).o;
      assert a + [last] == [last];
    } else {
      assert (a + [last])[1..] == a[1..] + [last];
      RunSplit(cfg, Step(cfg, o, a[0]).o, a[1..], last);
    }
  }

  lemma {:induction false} CleanRunLast(cfg: Config, o: Ost, a: seq<Input>, last: Input)
    requires CleanRun(cfg, o, a + [last])
    ensures !Skips(cfg, Run(cfg, o, a).o, PlanFor(cfg, Run(cfg, o, a).o, last))
    decreases |a|
  {
    if a != [] {
      assert (a + [last])[1..] == a[1..] + [last];
      CleanRunLast(cfg, Step(cfg, o, a[0]).o, a[1..], last);
    }
  }

  /** After the end flush nothing is held back: the counters alone account for every frame. */
  lemma {:induction false} ConservationAtEnd(cfg: Config, o: Ost, inputs: seq<Input>)
    requires Inv(cfg, o) && Owed(0, o) == 0 && CleanRun(cfg, o, inputs + [End])
    ensures var r := Run(cfg, o, inputs + [End]);
      !r.o.lastDropped && |r.out| == Received(inputs + [End]) - r.o.nbDrop + r.o.nbDup
  {
    Conservation(cfg, o, inputs + [End]);
    RunSplit(cfg, o, inputs, End);
    CleanRunLast(cfg, o, inputs, End);
    var o1 := Run(cfg, o, inputs).o;
    var p := PlanFor(cfg, o1, End);
    EmitFacts(cfg, Counted(cfg, o1, p, End), p, 0, End);
  }

  /** -frames: the frame counter counts the frames handed over and never passes the limit. */
  lemma {:induction false} FrameLimit(cfg: Config, o: Ost, inputs: seq<Input>)
    requires Inv(cfg, o)
    ensures var r := Run(cfg, o, inputs);
      r.o.frameNumber == o.frameNumber + |r.out| && (cfg.maxFrames.Some? ==> r.o.frameNumber <= cfg.maxFrames.value)
    decreases |inputs|
  {
    if inputs != [] {
      StepKeepsInv(cfg, o, inputs[0]);
      FrameLimit(cfg, Step(cfg, o, inputs[0]).o, inputs[1..]);
    }
  }

  // -------------------------------------------------------------------------- timestamps

  lemma {:induction false} StepStamps(cfg: Config, o: Ost, input: Input)
    ensures var r, p := Step(cfg, o, input), PlanFor(cfg, o, input);
      && p.syncOpts == Decide(cfg, o, input).syncOpts
      && r.o.frameNumber == o.frameNumber + |r.out|
      && r.o.syncOpts == p.syncOpts + |r.out|
      && (forall k :: 0 <= k < |r.out| ==> r.out[k].pts == p.syncOpts + k)
  {
    var p := PlanFor(cfg, o, input);
    EmitFacts(cfg, Counted(cfg, o, p, input), p, 0, input);
  }

  lemma ClockRunsOn(cfg: Config, o: Ost, input: Input)
    requires cfg.sync.Cfr? || (cfg.sync.VsCfr? && o.frameNumber > 0)
    ensures PlanFor(cfg, o, input).syncOpts == o.syncOpts
  {
  }

  /**
   At a constant frame rate the k-th frame has timestamp k, whatever arrives and whatever is
   skipped; with vscfr from the first frame on.
   */
  lemma {:induction false} CfrStampsContiguous(cfg: Config, o: Ost, inputs: seq<Input>)
    requires cfg.sync.Cfr? || (cfg.sync.VsCfr? && o.frameNumber > 0)
    ensures var r := Run(cfg, o, inputs);
      r.o.syncOpts == o.syncOpts + |r.out| && forall k :: 0 <= k < |r.out| ==> r.out[k].pts == o.syncOpts + k
    decreases |inputs|
  {
    hide Step, PlanFor, Decide;
    if inputs != [] {
      ClockRunsOn(cfg, o, inputs[0]);
      StepStamps(cfg, o, inputs[0]);
      var first := Step(cfg, o, inputs[0]);
      CfrStampsContiguous(cfg, first.o, inputs[1..]);
      var rest := Run(cfg, first.o, inputs[1..]);
      var out := first.out + rest.out;
      assert forall k :: |first.out| <= k < |out| ==> out[k] == rest.out[k - |first.out|];
    }
  }

  /** How far the end of the picture is ahead of the next timestamp. */
  function Drift(o: Ost, input: Input): real
    requires input.Frame?
  {
    input.ipts + input.duration - o.syncOpts as real
  }

  predicate InBand(x: real) { -2.1 <= x <= 0.5 }

  ghost predicate Steady(duration: real, inputs: seq<Input>) {
    && duration >= 0.0
    && (forall i :: 0 <= i < |inputs| ==> inputs[i].Frame? && inputs[i].duration == duration && inputs[i].ipts >= 0.0)
    && (forall i, j :: 0 <= i < j < |inputs| ==> inputs[i].ipts <= inputs[j].ipts)
  }

  predicate Unlimited(cfg: Config) { cfg.maxFrames.None? && cfg.recordingEnd.None? }

  ghost predicate PlainCfr(cfg: Config) {
    cfg.sync.Cfr? && cfg.dropThreshold == 0.0 && Unlimited(cfg)
  }

  lemma {:induction false} EmitFromFrameCompletes(cfg: Config, o: Ost, p: Plan, i: int, input: Input)
    requires input.Frame? && cfg.recordingEnd.None?
    ensures Emit(cfg, o, p, i, input).complete
    decreases p.nb - i
  {
    if i < p.nb {
      EmitFromFrameCompletes(cfg, EmitOne(cfg, o, Source(o, p.nb0, i, input).value).0, p, i + 1, input);
    }
  }

  /** The two methods of constant rate, with nothing that cuts or drops frames. */
  ghost predicate PlainClock(cfg: Config) {
    (cfg.sync.Cfr? || cfg.sync.VsCfr?) && cfg.dropThreshold == 0.0 && Unlimited(cfg)
  }

  /** vscfr sets its clock to the first picture. */
  predicate SetsClock(cfg: Config, o: Ost, input: Input) {
    cfg.sync.VsCfr? && o.frameNumber == 0 && input.Frame? && input.ipts - o.syncOpts as real >= 0.5
  }

  /** One call pulls the drift back into the band exactly when it is not a "duplication too large" skip. */
  lemma {:induction false} DriftStep(cfg: Config, o: Ost, input: Input)
    requires PlainClock(cfg) && input.Frame? && Drift(o, input) >= -2.1 && !SetsClock(cfg, o, input)
    ensures InBand(Drift(Step(cfg, o, input).o, input)) <==> !Skips(cfg, o, PlanFor(cfg, o, input))
  {
    var p := PlanFor(cfg, o, input);
    EmitFacts(cfg, Counted(cfg, o, p, input), p, 0, input);
    StepStamps(cfg, o, input);
    if !Skips(cfg, o, p) && p.nb > 0 {
      EmitFromFrameCompletes(cfg, Counted(cfg, o, p, input), p, 0, input);
    }
  }

  /** The call that sets the clock rounds twice, so it may leave the drift one half higher. */
  lemma {:induction false} FirstDrift(cfg: Config, o: Ost, input: Input)
    requires PlainClock(cfg) && SetsClock(cfg, o, input) && input.duration >= 0.0
    requires !Skips(cfg, o, PlanFor(cfg, o, input))
    ensures -1.5 <= Drift(Step(cfg, o, input).o, input) <= 1.0
  {
    var p := PlanFor(cfg, o, input);
    EmitFacts(cfg, Counted(cfg, o, p, input), p, 0, input);
    StepStamps(cfg, o, input);
    EmitFromFrameCompletes(cfg, Counted(cfg, o, p, input), p, 0, input);
  }

  /** It does: a first picture at 0.5 that lasts 2.5 leaves the drift at 1.0. */
  lemma {:induction false} FirstDriftLeavesBand(cfg: Config)
    requires PlainClock(cfg) && cfg.sync.VsCfr? && cfg.dtsErrorThreshold >= 1.0
    ensures var input := Frame(0, 0.5, 2.5);
      !Skips(cfg, START, PlanFor(cfg, START, input)) && Drift(Step(cfg, START, input).o, input) == 1.0
  {
    var input := Frame(0, 0.5, 2.5);
    assert Rint(0.5) == 0 && Rint(2.5) == 2;
    var p := PlanFor(cfg, START, input);
    assert p == Plan(2, 0, 0);
    var o1 := Counted(cfg, START, p, input);
    EmitFacts(cfg, o1, p, 0, input);
    EmitFromFrameCompletes(cfg, o1, p, 0, input);
  }

  ghost predicate NoSkip(cfg: Config, o: Ost, inputs: seq<Input>)
    decreases |inputs|
  {
    inputs != [] ==> !Skips(cfg, o, PlanFor(cfg, o, inputs[0])) && NoSkip(cfg, Step(cfg, o, inputs[0]).o, inputs[1..])
  }

  /**
   Over a whole run at a constant frame rate the drift after every call stays between -2.1
   and 0.5, up to 1.0 after the call with which vscfr sets its clock.
   */
  lemma {:induction false} CfrDriftBounded(cfg: Config, o: Ost, duration: real, inputs: seq<Input>, n: nat)
    requires PlainClock(cfg) && Steady(duration, inputs) && NoSkip(cfg, o, inputs) && n < |inputs|
    requires Drift(o, inputs[0]) >= -2.1
    ensures var drift := Drift(Run(cfg, o, inputs[..n + 1]).o, inputs[n]);
      if SetsClock(cfg, Run(cfg, o, inputs[..n]).o, inputs[n]) then -1.5 <= drift <= 1.0 else InBand(drift)
    decreases |inputs|
  {
    hide PlanFor, Skips, Step;
    var o' := Step(cfg, o, inputs[0]).o;
    if SetsClock(cfg, o, inputs[0]) {
      FirstDrift(cfg, o, inputs[0]);
    } else {
      DriftStep(cfg, o, inputs[0]);
    }
    assert inputs[..n + 1][1..] == inputs[1..][..n];
    if n == 0 {
      assert Run(cfg, o', []).o == o';
    } else {
      assert inputs[..n][1..] == inputs[1..][..n - 1];
      assert Steady(duration, inputs[1..]);
      CfrDriftBounded(cfg, o', duration, inputs[1..], n - 1);
    }
  }

  /**
   A late picture at a constant rate: the old one fills all slots more than 1.1 before its time,
   the new one all others.
   */
  lemma {:induction false} NewPicturePlacement(cfg: Config, o: Ost, input: Input, k: nat)
    requires (cfg.sync.Cfr? || cfg.sync.VsCfr?) && input.Frame? && o.lastFrame.Some? && !SetsClock(cfg, o, input)
    requires input.duration >= 0.0 && input.ipts - o.syncOpts as real > 1.1 && k < |Step(cfg, o, input).out|
    ensures var e := Step(cfg, o, input).out[k];
      && (input.ipts - e.pts as real > 1.1 ==> e.pic == o.lastFrame.value)
      && (input.ipts - e.pts as real < 1.1 ==> e.pic == input.pic)
  {
    var p := PlanFor(cfg, o, input);
    EmitFacts(cfg, Counted(cfg, o, p, input), p, 0, input);
  }

  /**
   At a variable rate a picture goes out once, unless it ended 0.6 or more before the next slot;
   its stamp is the slot or the one nearest to its time.
   */
  lemma {:induction false} VfrPlacement(cfg: Config, o: Ost, input: Input)
    requires cfg.sync.Vfr? && Unlimited(cfg) && input.Frame?
    ensures var r := Step(cfg, o, input);
      var ahead := input.ipts + input.duration - o.syncOpts as real;
      && |r.out| == (if ahead <= -0.6 then 0 else 1)
      && (|r.out| == 1 ==> r.out[0].pic == input.pic)
      && (-0.6 < ahead <= 0.6 ==> r.out[0].pts == o.syncOpts)
      && (ahead > 0.6 && input.ipts >= o.syncOpts as real ==>
            input.ipts - 0.5 <= r.out[0].pts as real <= input.ipts + 0.5)
      && (ahead > 0.6 && input.ipts < o.syncOpts as real ==> r.out[0].pts == o.syncOpts)
  {
    var p := PlanFor(cfg, o, input);
    var o1 := Counted(cfg, o, p, input);
    EmitFacts(cfg, o1, p, 0, input);
    EmitFromFrameCompletes(cfg, o1, p, 0, input);
  }

  /**
   -vsync vscfr: the gap before the very first picture is not filled.  All frames show the new
   picture, the first of them with the stamp nearest to its time, and there are no more of
   them than its duration asks for; none at all only for a limit, a skip, or a picture that
   ends more than 1.1 before it starts.
   */
  lemma {:induction false} FirstGapClosed(cfg: Config, o: Ost, input: Input)
    requires cfg.sync.VsCfr? && input.Frame? && o.frameNumber == 0
    requires input.ipts - o.syncOpts as real >= 0.5
    ensures var r := Step(cfg, o, input);
      && (forall k :: 0 <= k < |r.out| ==> r.out[k].pic == input.pic)
      && (r.out != [] ==> input.ipts - 0.5 <= r.out[0].pts as real <= input.ipts + 0.5)
      && (|r.out| <= 1 || |r.out| as real <= input.duration + 0.5)
      && (input.duration >= -1.1 && Unlimited(cfg) && !Skips(cfg, o, PlanFor(cfg, o, input)) ==> r.out != [])
  {
    var p := PlanFor(cfg, o, input);
    var o1 := Counted(cfg, o, p, input);
    EmitFacts(cfg, o1, p, 0, input);
    assert p.nb0 <= 0;
    var out := Emit(cfg, o1, p, 0, input).out;
    forall k | 0 <= k < |out| ensures out[k].pic == input.pic {
      assert Source(o1, p.nb0, 0 + k, input) == Some(out[k].pic);
    }
    if cfg.recordingEnd.None? {
      EmitFromFrameCompletes(cfg, o1, p, 0, input);
    }
  }

  /** -vsync passthrough and drop: every picture goes out once, with the stamp nearest to its own time. */
  lemma {:induction false} UnclockedPlacement(cfg: Config, o: Ost, input: Input)
    requires (cfg.sync.PassThrough? || cfg.sync.Drop?) && Unlimited(cfg) && input.Frame?
    ensures var out := Step(cfg, o, input).out;
      |out| == 1 && out[0].pic == input.pic && input.ipts - 0.5 <= out[0].pts as real <= input.ipts + 0.5
  {
    var p := PlanFor(cfg, o, input);
    var o1 := Counted(cfg, o, p, input);
    EmitFacts(cfg, o1, p, 0, input);
    EmitFromFrameCompletes(cfg, o1, p, 0, input);
  }

  /** A picture that is not late by more than 1.1 does not let the previous one out again. */
  lemma {:induction false} PunctualPictureAlone(cfg: Config, o: Ost, input: Input, k: nat)
    requires input.Frame? && input.ipts - o.syncOpts as real <= 1.1 && k < |Step(cfg, o, input).out|
    ensures Step(cfg, o, input).out[k].pic == input.pic
  {
    var p := PlanFor(cfg, o, input);
    var o1 := Counted(cfg, o, p, input);
    EmitFacts(cfg, o1, p, 0, input);
    assert Source(o1, p.nb0, 0 + k, input) == Some(Emit(cfg, o1, p, 0, input).out[k].pic);
  }

  /**
   At a constant rate a picture is dropped exactly when it ends more than 1.1 before the next
   slot, or, once frames are out, earlier than -frame_drop_threshold asks for.
   */
  lemma {:induction false} CfrDropsExactly(cfg: Config, o: Ost, input: Input)
    requires (cfg.sync.Cfr? || cfg.sync.VsCfr?) && Unlimited(cfg) && input.Frame? && !SetsClock(cfg, o, input)
    requires !Skips(cfg, o, PlanFor(cfg, o, input))
    ensures Step(cfg, o, input).out == [] <==>
      || Drift(o, input) < -1.1
      || (cfg.dropThreshold != 0.0 && o.frameNumber != 0 && Drift(o, input) < cfg.dropThreshold)
  {
    var p := PlanFor(cfg, o, input);
    var o1 := Counted(cfg, o, p, input);
    EmitFacts(cfg, o1, p, 0, input);
    EmitFromFrameCompletes(cfg, o1, p, 0, input);
  }

  lemma RintOfNearby(x: real, n: int)
    requires n as real - 0.5 < x < n as real + 0.5
    ensures Rint(x) == n
  {
  }

  lemma GapPlan(cfg: Config, o: Ost, input: Input, n: nat)
    requires PlainClock(cfg) && input.Frame? && !SetsClock(cfg, o, input)
    requires n as real - 0.5 < Drift(o, input) < n as real + 0.5 && (n > 2 || (n == 2 && !o.lastDropped))
    ensures var p := PlanFor(cfg, o, input);
      && p.nb == n && p.syncOpts == o.syncOpts
      && (Skips(cfg, o, p) <==> n as real > 30.0 * cfg.dtsErrorThreshold)
  {
    hide Rint;
    RintOfNearby(Drift(o, input), n);
  }

  /**
   "Duplication too large": a gap that takes n frames to fill is skipped, without any frame,
   exactly when n is more than 30 times -dts_error_threshold; then the clock and the picture
   kept stay, and one drop is counted for the picture.
   */
  lemma {:induction false} SkipsExactly(cfg: Config, o: Ost, input: Input, n: nat)
    requires PlainClock(cfg) && input.Frame? && !SetsClock(cfg, o, input)
    requires n as real - 0.5 < Drift(o, input) < n as real + 0.5 && (n > 2 || (n == 2 && !o.lastDropped))
    ensures var r := Step(cfg, o, input);
      if n as real > 30.0 * cfg.dtsErrorThreshold
      then r.out == [] && r.o.syncOpts == o.syncOpts && r.o.lastFrame == o.lastFrame && r.o.nbDrop > o.nbDrop
      else |r.out| == n
  {
    hide PlanFor, Skips, Decide;
    var p := PlanFor(cfg, o, input);
    var o1 := Counted(cfg, o, p, input);
    GapPlan(cfg, o, input, n);
    EmitFacts(cfg, o1, p, 0, input);
    EmitFromFrameCompletes(cfg, o1, p, 0, input);
  }

  // ------------------------------------------------------------------ history, flush and limit

  /** How many frames show the picture. */
  function Showing(out: seq<Emission>, pic: Picture): nat {
    if out == [] then 0 else B(out[0].pic == pic) + Showing(out[1..], pic)
  }

  lemma {:induction false} ShowingSplit(out: seq<Emission>, pic: Picture, n: nat)
    requires n <= |out| && forall k :: 0 <= k < |out| ==> (out[k].pic == pic <==> k < n)
    ensures Showing(out, pic) == n
  {
    if out != [] {
      var rest := out[1..];
      assert forall k :: 0 <= k < |rest| ==> rest[k] == out[k + 1];
      ShowingSplit(rest, pic, if n > 0 then n - 1 else 0);
    }
  }

  /** The history: how many frames of the last three calls repeated the picture of the call before. */
  lemma {:induction false} HistoryRecordsRepeats(cfg: Config, o: Ost, input: Input)
    requires Inv(cfg, o) && !Skips(cfg, o, PlanFor(cfg, o, input)) && Uncut(cfg, o, input)
    requires input.Frame? && o.lastFrame.Some? && o.lastFrame.value != input.pic
    ensures var r := Step(cfg, o, input);
      r.o.nb0 == (Showing(r.out, o.lastFrame.value), o.nb0.0, o.nb0.1)
  {
    DecideNonNegative(cfg, o, input);
    CleanStepCompletes(cfg, o, input);
    var p := PlanFor(cfg, o, input);
    var o1 := Counted(cfg, o, p, input);
    EmitFacts(cfg, o1, p, 0, input);
    var out := Step(cfg, o, input).out;
    forall k | 0 <= k < |out| ensures out[k].pic == o.lastFrame.value <==> k < p.nb0 {
      assert Source(o1, p.nb0, 0 + k, input) == Some(out[k].pic);
    }
    ShowingSplit(out, o.lastFrame.value, p.nb0);
  }

  /** The end flush repeats the last picture as often as the middle one of the last three calls did. */
  lemma {:induction false} FlushRepeatsMiddle(cfg: Config, o: Ost)
    requires Inv(cfg, o) && Unlimited(cfg) && o.lastFrame.Some? && !Skips(cfg, o, PlanFor(cfg, o, End))
    ensures var out := Step(cfg, o, End).out;
      var n, (a, b, c) := |out|, o.nb0;
      && (forall k :: 0 <= k < n ==> out[k].pic == o.lastFrame.value && out[k].pts == o.syncOpts + k)
      && ((n == a && (b <= n <= c || c <= n <= b)) || (n == b && (a <= n <= c || c <= n <= a))
          || (n == c && (a <= n <= b || b <= n <= a)))
  {
    CleanStepCompletes(cfg, o, End);
    var p := PlanFor(cfg, o, End);
    var o1 := Counted(cfg, o, p, End);
    EmitFacts(cfg, o1, p, 0, End);
    var out := Emit(cfg, o1, p, 0, End).out;
    forall k | 0 <= k < |out| ensures out[k].pic == o.lastFrame.value {
      assert Source(o1, p.nb0, 0 + k, End) == Some(out[k].pic);
    }
  }

  lemma {:induction false} EmitMore(cfg: Config, o: Ost, p: Plan, q: Plan, i: int, input: Input)
    requires 0 <= i && p.nb <= q.nb && p.nb0 == Min(q.nb0, p.nb)
    ensures Emit(cfg, o, p, i, input).out <= Emit(cfg, o, q, i, input).out
    ensures Emit(cfg, o, q, i, input).complete ==> Emit(cfg, o, p, i, input).complete
    decreases q.nb - i
  {
    if i < p.nb {
      var pic := Source(o, p.nb0, i, input);
      if pic.Some? && !PastEnd(cfg, o.syncOpts) {
        EmitMore(cfg, EmitOne(cfg, o, pic.value).0, p, q, i + 1, input);
      }
    }
  }

  lemma {:induction false} EmitWithoutLimit(cfg: Config, o: Ost, p: Plan, i: int, input: Input)
    ensures Emit(cfg.(maxFrames := None), o, p, i, input) == Emit(cfg, o, p, i, input)
    decreases p.nb - i
  {
    if i < p.nb {
      var pic := Source(o, p.nb0, i, input);
      if pic.Some? && !PastEnd(cfg, o.syncOpts) {
        EmitWithoutLimit(cfg, EmitOne(cfg, o, pic.value).0, p, i + 1, input);
      }
    }
  }

  /** What is emitted does not depend on the counters and the history. */
  lemma {:induction false} EmitIgnoresCounters(cfg: Config, a: Ost, b: Ost, p: Plan, i: int, input: Input)
    requires a.syncOpts == b.syncOpts && a.lastFrame == b.lastFrame && a.kfIndex == b.kfIndex
    ensures Emit(cfg, a, p, i, input).out == Emit(cfg, b, p, i, input).out
    ensures Emit(cfg, a, p, i, input).complete == Emit(cfg, b, p, i, input).complete
    decreases p.nb - i
  {
    if i < p.nb {
      var pic := Source(a, p.nb0, i, input);
      if pic.Some? && !PastEnd(cfg, a.syncOpts) {
        EmitIgnoresCounters(cfg, EmitOne(cfg, a, pic.value).0, EmitOne(cfg, b, pic.value).0, p, i + 1, input);
      }
    }
  }

  lemma LimitedPlan(cfg: Config, o: Ost, input: Input)
    requires Inv(cfg, o) && cfg.maxFrames.Some?
    ensures var p, q := PlanFor(cfg, o, input), PlanFor(cfg.(maxFrames := None), o, input);
      && p.syncOpts == q.syncOpts && p.nb == Min(q.nb, cfg.maxFrames.value - o.frameNumber)
      && p.nb0 == Min(q.nb0, p.nb) && 0 <= p.nb <= q.nb
  {
    hide Rint, Median;
    DecideNonNegative(cfg, o, input);
    assert Decide(cfg, o, input) == Decide(cfg.(maxFrames := None), o, input);
  }

  /** -frames only cuts: the frames under the limit are the first of those without it, as many as it leaves room for. */
  lemma {:induction false} LimitOnlyCuts(cfg: Config, o: Ost, input: Input)
    requires Inv(cfg, o) && cfg.maxFrames.Some? && Uncut(cfg.(maxFrames := None), o, input)
    requires !Skips(cfg.(maxFrames := None), o, PlanFor(cfg.(maxFrames := None), o, input))
    requires !Skips(cfg, o, PlanFor(cfg, o, input))
    ensures var out, all := Step(cfg, o, input).out, Step(cfg.(maxFrames := None), o, input).out;
      out <= all && |out| == Min(|all|, cfg.maxFrames.value - o.frameNumber)
  {
    hide PlanFor, Skips, Uncut, Emit;
    var free := cfg.(maxFrames := None);
    LimitedPlan(cfg, o, input);
    CleanStepCompletes(free, o, input);
    var p, q := PlanFor(cfg, o, input), PlanFor(free, o, input);
    var o1, o2 := Counted(cfg, o, p, input), Counted(free, o, q, input);
    EmitWithoutLimit(cfg, o2, q, 0, input);
    EmitMore(cfg, o2, p, q, 0, input);
    EmitIgnoresCounters(cfg, o1, o2, p, 0, input);
    EmitFacts(cfg, o1, p, 0, input);
    EmitFacts(cfg, o2, q, 0, input);
  }

  // ---------------------------------------------------------------------------- order of stamps

  /** In every method that keeps a clock, sync_opts never moves back before a frame is emitted. */
  lemma {:induction false} StampsNeverBack(cfg: Config, o: Ost, input: Input)
    requires cfg.sync.Cfr? || cfg.sync.VsCfr? || cfg.sync.Vfr?
    ensures PlanFor(cfg, o, input).syncOpts >= o.syncOpts
  {
  }

  /** Emitted timestamps strictly increase over any run, for any input timestamps and durations at all. */
  lemma {:induction false} StampsIncrease(cfg: Config, o: Ost, inputs: seq<Input>)
    requires cfg.sync.Cfr? || cfg.sync.VsCfr? || cfg.sync.Vfr?
    ensures var r := Run(cfg, o, inputs);
      && r.o.syncOpts >= o.syncOpts + |r.out|
      && (forall k :: 0 <= k < |r.out| ==> o.syncOpts <= r.out[k].pts < r.o.syncOpts)
      && (forall j, k :: 0 <= j < k < |r.out| ==> r.out[j].pts < r.out[k].pts)
    decreases |inputs|
  {
    hide Step, PlanFor;
    if inputs != [] {
      StepStamps(cfg, o, inputs[0]);
      StampsNeverBack(cfg, o, inputs[0]);
      var first := Step(cfg, o, inputs[0]);
      StampsIncrease(cfg, first.o, inputs[1..]);
      var rest := Run(cfg, first.o, inputs[1..]);
      var out := first.out + rest.out;
      assert forall k :: 0 <= k < |out| ==>
        out[k] == if k < |first.out| then first.out[k] else rest.out[k - |first.out|];
    }
  }

  // ---------------------------------------------------------------------- picture order

  /** Pictures arrive in the order of their names, after the one being kept. */
  ghost predicate InArrivalOrder(o: Ost, inputs: seq<Input>) {
    && (forall i, j :: 0 <= i < j < |inputs| && inputs[i].Frame? && inputs[j].Frame? ==> inputs[i].pic < inputs[j].pic)
    && (forall i :: 0 <= i < |inputs| && inputs[i].Frame? && o.lastFrame.Some? ==> o.lastFrame.value < inputs[i].pic)
  }

  /** Nothing older than `lo` is around any more. */
  ghost predicate NoneBelow(lo: nat, o: Ost, inputs: seq<Input>) {
    && (o.lastFrame.Some? ==> lo <= o.lastFrame.value)
    && (forall i :: 0 <= i < |inputs| && inputs[i].Frame? ==> lo <= inputs[i].pic)
  }

  ghost predicate SortedFrom(lo: nat, out: seq<Emission>) {
    && (forall k :: 0 <= k < |out| ==> lo <= out[k].pic)
    && (forall j, k :: 0 <= j < k < |out| ==> out[j].pic <= out[k].pic)
  }

  /** A clocked stream past its -t limit: nothing comes out any more. */
  predicate Shut(cfg: Config, o: Ost) { PastEnd(cfg, o.syncOpts) && !cfg.sync.PassThrough? && !cfg.sync.Drop? }

  lemma {:induction false} EmitPastEnd(cfg: Config, o: Ost, p: Plan, i: int, input: Input)
    ensures PastEnd(cfg, o.syncOpts) ==> Emit(cfg, o, p, i, input).out == []
    ensures input.Frame? && !Emit(cfg, o, p, i, input).complete ==>
      PastEnd(cfg, Emit(cfg, o, p, i, input).o.syncOpts)
    decreases p.nb - i
  {
    if i < p.nb {
      var pic := Source(o, p.nb0, i, input);
      if pic.Some? && !PastEnd(cfg, o.syncOpts) {
        EmitPastEnd(cfg, EmitOne(cfg, o, pic.value).0, p, i + 1, input);
      }
    }
  }

  lemma {:induction false} ShutStaysSilent(cfg: Config, o: Ost, inputs: seq<Input>)
    requires Shut(cfg, o)
    ensures Run(cfg, o, inputs).out == []
    decreases |inputs|
  {
    hide PlanFor;
    if inputs != [] {
      var input := inputs[0];
      var p := PlanFor(cfg, o, input);
      StepStamps(cfg, o, input);
      StampsNeverBack(cfg, o, input);
      EmitPastEnd(cfg, Counted(cfg, o, p, input), p, 0, input);
      ShutStaysSilent(cfg, Step(cfg, o, input).o, inputs[1..]);
    }
  }

  /** Only a constant rate sends several frames at once. */
  lemma {:induction false} SeveralFramesAreClocked(cfg: Config, o: Ost, input: Input)
    requires input.Frame? && PlanFor(cfg, o, input).nb > 1
    ensures cfg.sync.Cfr? || cfg.sync.VsCfr?
  {
  }

  /** One call keeps the order, and afterwards nothing older than `lo'` can come out. */
  lemma {:induction false} StepInOrder(cfg: Config, lo: nat, o: Ost, inputs: seq<Input>) returns (lo': nat)
    requires inputs != [] && InArrivalOrder(o, inputs) && NoneBelow(lo, o, inputs)
    ensures var r := Step(cfg, o, inputs[0]);
      && lo <= lo' && SortedFrom(lo, r.out) && (forall k :: 0 <= k < |r.out| ==> r.out[k].pic <= lo')
      && InArrivalOrder(r.o, inputs[1..]) && (Shut(cfg, r.o) || NoneBelow(lo', r.o, inputs[1..]))
  {
    hide PlanFor, Skips, Emit;
    var input := inputs[0];
    var p := PlanFor(cfg, o, input);
    var o1 := Counted(cfg, o, p, input);
    EmitFacts(cfg, o1, p, 0, input);
    var r := Step(cfg, o, input);
    if Skips(cfg, o, p) || r.out == [] {
      lo' := lo;
    } else if input.Frame? {
      lo' := input.pic;
      EmitPastEnd(cfg, o1, p, 0, input);
      if !r.complete {
        SeveralFramesAreClocked(cfg, o, input);
      }
    } else {
      assert Source(o1, p.nb0, 0 + 0, input) == Some(r.out[0].pic);
      lo' := o.lastFrame.value;
    }
  }

  lemma {:induction false} SortedConcat(lo: nat, lo': nat, a: seq<Emission>, b: seq<Emission>)
    requires SortedFrom(lo, a) && SortedFrom(lo', b) && lo <= lo' && forall k :: 0 <= k < |a| ==> a[k].pic <= lo'
    ensures SortedFrom(lo, a + b)
  {
    var out := a + b;
    assert forall k :: 0 <= k < |out| ==> out[k] == if k < |a| then a[k] else b[k - |a|];
  }

  /** Once a newer picture has been emitted no older one ever is, in every sync method and under every limit. */
  lemma {:induction false} PicturesInOrder(cfg: Config, lo: nat, o: Ost, inputs: seq<Input>)
    requires InArrivalOrder(o, inputs) && (Shut(cfg, o) || NoneBelow(lo, o, inputs))
    ensures SortedFrom(lo, Run(cfg, o, inputs).out)
    decreases |inputs|
  {
    hide Step, NoneBelow, InArrivalOrder;
    if Shut(cfg, o) {
      ShutStaysSilent(cfg, o, inputs);
    } else if inputs != [] {
      var lo' := StepInOrder(cfg, lo, o, inputs);
      var first := Step(cfg, o, inputs[0]);
      PicturesInOrder(cfg, lo', first.o, inputs[1..]);
      SortedConcat(lo, lo', first.out, Run(cfg, first.o, inputs[1..]).out);
    }
  }

  // ------------------------------------------------------- what the counters mean, picture by picture

  /** The pictures that have been emitted at least once. */
  function Shown(out: seq<Emission>): set<Picture> { set e | e in out :: e.pic }

  lemma {:induction false} ShownConcat(a: seq<Emission>, b: seq<Emission>)
    ensures Shown(a + b) == Shown(a) + Shown(b)
  {
    forall x ensures x in Shown(a + b) <==> x in Shown(a) || x in Shown(b) {
      if x in Shown(a) {
        var e :| e in a && e.pic == x;
        assert e in a + b;
      }
      if x in Shown(b) {
        var e :| e in b && e.pic == x;
        assert e in a + b;
      }
    }
  }

  /** The counters tell the truth: `shown` pictures made it out, in `emitted` frames, of `received`. */
  ghost predicate Truthful(o: Ost, received: int, emitted: int, shown: set<Picture>) {
    && |shown| == received - o.nbDrop - B(o.lastDropped)
    && o.nbDup == emitted - |shown|
    && (o.lastDropped ==> o.lastFrame.Some? && o.lastFrame.value !in shown)
    && (o.lastFrame.Some? && !o.lastDropped ==> o.lastFrame.value in shown)
  }

  lemma {:induction false} StartIsTruthful()
    ensures Truthful(START, 0, 0, {})
  {
  }

  /** Before the first picture there is nothing to repeat, so all copies decided on show the new one. */
  predicate RepeatsNothing(cfg: Config, o: Ost, input: Input) {
    var p := PlanFor(cfg, o, input);
    input.Frame? && o.lastFrame.None? && p.nb > 0 && p.nb == p.nb0
  }

  ghost predicate NewPicture(shown: set<Picture>, o: Ost, input: Input) {
    input.Frame? ==> input.pic !in shown && (o.lastFrame.Some? ==> o.lastFrame.value != input.pic)
  }

  /** The pictures one complete call shows. */
  lemma {:induction false} StepShows(cfg: Config, o: Ost, input: Input)
    requires Inv(cfg, o) && !Skips(cfg, o, PlanFor(cfg, o, input)) && Uncut(cfg, o, input)
    ensures var p := PlanFor(cfg, o, input);
      Shown(Step(cfg, o, input).out) ==
        (if p.nb0 > 0 && o.lastFrame.Some? then {o.lastFrame.value} else {}) +
        (if input.Frame? && (p.nb > p.nb0 || (p.nb > 0 && o.lastFrame.None?)) then {input.pic} else {})
  {
    DecideNonNegative(cfg, o, input);
    CleanStepCompletes(cfg, o, input);
    var p := PlanFor(cfg, o, input);
    EmitFacts(cfg, Counted(cfg, o, p, input), p, 0, input);
    var out := Step(cfg, o, input).out;
    assert |out| == p.nb;
    if p.nb > 0 {
      assert Source(o, p.nb0, 0, input) == Some(out[0].pic) && out[0] in out;
      assert Source(o, p.nb0, p.nb - 1, input) == Some(out[p.nb - 1].pic) && out[p.nb - 1] in out;
    }
  }

  lemma {:induction false} AddOne(shown: set<Picture>, x: bool, pic: Picture)
    ensures |shown + (if x then {pic} else {})| == |shown| + B(x && pic !in shown)
  {
    if x && pic in shown {
      assert shown + {pic} == shown;
    } else if !x {
      assert shown + {} == shown;
    }
  }

  lemma UnionAssociates(s: set<Picture>, a: set<Picture>, b: set<Picture>)
    ensures s + (a + b) == (s + a) + b
  {
  }

  lemma {:induction false} UnionSize(shown: set<Picture>, x: bool, last: Picture, y: bool, next: Picture)
    requires y ==> next !in shown && (x ==> next != last)
    ensures |shown + ((if x then {last} else {}) + (if y then {next} else {}))|
         == |shown| + B(x && last !in shown) + B(y)
  {
    var a: set<Picture> := if x then {last} else {};
    var b: set<Picture> := if y then {next} else {};
    AddOne(shown, x, last);
    AddOne(shown + a, y, next);
    UnionAssociates(shown, a, b);
    assert y ==> next !in shown + a;
  }

  /** How many pictures one complete call shows for the first time. */
  lemma {:induction false} NewlyShown(cfg: Config, o: Ost, shown: set<Picture>, input: Input)
    requires Inv(cfg, o) && !Skips(cfg, o, PlanFor(cfg, o, input)) && Uncut(cfg, o, input)
    requires NewPicture(shown, o, input)
    requires o.lastFrame.Some? ==> (o.lastDropped <==> o.lastFrame.value !in shown)
    requires o.lastDropped ==> o.lastFrame.Some?
    ensures var p := PlanFor(cfg, o, input);
      |shown + Shown(Step(cfg, o, input).out)| == |shown| + B(p.nb0 > 0 && o.lastDropped)
        + B(input.Frame? && (p.nb > p.nb0 || (p.nb > 0 && o.lastFrame.None?)))
  {
    StepShows(cfg, o, input);
    var p := PlanFor(cfg, o, input);
    UnionSize(shown, p.nb0 > 0 && o.lastFrame.Some?, if o.lastFrame.Some? then o.lastFrame.value else 0,
              input.Frame? && (p.nb > p.nb0 || (p.nb > 0 && o.lastFrame.None?)), if input.Frame? then input.pic else 0);
  }

  /** What one complete call does to the counters. */
  lemma {:induction false} CleanStepCounts(cfg: Config, o: Ost, input: Input)
    requires Inv(cfg, o) && !Skips(cfg, o, PlanFor(cfg, o, input)) && Uncut(cfg, o, input)
    ensures var p, r := PlanFor(cfg, o, input), Step(cfg, o, input);
      && 0 <= p.nb0 <= p.nb == |r.out| && (input.End? ==> p.nb0 == p.nb)
      && r.o.nbDrop == o.nbDrop + B(p.nb0 == 0 && o.lastDropped)
      && r.o.nbDup == o.nbDup + p.nb - B(p.nb0 > 0 && o.lastDropped) - B(p.nb > p.nb0)
      && r.o.lastDropped == (p.nb == p.nb0 && input.Frame?)
      && r.o.lastFrame == if input.Frame? then Some(input.pic) else None
  {
    DecideNonNegative(cfg, o, input);
    CleanStepCompletes(cfg, o, input);
    var p := PlanFor(cfg, o, input);
    EmitFacts(cfg, Counted(cfg, o, p, input), p, 0, input);
  }

  lemma {:induction false} StepTruthful(cfg: Config, o: Ost, received: int, emitted: int, shown: set<Picture>,
                                        input: Input)
    requires Inv(cfg, o) && !Skips(cfg, o, PlanFor(cfg, o, input)) && Uncut(cfg, o, input)
    requires Truthful(o, received, emitted, shown) && NewPicture(shown, o, input)
    ensures var r := Step(cfg, o, input);
      Truthful(r.o, received + B(input.Frame?), emitted + |r.out|, shown + Shown(r.out))
      <==> !RepeatsNothing(cfg, o, input)
  {
    CleanStepCounts(cfg, o, input);
    NewlyShown(cfg, o, shown, input);
    StepShows(cfg, o, input);
  }

  lemma {:induction false} EmitLast(cfg: Config, o: Ost, p: Plan, i: int, input: Input, pic: Picture)
    requires p.nb == i + 1 && Source(o, p.nb0, i, input) == Some(pic) && !PastEnd(cfg, o.syncOpts)
    ensures var (o', e) := EmitOne(cfg, o, pic); Emit(cfg, o, p, i, input) == Emitted(o', [e], true)
  {
  }

  lemma {:induction false} LateFirstPlan(cfg: Config)
    requires PlainCfr(cfg) && cfg.dtsErrorThreshold >= 1.0
    ensures PlanFor(cfg, START, Frame(0, 1.3, 0.0)) == Plan(1, 1, 0) && !Skips(cfg, START, Plan(1, 1, 0))
    ensures Counted(cfg, START, Plan(1, 1, 0), Frame(0, 1.3, 0.0)) == Ost(0, 0, (1, 0, 0), true, None, 0, 1, 0)
  {
    assert Rint(1.3) == 1 && Rint(0.7) == 1;
  }

  /** The exception does happen: a first picture at 1.3 is emitted once, yet counted as a duplicate and held back. */
  lemma {:induction false} FirstPictureMiscounted(cfg: Config)
    requires PlainCfr(cfg) && cfg.dtsErrorThreshold >= 1.0
    ensures var r := Step(cfg, START, Frame(0, 1.3, 0.0));
      && RepeatsNothing(cfg, START, Frame(0, 1.3, 0.0))
      && |r.out| == 1 && r.out[0].pic == 0 && r.o.nbDup == 1 && r.o.lastDropped
      && !Truthful(r.o, 1, 1, Shown(r.out))
  {
    hide PlanFor, Counted, Skips;
    var input := Frame(0, 1.3, 0.0);
    LateFirstPlan(cfg);
    EmitLast(cfg, Ost(0, 0, (1, 0, 0), true, None, 0, 1, 0), Plan(1, 1, 0), 0, input, 0);
    var out := Step(cfg, START, input).out;
    assert out[0] in out;
  }

  ghost predicate Ordinary(cfg: Config, o: Ost, inputs: seq<Input>)
    decreases |inputs|
  {
    inputs != [] ==> !RepeatsNothing(cfg, o, inputs[0]) && Ordinary(cfg, Step(cfg, o, inputs[0]).o, inputs[1..])
  }

  ghost predicate AllNew(shown: set<Picture>, o: Ost, inputs: seq<Input>) {
    && (forall i :: 0 <= i < |inputs| ==> NewPicture(shown, o, inputs[i]))
    && (forall i, j :: 0 <= i < j < |inputs| && inputs[i].Frame? && inputs[j].Frame? ==> inputs[i].pic != inputs[j].pic)
  }

  lemma {:induction false} AllNewAfter(cfg: Config, o: Ost, shown: set<Picture>, inputs: seq<Input>)
    requires Inv(cfg, o) && inputs != [] && AllNew(shown, o, inputs)
    requires !Skips(cfg, o, PlanFor(cfg, o, inputs[0])) && Uncut(cfg, o, inputs[0])
    ensures AllNew(shown + Shown(Step(cfg, o, inputs[0]).out), Step(cfg, o, inputs[0]).o, inputs[1..])
  {
    StepShows(cfg, o, inputs[0]);
    CleanStepCompletes(cfg, o, inputs[0]);
    var rest := inputs[1..];
    forall i | 0 <= i < |rest|
      ensures NewPicture(shown + Shown(Step(cfg, o, inputs[0]).out), Step(cfg, o, inputs[0]).o, rest[i])
    {
      assert rest[i] == inputs[i + 1] && NewPicture(shown, o, inputs[i + 1]);
    }
  }

  lemma {:induction false} RunTruthful(cfg: Config, o: Ost, received: int, emitted: int, shown: set<Picture>,
                                       inputs: seq<Input>)
    requires Inv(cfg, o) && CleanRun(cfg, o, inputs) && Ordinary(cfg, o, inputs)
    requires Truthful(o, received, emitted, shown) && AllNew(shown, o, inputs)
    ensures var r := Run(cfg, o, inputs);
      Truthful(r.o, received + Received(inputs), emitted + |r.out|, shown + Shown(r.out))
    decreases |inputs|
  {
    if inputs != [] {
      assert NewPicture(shown, o, inputs[0]);
      StepTruthful(cfg, o, received, emitted, shown, inputs[0]);
      StepKeepsInv(cfg, o, inputs[0]);
      AllNewAfter(cfg, o, shown, inputs);
      var first := Step(cfg, o, inputs[0]);
      var rest := Run(cfg, first.o, inputs[1..]);
      RunTruthful(cfg, first.o, received + B(inputs[0].Frame?), emitted + |first.out|, shown + Shown(first.out),
                  inputs[1..]);
      ShownConcat(first.out, rest.out);
      assert shown + Shown(first.out + rest.out) == (shown + Shown(first.out)) + Shown(rest.out);
    } else {
      assert shown + Shown([]) == shown;
    }
  }

  /**
   The drop counter is the number of received pictures that never got out (the one held back
   aside), and the duplication counter the number of frames that show a picture again.
   */
  lemma {:induction false} CountersTellTheTruth(cfg: Config, o: Ost, inputs: seq<Input>)
    requires Inv(cfg, o) && Truthful(o, 0, 0, {}) && AllNew({}, o, inputs)
    requires CleanRun(cfg, o, inputs) && Ordinary(cfg, o, inputs)
    ensures var r := Run(cfg, o, inputs);
      && r.o.nbDrop == Received(inputs) - |Shown(r.out)| - B(r.o.lastDropped)
      && r.o.nbDup == |r.out| - |Shown(r.out)|
  {
    RunTruthful(cfg, o, 0, 0, {}, inputs);
    var out := Run(cfg, o, inputs).out;
    assert {} + Shown(out) == Shown(out);
  }

  /** A stream from its creation on: conservation always, and true counters while no start case arises. */
  lemma {:induction false} FreshStreamAccounts(cfg: Config, o: Ost, inputs: seq<Input>)
    requires o == START && CleanRun(cfg, o, inputs) && AllNew({}, o, inputs)
    ensures var r := Run(cfg, o, inputs);
      |r.out| == Received(inputs) - r.o.nbDrop + r.o.nbDup - B(r.o.lastDropped)
    ensures var r := Run(cfg, o, inputs);
      Ordinary(cfg, o, inputs) ==>
        && r.o.nbDrop == Received(inputs) - |Shown(r.out)| - B(r.o.lastDropped)
        && r.o.nbDup == |r.out| - |Shown(r.out)|
  {
    hide *;
    StartOwesNothing(cfg);
    Conservation(cfg, o, inputs);
    if Ordinary(cfg, o, inputs) {
      StartIsTruthful();
      CountersTellTheTruth(cfg, o, inputs);
    }
  }

  // -------------------------------------------------------------------- forced key frames

  /** How many of the first n frames were forced to be key frames. */
  function ForcedCount(out: seq<Emission>, n: nat): nat
    requires n <= |out|
  {
    if n == 0 then 0 else ForcedCount(out, n - 1) + B(out[n - 1].forced)
  }

  /** Frame n is forced exactly when it reaches the first request no earlier frame has served. */
  ghost predicate ServedAt(out: seq<Emission>, kf: seq<int>, start: nat, n: nat)
    requires n < |out|
  {
    var j := start + ForcedCount(out, n);
    out[n].forced <==> j < |kf| && out[n].pts >= kf[j]
  }

  ghost predicate ServedInTurn(out: seq<Emission>, kf: seq<int>, start: nat) {
    forall n: nat :: n < |out| ==> ServedAt(out, kf, start, n)
  }

  lemma {:induction false} ForcedCountConcat(a: seq<Emission>, b: seq<Emission>, n: nat)
    requires n <= |a + b|
    ensures ForcedCount(a + b, n)
         == if n <= |a| then ForcedCount(a, n) else ForcedCount(a, |a|) + ForcedCount(b, n - |a|)
  {
    if n > 0 {
      ForcedCountConcat(a, b, n - 1);
    }
  }

  lemma {:induction false} ServedConcat(a: seq<Emission>, b: seq<Emission>, kf: seq<int>, start: nat)
    requires ServedInTurn(a, kf, start) && ServedInTurn(b, kf, start + ForcedCount(a, |a|))
    ensures ServedInTurn(a + b, kf, start)
  {
    var out := a + b;
    forall n: nat | n < |out| ensures ServedAt(out, kf, start, n) {
      ForcedCountConcat(a, b, n);
      if n < |a| {
        assert ServedAt(a, kf, start, n);
      } else {
        assert ServedAt(b, kf, start + ForcedCount(a, |a|), n - |a|);
      }
    }
  }

  lemma {:induction false} EmitOneServes(cfg: Config, o: Ost, pic: Picture)
    ensures var (o', e) := EmitOne(cfg, o, pic);
      && ServedInTurn([e], cfg.forcedKf, o.kfIndex)
      && ForcedCount([e], |[e]|) == B(e.forced) && o'.kfIndex == o.kfIndex + B(e.forced)
  {
    var e := EmitOne(cfg, o, pic).1;
    assert ForcedCount([e], 1) == ForcedCount([e], 0) + B(e.forced);
  }

  lemma {:induction false} EmitServes(cfg: Config, o: Ost, p: Plan, i: int, input: Input)
    ensures var r := Emit(cfg, o, p, i, input);
      ServedInTurn(r.out, cfg.forcedKf, o.kfIndex) && r.o.kfIndex == o.kfIndex + ForcedCount(r.out, |r.out|)
    decreases p.nb - i
  {
    if i < p.nb {
      var pic := Source(o, p.nb0, i, input);
      if pic.Some? && !PastEnd(cfg, o.syncOpts) {
        hide ServedInTurn, ForcedCount, EmitOne;
        var (o', e) := EmitOne(cfg, o, pic.value);
        EmitOneServes(cfg, o, pic.value);
        EmitServes(cfg, o', p, i + 1, input);
        var rest := Emit(cfg, o', p, i + 1, input);
        ServedConcat([e], rest.out, cfg.forcedKf, o.kfIndex);
        ForcedCountConcat([e], rest.out, |[e] + rest.out|);
      }
    }
  }

  lemma {:induction false} StepServes(cfg: Config, o: Ost, input: Input)
    ensures var r := Step(cfg, o, input);
      ServedInTurn(r.out, cfg.forcedKf, o.kfIndex) && r.o.kfIndex == o.kfIndex + ForcedCount(r.out, |r.out|)
  {
    var p := PlanFor(cfg, o, input);
    EmitServes(cfg, Counted(cfg, o, p, input), p, 0, input);
  }

  lemma {:induction false} RunServes(cfg: Config, o: Ost, inputs: seq<Input>)
    ensures var r := Run(cfg, o, inputs);
      ServedInTurn(r.out, cfg.forcedKf, o.kfIndex) && r.o.kfIndex == o.kfIndex + ForcedCount(r.out, |r.out|)
    decreases |inputs|
  {
    hide Step;
    if inputs != [] {
      StepServes(cfg, o, inputs[0]);
      var first := Step(cfg, o, inputs[0]);
      var rest := Run(cfg, first.o, inputs[1..]).out;
      RunServes(cfg, first.o, inputs[1..]);
      ServedConcat(first.out, rest, cfg.forcedKf, o.kfIndex);
      ForcedCountConcat(first.out, rest, |first.out + rest|);
    }
  }

  lemma {:induction false} ForcedCountGrows(out: seq<Emission>, m: nat, n: nat)
    requires m <= n <= |out|
    ensures ForcedCount(out, m) <= ForcedCount(out, n)
    ensures m < n && out[m].forced ==> ForcedCount(out, m) < ForcedCount(out, n)
    decreases n - m
  {
    if m < n {
      ForcedCountGrows(out, m, n - 1);
    }
  }

  /**
   Over any run, the frame that serves request j is the first one, after the frame that
   served request j - 1, whose timestamp reaches it; two frames never serve one request.
   */
  lemma {:induction false} FirstFrameServes(cfg: Config, o: Ost, inputs: seq<Input>, n: nat, m: nat)
    requires o.kfIndex == 0 && n < |Run(cfg, o, inputs).out| && Run(cfg, o, inputs).out[n].forced && m < n
    ensures var out, kf := Run(cfg, o, inputs).out, cfg.forcedKf;
      var j := ForcedCount(out, n);
      && j < |kf| && out[n].pts >= kf[j]
      && (out[m].forced ==> ForcedCount(out, m) < j)
      && (ForcedCount(out, m) == j ==> !out[m].forced && out[m].pts < kf[j])
  {
    RunServes(cfg, o, inputs);
    var out := Run(cfg, o, inputs).out;
    ForcedCountGrows(out, m, n);
    assert ServedAt(out, cfg.forcedKf, 0, m) && ServedAt(out, cfg.forcedKf, 0, n);
  }

  // ---------------------------------------------------------------------- the loop itself

  /** The fields of the output stream that do_video_out reads and writes. */
  class OutputStream {
    const cfg: Config
    var syncOpts: int
    var frameNumber: int
    var lastNb0Frames: (int, int, int)
    var lastDroped: bool
    var lastFrame: Option<Picture>
    var nbFramesDrop: int
    var nbFramesDup: int
    var forcedKfIndex: nat
    var encoded: seq<Emission>

    function View(): Ost
      reads this
    {
      Ost(syncOpts, frameNumber, lastNb0Frames, lastDroped, lastFrame, nbFramesDrop, nbFramesDup, forcedKfIndex)
    }

    constructor (cfg: Config)
      ensures this.cfg == cfg && View() == START && encoded == []
    {
      this.cfg := cfg;
      syncOpts, frameNumber, lastNb0Frames, lastDroped, lastFrame := 0, 0, (0, 0, 0), false, None;
      nbFramesDrop, nbFramesDup, forcedKfIndex, encoded := 0, 0, 0, [];
    }

    /** The branch of the constant rate, into which the one of vscfr falls through. */
    method CfrFrames(delta: real, delta0: real) returns (nb: int, nb0: int)
      ensures Plan(nb, nb0, syncOpts) == CfrPlan(cfg, frameNumber != 0, delta, delta0, syncOpts)
    {
      nb0, nb := 0, 1;
      if cfg.dropThreshold != 0.0 && delta < cfg.dropThreshold && frameNumber != 0 {
        nb := 0;
      } else if delta < -1.1 {
        nb := 0;
      } else if delta > 1.1 {
        nb := Rint(delta);
        if delta0 > 1.1 {
          nb0 := Rint(delta0 - 0.6);
        }
      }
    }

    /** From the drift of the clock to the number of frames; the clock itself may be set. */
    method DecideFrames(input: Input) returns (nb: int, nb0: int)
      modifies `syncOpts
      ensures Plan(nb, nb0, syncOpts) == PlanFor(cfg, old(View()), input)
    {
      hide Rint, Median, CfrPlan;
      match input {
        case End =>
          nb0 := Median(lastNb0Frames.0, lastNb0Frames.1, lastNb0Frames.2);
          nb := nb0;
        case Frame(_, ipts, dur) =>
          var syncIpts, duration := ipts, dur;
          var delta0 := syncIpts - syncOpts as real;
          var delta := delta0 + duration;
          nb0, nb := 0, 1;
          if delta0 < 0.0 && delta > 0.0 && !cfg.sync.PassThrough? && !cfg.sync.Drop? {
            var cor := if -delta0 < duration then -delta0 else duration;
            syncIpts, duration, delta0 := syncIpts + cor, duration - cor, delta0 + cor;
          }
          if cfg.sync.VsCfr? && frameNumber == 0 && delta - duration >= 0.5 {
            delta, delta0 := duration, 0.0;
            syncOpts := Rint(syncIpts);
          }
          if cfg.sync.VsCfr? || cfg.sync.Cfr? {
            nb, nb0 := CfrFrames(delta, delta0);
          } else if cfg.sync.Vfr? {
            if delta <= -0.6 {
              nb := 0;
            } else if delta > 0.6 {
              syncOpts := Rint(syncIpts);
            }
          } else {
            syncOpts := Rint(syncIpts);
          }
      }
      if cfg.maxFrames.Some? {
        nb := Min(nb, cfg.maxFrames.value - frameNumber);
      }
      nb0 := Min(nb0, nb);
    }

    /** The history of nb0, the drop and duplication counters, the early return. */
    method Count(p: Plan, input: Input) returns (skipped: bool)
      modifies this
      ensures View() == Counted(cfg, old(View()), p, input) && encoded == old(encoded)
      ensures skipped == Skips(cfg, old(View()), p)
    {
      var nb, nb0 := p.nb, p.nb0;
      syncOpts := p.syncOpts;
      lastNb0Frames := (nb0, lastNb0Frames.0, lastNb0Frames.1);
      if nb0 == 0 && lastDroped {
        nbFramesDrop := nbFramesDrop + 1;
      }
      if nb > B(nb0 != 0 && lastDroped) + B(nb > nb0) {
        if nb as real > cfg.dtsErrorThreshold * 30.0 {
          nbFramesDrop := nbFramesDrop + 1;
          return true;
        }
        nbFramesDup := nbFramesDup + nb - B(nb0 != 0 && lastDroped) - B(nb > nb0);
      }
      lastDroped := nb == nb0 && input.Frame?;
      return false;
    }

    /** One copy: the picture, its stamp, the forced key frame; false on an early return. */
    method EmitFrame(p: Plan, i: nat, input: Input) returns (ok: bool)
      modifies `forcedKfIndex, `encoded, `syncOpts, `frameNumber
      ensures var pic := Source(old(View()), p.nb0, i, input);
        if ok then
          && pic.Some? && !PastEnd(cfg, old(syncOpts))
          && View() == EmitOne(cfg, old(View()), pic.value).0
          && encoded == old(encoded) + [EmitOne(cfg, old(View()), pic.value).1]
        else
          && (pic.None? || PastEnd(cfg, old(syncOpts))) && View() == old(View()) && encoded == old(encoded)
    {
      var pic := Source(View(), p.nb0, i, input);
      if pic.None? || PastEnd(cfg, syncOpts) {
        return false;
      }
      var forced := false;
      if forcedKfIndex < |cfg.forcedKf| && syncOpts >= cfg.forcedKf[forcedKfIndex] {
        forcedKfIndex := forcedKfIndex + 1;
        forced := true;
      }
      encoded := encoded + [Emission(pic.value, syncOpts, forced)];
      syncOpts := syncOpts + 1;
      frameNumber := frameNumber + 1;
      return true;
    }

    /** The loop over the copies. */
    method EmitFrames(p: Plan, input: Input) returns (complete: bool)
      modifies this
      ensures var r := Emit(cfg, old(View()), p, 0, input);
        View() == r.o && encoded == old(encoded) + r.out && complete == r.complete
    {
      ghost var all := Emit(cfg, View(), p, 0, input);
      var i := 0;
      while i < p.nb
        invariant 0 <= i
        invariant var rest := Emit(cfg, View(), p, i, input);
          rest.o == all.o && rest.complete == all.complete && encoded + rest.out == old(encoded) + all.out
      {
        ghost var here, sofar := View(), encoded;
        var ok := EmitFrame(p, i, input);
        if !ok {
          return false;
        }
        assert encoded + Emit(cfg, View(), p, i + 1, input).out == sofar + Emit(cfg, here, p, i, input).out;
        i := i + 1;
      }
      return true;
    }

    method DoVideoOut(input: Input)
      modifies this
      ensures View() == Step(cfg, old(View()), input).o
      ensures encoded == old(encoded) + Step(cfg, old(View()), input).out
    {
      hide PlanFor, Counted, Skips, Emit;
      var nb, nb0 := DecideFrames(input);
      CountedSetsStamp(cfg, old(View()), Plan(nb, nb0, syncOpts), input, syncOpts);
      var p := Plan(nb, nb0, syncOpts);
      var skipped := Count(p, input);
      if skipped {
        return;
      }
      var complete := EmitFrames(p, input);
      if complete {
        lastFrame := if input.Frame? then Some(input.pic) else None;
      }
    }
  }
}
