/**
 The timestamp repair in front of the muxer (ffmpeg's write_frame): a packet whose dts lies
 after its pts gets the median of the two and the next expected dts, and a packet that would
 step back is moved up to the smallest dts the muxer accepts.
 */
module MuxTimestamps {
  import opened Common

  /** AV_NOPTS_VALUE, the most negative 64-bit integer. */
  const NOPTS: int := -0x8000_0000_0000_0000

  type Stamp = x: int | x >= NOPTS witness 0

  datatype Packet = Packet(pts: Stamp, dts: Stamp, size: nat)

  datatype Kind = Audio | Video | Other

  datatype Config = Config(
    kind: Kind,
    encodedVideo: bool,   // video with an encoder: frames were already counted by do_video_out
    dropStamps: bool,     // -vsync drop, or a negative -async
    timestamps: bool,     // not AVFMT_NOTIMESTAMPS
    strict: bool,         // not AVFMT_TS_NONSTRICT
    maxFrames: nat
  )

  datatype State = State(lastMuxDts: Stamp, frameNumber: nat)

  const START := State(NOPTS, 0)

  function Min(a: int, b: int): int { if a < b then a else b }
  function Max(a: int, b: int): int { if a > b then a else b }
  function Min3(a: int, b: int, c: int): int { Min(Min(a, b), c) }
  function Max3(a: int, b: int, c: int): int { Max(Max(a, b), c) }
  function B(b: bool): int { if b then 1 else 0 }

  /** The middle one of three, as write_frame computes it. */
  function Guess(pts: int, dts: int, next: int): int {
    pts + dts + next - Min3(pts, dts, next) - Max3(pts, dts, next)
  }

  /** Both stamps defined and the wrong way round. */
  predicate Reversed(p: Packet) { p.dts != NOPTS && p.pts != NOPTS && p.dts > p.pts }

  function Untangle(p: Packet, last: Stamp): Packet {
    if Reversed(p) then
      var g := Guess(p.pts, p.dts, last + 1);
      p.(pts := g, dts := g)
    else p
  }

  /** The smallest dts the muxer takes after `last`. */
  function Lowest(cfg: Config, last: Stamp): Stamp { last + B(cfg.strict) }

  predicate StepsBack(cfg: Config, p: Packet, last: Stamp) {
    (cfg.kind.Audio? || cfg.kind.Video?) && p.dts != NOPTS && last != NOPTS && p.dts < Lowest(cfg, last)
  }

  function Clamp(cfg: Config, p: Packet, last: Stamp): Packet {
    if StepsBack(cfg, p, last) then
      var max := Lowest(cfg, last);
      p.(pts := if p.pts >= p.dts then Max(p.pts, max) else p.pts, dts := max)
    else p
  }

  function Repair(cfg: Config, p: Packet, last: Stamp): Packet {
    var p0 := if cfg.dropStamps && !cfg.kind.Other? then p.(pts := NOPTS, dts := NOPTS) else p;
    if cfg.timestamps then Clamp(cfg, Untangle(p0, last), last) else p0
  }

  /** Streams whose frames are counted here and not by do_video_out. */
  predicate CountedHere(cfg: Config) { !(cfg.kind.Video? && cfg.encodedVideo) }

  predicate Refused(cfg: Config, s: State) { CountedHere(cfg) && s.frameNumber >= cfg.maxFrames }

  /** One call of write_frame: the new state and the packet handed to the muxer, if any. */
  function Write(cfg: Config, s: State, p: Packet): (State, Option<Packet>) {
    if Refused(cfg, s) then (s, None)
    else
      var q := Repair(cfg, p, s.lastMuxDts);
      (State(q.dts, s.frameNumber + B(CountedHere(cfg))), Some(q))
  }

  function Run(cfg: Config, s: State, packets: seq<Packet>): (State, seq<Packet>)
    decreases |packets|
  {
    if packets == [] then (s, [])
    else
      var (s', q) := Write(cfg, s, packets[0]);
      var (t, out) := Run(cfg, s', packets[1..]);
      (t, if q.Some? then [q.value] + out else out)
  }

  // ------------------------------------------------------------------------- one packet

  /** The guess is the median: one of the three, with one of the others on each side. */
  lemma GuessIsMedian(a: int, b: int, c: int)
    ensures var g := Guess(a, b, c);
      || (g == a && (b <= g <= c || c <= g <= b))
      || (g == b && (a <= g <= c || c <= g <= a))
      || (g == c && (a <= g <= b || b <= g <= a))
  {
  }

  /** Every packet that leaves with both stamps has pts >= dts, whatever came in. */
  lemma WrittenPtsNotBeforeDts(cfg: Config, s: State, p: Packet)
    requires cfg.timestamps && !Refused(cfg, s)
    ensures var q := Write(cfg, s, p).1.value; q.dts != NOPTS && q.pts != NOPTS ==> q.pts >= q.dts
  {
  }

  /** Nothing to repair: in order, on its own and after its predecessor, and no stamps that are to be dropped. */
  predicate Fine(cfg: Config, p: Packet, last: Stamp) {
    && (cfg.dropStamps && !cfg.kind.Other? ==> p.pts == p.dts == NOPTS)
    && (cfg.timestamps ==> !Reversed(p) && !StepsBack(cfg, p, last))
  }

  /** A packet passes unchanged exactly when there is nothing to repair. */
  lemma UnchangedExactly(cfg: Config, s: State, p: Packet)
    requires !Refused(cfg, s)
    ensures Write(cfg, s, p).1 == Some(p) <==> Fine(cfg, p, s.lastMuxDts)
  {
  }

  /** Defined stamps stay defined and undefined ones stay undefined. */
  lemma DefinednessKept(cfg: Config, s: State, p: Packet)
    requires !cfg.dropStamps && !Refused(cfg, s)
    ensures var q := Write(cfg, s, p).1.value;
      (q.pts == NOPTS <==> p.pts == NOPTS) && (q.dts == NOPTS <==> p.dts == NOPTS) && q.size == p.size
  {
  }

  /** Guess and clamp together: the dts, or the pts of a reversed packet, moved up no further than it must. */
  lemma RepairIsMinimal(cfg: Config, s: State, p: Packet)
    requires cfg.timestamps && !cfg.dropStamps && !Refused(cfg, s) && !cfg.kind.Other?
    requires p.dts != NOPTS && s.lastMuxDts != NOPTS
    ensures var q, low := Write(cfg, s, p).1.value, Lowest(cfg, s.lastMuxDts);
      && q.dts >= low
      && (!Reversed(p) ==> q.dts == Max(p.dts, low) && (p.pts != NOPTS ==> q.pts == Max(p.pts, q.dts)))
      && (Reversed(p) && cfg.strict ==> q.dts == q.pts == Max(p.pts, low))
      && (Reversed(p) && !cfg.strict ==> q.dts == q.pts == if p.dts > low then Max(p.pts, low + 1) else low)
  {
  }

  /** Streams that are neither audio nor video are not clamped; a reversed packet still gets one stamp, the median. */
  lemma OtherStreamsUntangled(cfg: Config, s: State, p: Packet)
    requires cfg.timestamps && cfg.kind.Other? && !Refused(cfg, s)
    ensures var q := Write(cfg, s, p).1.value;
      if Reversed(p) then q.dts == q.pts == Max(p.pts, Min(p.dts, s.lastMuxDts + 1)) else q == p
  {
  }

  // ------------------------------------------------------------------------- whole runs

  /** How many of n packets the frame limit lets through. */
  function Admitted(cfg: Config, s: State, n: nat): int {
    if cfg.kind.Video? && cfg.encodedVideo then n else Min(n, Max(0, cfg.maxFrames - s.frameNumber))
  }

  /** -frames: exactly the first packets up to the limit are written, each one repaired after the one before it. */
  lemma {:induction false} PacketLimit(cfg: Config, s: State, packets: seq<Packet>)
    ensures var out := Run(cfg, s, packets).1;
      && |out| == Admitted(cfg, s, |packets|)
      && forall k :: 0 <= k < |out| ==>
          out[k] == Repair(cfg, packets[k], if k == 0 then s.lastMuxDts else out[k - 1].dts)
    decreases |packets|
  {
    hide Repair;
    if packets != [] {
      var (s', q) := Write(cfg, s, packets[0]);
      var rest := Run(cfg, s', packets[1..]).1;
      PacketLimit(cfg, s', packets[1..]);
      if q.Some? {
        var out := [q.value] + rest;
        forall k | 0 <= k < |out|
          ensures out[k] == Repair(cfg, packets[k], if k == 0 then s.lastMuxDts else out[k - 1].dts)
        {
          if k > 0 {
            assert out[k] == rest[k - 1] && packets[k] == packets[1..][k - 1];
            assert k > 1 ==> out[k - 1] == rest[k - 2];
          }
        }
      }
    }
  }

  /** -vsync drop and a negative -async destroy both stamps of every packet. */
  lemma {:induction false} StampsDropped(cfg: Config, s: State, packets: seq<Packet>)
    requires cfg.dropStamps && !cfg.kind.Other?
    ensures var out := Run(cfg, s, packets).1;
      forall k :: 0 <= k < |out| ==> k < |packets| && out[k] == Packet(NOPTS, NOPTS, packets[k].size)
  {
    PacketLimit(cfg, s, packets);
    var out := Run(cfg, s, packets).1;
    forall k | 0 <= k < |out| ensures k < |packets| && out[k] == Packet(NOPTS, NOPTS, packets[k].size) {
      assert out[k] == Repair(cfg, packets[k], if k == 0 then s.lastMuxDts else out[k - 1].dts);
    }
  }

  ghost predicate AllDefined(out: seq<Packet>, i: nat, j: nat)
    requires i <= j < |out|
  {
    forall k :: i <= k <= j ==> out[k].dts != NOPTS
  }

  ghost predicate Follows(cfg: Config, last: Stamp, dts: Stamp) {
    last != NOPTS && dts != NOPTS ==> dts >= Lowest(cfg, last)
  }

  lemma {:induction false} NeighboursInOrder(cfg: Config, s: State, packets: seq<Packet>)
    requires cfg.timestamps && !cfg.kind.Other?
    ensures var out := Run(cfg, s, packets).1;
      && (out != [] ==> Follows(cfg, s.lastMuxDts, out[0].dts))
      && forall k :: 0 <= k < |out| - 1 ==> Follows(cfg, out[k].dts, out[k + 1].dts)
    decreases |packets|
  {
    if packets != [] {
      var (s', q) := Write(cfg, s, packets[0]);
      NeighboursInOrder(cfg, s', packets[1..]);
      var rest := Run(cfg, s', packets[1..]).1;
      if q.Some? {
        var out := [q.value] + rest;
        forall k | 0 <= k < |out| - 1 ensures Follows(cfg, out[k].dts, out[k + 1].dts) {
          if k > 0 {
            assert out[k] == rest[k - 1] && out[k + 1] == rest[(k - 1) + 1];
          }
        }
      }
    }
  }

  /** Over any run, dts strictly increase (never decrease on a non-strict muxer) as long as they are defined. */
  lemma {:induction false} DtsMonotone(cfg: Config, s: State, packets: seq<Packet>, i: nat, j: nat)
    requires cfg.timestamps && !cfg.kind.Other?
    requires i < j < |Run(cfg, s, packets).1| && AllDefined(Run(cfg, s, packets).1, i, j)
    ensures var out := Run(cfg, s, packets).1; out[j].dts >= out[i].dts + (if cfg.strict then j - i else 0)
    decreases j
  {
    NeighboursInOrder(cfg, s, packets);
    var out := Run(cfg, s, packets).1;
    assert Follows(cfg, out[j - 1].dts, out[(j - 1) + 1].dts);
    if i < j - 1 {
      DtsMonotone(cfg, s, packets, i, j - 1);
    }
  }

  ghost predicate AllFine(cfg: Config, last: Stamp, packets: seq<Packet>)
    decreases |packets|
  {
    packets != [] ==> Fine(cfg, packets[0], last) && AllFine(cfg, packets[0].dts, packets[1..])
  }

  /** The frame limit leaves room for all of them. */
  predicate Room(cfg: Config, s: State, packets: seq<Packet>) {
    packets == [] || !CountedHere(cfg) || s.frameNumber + |packets| <= cfg.maxFrames
  }

  /**
   A stream of any kind leaves untouched, from first to last packet, exactly when there is
   nothing to repair in it and room for all of it.
   */
  lemma {:induction false} StreamUnchangedExactly(cfg: Config, s: State, packets: seq<Packet>)
    ensures Run(cfg, s, packets).1 == packets <==> AllFine(cfg, s.lastMuxDts, packets) && Room(cfg, s, packets)
    decreases |packets|
  {
    if packets != [] {
      PacketLimit(cfg, s, packets);
      if !Refused(cfg, s) {
        var (s', q) := Write(cfg, s, packets[0]);
        UnchangedExactly(cfg, s, packets[0]);
        StreamUnchangedExactly(cfg, s', packets[1..]);
        var rest := Run(cfg, s', packets[1..]).1;
        assert Run(cfg, s, packets).1 == [q.value] + rest;
        assert packets == [packets[0]] + packets[1..];
        if Run(cfg, s, packets).1 == packets {
          assert ([q.value] + rest)[0] == packets[0] && ([q.value] + rest)[1..] == rest;
        }
      }
    }
  }

  // -------------------------------------------------------------- gaps: packets without dts

  /** The last defined dts, when `hi` was it before. */
  function Latest(hi: Stamp, dts: Stamp): Stamp { if dts == NOPTS then hi else dts }

  /**
   A packet that comes after a gap and below the last defined dts `hi`: the packet before it
   was written without dts, so there is nothing to clamp it with.
   */
  predicate FallsBehind(cfg: Config, s: State, hi: Stamp, p: Packet) {
    && !Refused(cfg, s) && !cfg.dropStamps
    && s.lastMuxDts == NOPTS && hi != NOPTS && p.dts != NOPTS
    && (if Reversed(p) then p.pts else p.dts) < Lowest(cfg, hi)
  }

  /** What is written follows the last defined dts, however long ago that was, unless the packet falls behind. */
  lemma FollowsUnlessBehind(cfg: Config, s: State, hi: Stamp, p: Packet)
    requires cfg.timestamps && !cfg.kind.Other? && !Refused(cfg, s)
    requires s.lastMuxDts != NOPTS ==> s.lastMuxDts == hi
    ensures Follows(cfg, hi, Write(cfg, s, p).1.value.dts) <==> !FallsBehind(cfg, s, hi, p)
  {
  }

  /** Each defined dts follows the last defined one before it. */
  ghost predicate Ascending(cfg: Config, hi: Stamp, out: seq<Packet>)
    decreases |out|
  {
    out != [] ==> Follows(cfg, hi, out[0].dts) && Ascending(cfg, Latest(hi, out[0].dts), out[1..])
  }

  /** No packet of the run falls behind. */
  ghost predicate NoneBehind(cfg: Config, s: State, hi: Stamp, packets: seq<Packet>)
    decreases |packets|
  {
    packets != [] ==>
      && !FallsBehind(cfg, s, hi, packets[0])
      && var (s', q) := Write(cfg, s, packets[0]);
      NoneBehind(cfg, s', if q.Some? then Latest(hi, q.value.dts) else hi, packets[1..])
  }

  lemma {:induction false} RunAscendsExactly(cfg: Config, s: State, hi: Stamp, packets: seq<Packet>)
    requires cfg.timestamps && !cfg.kind.Other?
    requires s.lastMuxDts != NOPTS ==> s.lastMuxDts == hi
    ensures Ascending(cfg, hi, Run(cfg, s, packets).1) <==> NoneBehind(cfg, s, hi, packets)
    decreases |packets|
  {
    hide Repair;
    if packets != [] {
      var (s', q) := Write(cfg, s, packets[0]);
      if q.Some? {
        FollowsUnlessBehind(cfg, s, hi, packets[0]);
        RunAscendsExactly(cfg, s', Latest(hi, q.value.dts), packets[1..]);
        assert ([q.value] + Run(cfg, s', packets[1..]).1)[1..] == Run(cfg, s', packets[1..]).1;
      } else {
        RunAscendsExactly(cfg, s', hi, packets[1..]);
      }
    }
  }

  /** Any two defined dts are in order, however many packets without dts lie around them. */
  ghost predicate PairsInOrder(cfg: Config, out: seq<Packet>) {
    forall i, j :: 0 <= i < j < |out| ==> Follows(cfg, out[i].dts, out[j].dts)
  }

  lemma {:induction false} AscendingIsPairs(cfg: Config, hi: Stamp, out: seq<Packet>)
    ensures Ascending(cfg, hi, out) <==>
      PairsInOrder(cfg, out) && forall j :: 0 <= j < |out| ==> Follows(cfg, hi, out[j].dts)
    decreases |out|
  {
    if out != [] {
      var rest, hi' := out[1..], Latest(hi, out[0].dts);
      AscendingIsPairs(cfg, hi', rest);
      assert out == [out[0]] + rest;
      if Ascending(cfg, hi, out) {
        forall i, j | 0 <= i < j < |out| ensures Follows(cfg, out[i].dts, out[j].dts) {
          assert out[j] == rest[j - 1] && (i > 0 ==> out[i] == rest[i - 1]);
        }
        forall j | 0 <= j < |out| ensures Follows(cfg, hi, out[j].dts) {
          assert j > 0 ==> out[j] == rest[j - 1];
        }
      }
      if PairsInOrder(cfg, out) && forall j :: 0 <= j < |out| ==> Follows(cfg, hi, out[j].dts) {
        forall j | 0 <= j < |rest| ensures Follows(cfg, hi', rest[j].dts) {
          assert rest[j] == out[j + 1] && Follows(cfg, out[0].dts, out[j + 1].dts);
        }
        forall i, j | 0 <= i < j < |rest| ensures Follows(cfg, rest[i].dts, rest[j].dts) {
          assert rest[i] == out[i + 1] && rest[j] == out[j + 1];
        }
      }
    }
  }

  /**
   Over a whole run any two defined dts are in order, strictly on a strict muxer, exactly when
   no packet after a gap comes in below the last defined dts before the gap.
   */
  lemma {:induction false} DtsInOrderExactly(cfg: Config, packets: seq<Packet>)
    requires cfg.timestamps && !cfg.kind.Other?
    ensures PairsInOrder(cfg, Run(cfg, START, packets).1) <==> NoneBehind(cfg, START, NOPTS, packets)
  {
    RunAscendsExactly(cfg, START, NOPTS, packets);
    AscendingIsPairs(cfg, NOPTS, Run(cfg, START, packets).1);
  }

  /** A packet without dts resets the memory: whatever was written before it, the next packet keeps its dts, or pts. */
  lemma UndefinedDtsResets(cfg: Config, a: Packet, b: Packet, c: Packet)
    requires (!cfg.dropStamps || cfg.kind.Other?) && Room(cfg, START, [a, b, c]) && b.dts == NOPTS
    ensures var out := Run(cfg, START, [a, b, c]).1;
      |out| == 3 && out[2] == if cfg.timestamps && Reversed(c) then c.(dts := c.pts) else c
  {
    var out := Run(cfg, START, [a, b, c]).1;
    PacketLimit(cfg, START, [a, b, c]);
    assert out[1].dts == NOPTS;
    assert out[2] == Repair(cfg, c, out[1].dts);
  }

  /** ... so dts do step back on a strict muxer: 9, none, 5. */
  lemma DtsStepsBack(cfg: Config)
    requires cfg.timestamps && cfg.strict && !cfg.dropStamps && !cfg.kind.Other?
    requires CountedHere(cfg) ==> cfg.maxFrames >= 3
    ensures var packets := [Packet(9, 9, 1), Packet(NOPTS, NOPTS, 1), Packet(5, 5, 1)];
      && Run(cfg, START, packets).1 == packets
      && !PairsInOrder(cfg, packets) && !NoneBehind(cfg, START, NOPTS, packets)
  {
    var a, b, c := Packet(9, 9, 1), Packet(NOPTS, NOPTS, 1), Packet(5, 5, 1);
    StreamUnchangedExactly(cfg, START, [a, b, c]);
    assert [a, b, c][1..] == [b, c] && [b, c][1..] == [c] && [c][1..] == [];
    assert AllFine(cfg, b.dts, [c]);
    assert AllFine(cfg, a.dts, [b, c]);
    DtsInOrderExactly(cfg, [a, b, c]);
    assert !Follows(cfg, [a, b, c][0].dts, [a, b, c][2].dts);
  }

  // ------------------------------------------------------------------------ write_frame

  /** The fields of the output stream that write_frame reads and writes, and the muxer's input. */
  class MuxStream {
    const cfg: Config
    var lastMuxDts: Stamp
    var frameNumber: nat
    var dataSize: nat
    var packetsWritten: nat
    var written: seq<Packet>

    function View(): State
      reads this
    {
      State(lastMuxDts, frameNumber)
    }

    ghost predicate Valid()
      reads this
    {
      packetsWritten == |written|
    }

    constructor (cfg: Config)
      ensures Valid() && this.cfg == cfg && View() == START && written == [] && dataSize == 0
    {
      this.cfg := cfg;
      lastMuxDts, frameNumber, dataSize, packetsWritten, written := NOPTS, 0, 0, 0, [];
    }

    method WriteFrame(p: Packet)
      requires Valid()
      modifies this
      ensures Valid() && View() == Write(cfg, old(View()), p).0
      ensures var q := Write(cfg, old(View()), p).1;
        written == (if q.Some? then old(written) + [q.value] else old(written)) &&
        dataSize == old(dataSize) + (if q.Some? then p.size else 0)
    {
      var pts, dts := p.pts, p.dts;
      if (cfg.kind.Video? || cfg.kind.Audio?) && cfg.dropStamps {
        pts, dts := NOPTS, NOPTS;
      }
      if !(cfg.kind.Video? && cfg.encodedVideo) {
        if frameNumber >= cfg.maxFrames {
          return;
        }
        frameNumber := frameNumber + 1;
      }
      if cfg.timestamps {
        if dts != NOPTS && pts != NOPTS && dts > pts {
          pts := pts + dts + lastMuxDts + 1 - Min3(pts, dts, lastMuxDts + 1) - Max3(pts, dts, lastMuxDts + 1);
          dts := pts;
        }
        if !cfg.kind.Other? && dts != NOPTS && lastMuxDts != NOPTS {
          var max := lastMuxDts + B(cfg.strict);
          if dts < max {
            if pts >= dts {
              pts := Max(pts, max);
            }
            dts := max;
          }
        }
      }
      lastMuxDts := dts;
      dataSize := dataSize + p.size;
      packetsWritten := packetsWritten + 1;
      written := written + [Packet(pts, dts, p.size)];
    }
  }
}
