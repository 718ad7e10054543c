/**
 What the decoder loop of ffplay does with each packet: after a flush the codec gets every
 queued packet in turn, each until its bytes are used up, and decoder_decode_frame returns
 exactly when a frame came out or the stream is finished.
 */
module DecoderTurns {
  import opened PacketQueues
  import opened DecoderProtocol

  // ------------------------------------------------------------------ whose turn it is

  /** The bytes the codec has used of the packet of that place. */
  function Consumed(log: seq<Event>, place: nat): nat {
    if log == [] then 0
    else
      var e := log[|log| - 1];
      Consumed(log[..|log| - 1], place) + (if e.Feed? && e.fed.place == place then e.answer.used else 0)
  }

  /**
   The packet last handed over is done with: the codec failed on it, or gave nothing more for
   a null packet, or all bytes are used.  Other codecs than audio take a packet whole.
   */
  predicate Done(audio: bool, log: seq<Event>)
    requires log != [] && log[|log| - 1].Feed?
  {
    var e := log[|log| - 1];
    || e.answer.failed
    || match e.fed.entry.pkt
       case Null => !e.answer.got
       case Data(size, _) => !audio || Consumed(log, e.fed.place) >= size
       case Flush => true
  }

  /** The place of the packet the codec must get next; -1 before the first flush. */
  function Due(audio: bool, log: seq<Event>): int {
    if log == [] then -1
    else
      match log[|log| - 1]
      case OpenCodec => -1
      case FlushCodec(_, place) => place + 1
      case Feed(t, _, _) => if Done(audio, log) then t.place + 1 else t.place
      case _ => Due(audio, log[..|log| - 1])
  }

  /** The bytes of the packet that are still to be handed over. */
  function Remaining(log: seq<Event>, t: Ticket): int {
    if t.entry.pkt.Data? then t.entry.pkt.size - Consumed(log, t.place) else 0
  }

  ghost predicate InTurn(audio: bool, log: seq<Event>, e: Event)
    requires e.Feed?
  {
    e.fed.place == Due(audio, log) && e.left == Remaining(log, e.fed)
  }

  /** Every packet handed over is the one whose turn it is, from its first byte not used yet. */
  ghost predicate TakesTurns(audio: bool, log: seq<Event>) {
    forall i :: 0 <= i < |log| && log[i].Feed? ==> InTurn(audio, log[..i], log[i])
  }

  /** A flush packet the decoder takes was queued after all that has been handed over. */
  ghost predicate FlushesLater(log: seq<Event>) {
    forall i, j :: 0 <= i < j < |log| && log[i].Feed? && log[j].FlushCodec? ==> log[i].fed.place < log[j].place
  }

  lemma DueAppend(audio: bool, log: seq<Event>, e: Event)
    ensures (e.Finish? || e.FilterEnd? || e.Return?) ==> Due(audio, log + [e]) == Due(audio, log)
    ensures e.FlushCodec? ==> Due(audio, log + [e]) == e.place + 1
    ensures e.OpenCodec? ==> Due(audio, log + [e]) == -1
    ensures e.Feed? ==>
      Due(audio, log + [e]) == if Done(audio, log + [e]) then e.fed.place + 1 else e.fed.place
  {
    assert (log + [e])[..|log|] == log;
  }

  lemma ConsumedAppend(log: seq<Event>, e: Event, place: nat)
    ensures Consumed(log + [e], place)
         == Consumed(log, place) + (if e.Feed? && e.fed.place == place then e.answer.used else 0)
  {
    assert (log + [e])[..|log|] == log;
  }

  lemma {:induction false} NothingConsumed(log: seq<Event>, place: nat)
    requires FedBelow(log, place)
    ensures Consumed(log, place) == 0
  {
    if log != [] {
      var n := |log| - 1;
      assert FedBelow(log[..n], place) by {
        assert forall i :: 0 <= i < n ==> log[..n][i] == log[i];
      }
      NothingConsumed(log[..n], place);
    }
  }

  lemma TurnsAppend(audio: bool, log: seq<Event>, e: Event)
    requires TakesTurns(audio, log) && (e.Feed? ==> InTurn(audio, log, e))
    requires FlushesLater(log) && (e.FlushCodec? ==> FedBelow(log, e.place))
    ensures TakesTurns(audio, log + [e]) && FlushesLater(log + [e])
  {
    var r := log + [e];
    forall i | 0 <= i < |r| && r[i].Feed? ensures InTurn(audio, r[..i], r[i]) {
      assert r[..i] == if i < |log| then log[..i] else log;
    }
  }

  // --------------------------------------------------------------------------- invariant

  /** Nothing has been queued under a later serial, or thrown away, since the decoder took its last packet. */
  predicate Current(s: Sys) { s.q.serial == s.d.pktSerial && s.reader.Reading? && !s.q.aborted }

  /** The decoder has a packet the codec is not done with. */
  predicate InHand(d: Decoder) { d.pc.Decode? || (Between(d.pc) && d.pending) }

  /** A packet just taken from the queue: the next one, if it is not stale. */
  ghost predicate TakenInv(s: Sys) {
    s.d.pc.Got? || s.d.pc.Recheck? ==>
      var t := s.d.pc.taken;
      && (!t.entry.pkt.Flush? && t.entry.serial == s.q.serial ==> t.place == Due(s.audio, s.log))
      && (t.entry.pkt.Flush? && s.d.pc.Recheck? ==> t.place + 1 == Due(s.audio, s.log))
      && (Current(s) ==> Front(s) == t.place + 1)
  }

  ghost predicate HandInv(s: Sys) {
    && (s.d.pc.Decode? ==> s.d.pending)
    && (InHand(s.d) ==>
          && s.d.held.place == Due(s.audio, s.log) && s.d.left == Remaining(s.log, s.d.held)
          && (Current(s) ==> Front(s) == s.d.held.place + 1))
    && (s.d.pc.Fetch? || (Between(s.d.pc) && !s.d.pending) ==>
          Current(s) ==> Front(s) == Due(s.audio, s.log))
  }

  ghost predicate TurnInv(s: Sys) {
    && FlushesLater(s.log)
    && TakesTurns(s.audio, s.log) && TakenInv(s) && HandInv(s)
    && (s.reader.Seeking? ==> forall i :: 0 <= i < |s.q.items| ==> s.q.items[i].pkt.Flush?)
  }

  lemma QueueStepKeepsTurns(s: Sys, a: Action)
    requires Inv(s) && OrderInv(s) && TurnInv(s) && Enabled(s, a)
    requires a.RPut? || a.RSeekClear? || a.RSeekPut? || a.MAbort? || a.MClear?
    ensures TurnInv(Apply(s, a))
  {
    hide Due, Consumed, TakesTurns, FlushesLater, AllTaken, FedInOrder, LogInv, Epoch, Mark;
  }

  lemma StartKeepsTurns(s: Sys)
    requires Inv(s) && OrderInv(s) && TurnInv(s) && Enabled(s, MStart)
    ensures TurnInv(Apply(s, MStart))
  {
    hide Due, Consumed, TakesTurns, FlushesLater, AllTaken, FedInOrder, LogInv, Epoch, Mark;
    DueAppend(s.audio, s.log, OpenCodec);
    TurnsAppend(s.audio, s.log, OpenCodec);
  }

  lemma GetKeepsTurns(s: Sys)
    requires Inv(s) && OrderInv(s) && TurnInv(s) && Enabled(s, DGet) && !s.q.aborted
    ensures TurnInv(Apply(s, DGet))
  {
    hide Due, Consumed, TakesTurns, FlushesLater, AllTaken, FedInOrder, LogInv, Epoch, Mark;
    var e := s.q.items[0];
    if s.reader.Seeking? {
      assert e.pkt.Flush?;
    }
  }

  lemma HandleKeepsTurns(s: Sys)
    requires Inv(s) && OrderInv(s) && TurnInv(s) && Enabled(s, DHandle)
    ensures TurnInv(Apply(s, DHandle))
  {
    hide Due, Consumed, TakesTurns, FlushesLater, AllTaken, FedInOrder, LogInv, Epoch, Mark;
    var flush := FlushCodec(s.d.pktSerial, s.d.pc.taken.place);
    DueAppend(s.audio, s.log, flush);
    TurnsAppend(s.audio, s.log, flush);
  }

  lemma RecheckKeepsTurns(s: Sys)
    requires Inv(s) && OrderInv(s) && TurnInv(s) && Enabled(s, DRecheck)
    ensures TurnInv(Apply(s, DRecheck))
  {
    hide Due, Consumed, TakesTurns, FlushesLater, AllTaken, FedInOrder, LogInv, Epoch, Mark;
    NothingConsumed(s.log, s.d.pc.taken.place);
  }

  lemma DecodeKeepsTurns(s: Sys, a: Action)
    requires Inv(s) && OrderInv(s) && TurnInv(s) && Enabled(s, a) && a.DDecode?
    ensures TurnInv(Apply(s, a))
  {
    hide Due, Consumed, TakesTurns, FlushesLater, AllTaken, FedInOrder, LogInv, Epoch, Mark;
    var d, n := s.d, s.d.pktSerial;
    var feed := Feed(d.held, d.left, a.answer);
    var log := s.log + [feed];
    DueAppend(s.audio, s.log, feed);
    ConsumedAppend(s.log, feed, d.held.place);
    TurnsAppend(s.audio, s.log, feed);
    DueAppend(s.audio, log, Finish(n));
    ConsumedAppend(log, Finish(n), d.held.place);
    TurnsAppend(s.audio, log, Finish(n));
  }

  lemma MoveKeepsTurns(s: Sys, a: Action)
    requires Inv(s) && TurnInv(s) && Enabled(s, a)
    requires a.DTop? || a.DCheck? || a.DCall? || a.DFilterFail? || (a.DGet? && s.q.aborted)
    ensures TurnInv(Apply(s, a))
  {
    hide Due, Consumed, TakesTurns, FlushesLater, QueueInv, LogInv, Epoch, Mark;
  }

  lemma EventKeepsTurns(s: Sys, e: Event, pc: Pc)
    requires TurnInv(s) && Between(s.d.pc) && Between(pc) && (e.Return? || e.FilterEnd?)
    ensures TurnInv(s.(log := s.log + [e], d := s.d.(pc := pc)))
  {
    hide Due, Consumed, TakesTurns, FlushesLater;
    DueAppend(s.audio, s.log, e);
    ConsumedAppend(s.log, e, s.d.held.place);
    TurnsAppend(s.audio, s.log, e);
  }

  lemma LoopKeepsTurns(s: Sys)
    requires TurnInv(s) && Enabled(s, DLoop)
    ensures TurnInv(Apply(s, DLoop))
  {
    hide Due, Consumed, TakesTurns, FlushesLater;
    var got := s.d.pc.got;
    EventKeepsTurns(s, Return(got, s.d.pktSerial), Returned(got));
  }

  lemma FilterEndKeepsTurns(s: Sys)
    requires TurnInv(s) && Enabled(s, DFilterEof)
    ensures TurnInv(Apply(s, DFilterEof))
  {
    hide Due, Consumed, TakesTurns, FlushesLater;
    EventKeepsTurns(s, FilterEnd(s.d.pktSerial), s.d.pc);
  }

  lemma StepKeepsTurns(s: Sys, a: Action)
    requires Inv(s) && OrderInv(s) && TurnInv(s) && Enabled(s, a)
    ensures TurnInv(Apply(s, a))
  {
    hide Inv, OrderInv, TurnInv;
    match a
    case MStart => StartKeepsTurns(s);
    case DGet => if s.q.aborted { MoveKeepsTurns(s, a); } else { GetKeepsTurns(s); }
    case DHandle => HandleKeepsTurns(s);
    case DRecheck => RecheckKeepsTurns(s);
    case DDecode(_) => DecodeKeepsTurns(s, a);
    case RPut(_) => QueueStepKeepsTurns(s, a);
    case RSeekClear => QueueStepKeepsTurns(s, a);
    case RSeekPut => QueueStepKeepsTurns(s, a);
    case MAbort => QueueStepKeepsTurns(s, a);
    case MClear => QueueStepKeepsTurns(s, a);
    case DLoop => LoopKeepsTurns(s);
    case DFilterEof => FilterEndKeepsTurns(s);
    case _ => MoveKeepsTurns(s, a);
  }

  // ------------------------------------------------------------------- the end of a round

  /** The log ends with an answer of the codec, and perhaps the finished mark it led to. */
  predicate Answered(log: seq<Event>, got: bool) {
    || (log != [] && log[|log| - 1].Feed? && log[|log| - 1].answer.got == got)
    || (|log| > 1 && log[|log| - 1].Finish? && log[|log| - 2].Feed? && log[|log| - 2].answer.got == got)
  }

  /** After this, decoder_decode_frame must return `got`. */
  predicate MustReturn(log: seq<Event>, got: bool) { Answered(log, got) && (got || Mark(log) > 0) }

  /** The codec has nothing left after the last packet of a stream. */
  predicate RanDry(e: Event) { e.Feed? && e.fed.entry.pkt.Null? && !e.answer.failed && !e.answer.got }

  /** What may stand after a log that is not yet at its end. */
  ghost predicate Continues(log: seq<Event>, e: Event) {
    && (e.Finish? <==> log != [] && RanDry(log[|log| - 1]))
    && (e.Return? ==> MustReturn(log, e.got))
    && (MustReturn(log, true) || (MustReturn(log, false) && !e.Finish?) ==> e.Return?)
  }

  ghost predicate RoundsEnd(log: seq<Event>) {
    forall i :: 0 <= i < |log| ==> Continues(log[..i], log[i])
  }

  ghost predicate RoundInv(s: Sys) {
    && RoundsEnd(s.log)
    && (s.log != [] ==> !RanDry(s.log[|s.log| - 1]))
    && (s.d.pc.Loop? ==> Answered(s.log, s.d.pc.got))
    && (forall got :: MustReturn(s.log, got) ==> s.d.pc == Loop(got))
  }

  lemma RoundsAppend(log: seq<Event>, e: Event)
    requires RoundsEnd(log) && Continues(log, e)
    ensures RoundsEnd(log + [e])
  {
    var r := log + [e];
    forall i | 0 <= i < |r| ensures Continues(r[..i], r[i]) {
      assert r[..i] == if i < |log| then log[..i] else log;
    }
  }

  lemma RoundsAfterFeed(log: seq<Event>, feed: Event, n: nat)
    requires RoundsEnd(log) && feed.Feed? && (log != [] ==> !RanDry(log[|log| - 1]))
    requires !MustReturn(log, true) && !MustReturn(log, false)
    ensures RoundsEnd(log + [feed]) && (RanDry(feed) ==> RoundsEnd(log + [feed] + [Finish(n)]))
  {
    hide Mark;
    EpochAppend(log, feed);
    RoundsAppend(log, feed);
    if RanDry(feed) {
      RoundsAppend(log + [feed], Finish(n));
    }
  }

  lemma AnsweredByFeed(log: seq<Event>, feed: Event, n: nat)
    requires feed.Feed?
    ensures var l := Logged(log, feed, RanDry(feed), n);
      l != [] && !RanDry(l[|l| - 1]) && forall got :: Answered(l, got) <==> got == feed.answer.got
  {
    var l := log + [feed];
    assert (l + [Finish(n)])[|l| - 1] == feed;
  }

  lemma DecodeKeepsRounds(s: Sys, a: Action)
    requires RoundInv(s) && Enabled(s, a) && a.DDecode?
    ensures RoundInv(Apply(s, a))
  {
    hide Mark, RoundsEnd, Answered;
    var feed := Feed(s.d.held, s.d.left, a.answer);
    RoundsAfterFeed(s.log, feed, s.d.pktSerial);
    AnsweredByFeed(s.log, feed, s.d.pktSerial);
  }

  lemma EventKeepsRounds(s: Sys, e: Event, pc: Pc)
    requires RoundInv(s) && !e.Feed? && !e.Finish? && !pc.Loop?
    requires if e.Return? then s.d.pc == Loop(e.got) && (e.got || Mark(s.log) > 0) else !s.d.pc.Loop?
    ensures RoundInv(s.(log := s.log + [e], d := s.d.(pc := pc)))
  {
    hide RoundsEnd;
    EpochAppend(s.log, e);
    RoundsAppend(s.log, e);
  }

  lemma StepKeepsRounds(s: Sys, a: Action)
    requires Inv(s) && RoundInv(s) && Enabled(s, a)
    ensures RoundInv(Apply(s, a))
  {
    hide RoundsEnd, LogInv, Epoch;
    match a
    case DDecode(_) => DecodeKeepsRounds(s, a);
    case MStart => EventKeepsRounds(s, OpenCodec, Top);
    case DHandle => EventKeepsRounds(s, FlushCodec(s.d.pktSerial, s.d.pc.taken.place), Recheck(s.d.pc.taken));
    case DFilterEof => EventKeepsRounds(s, FilterEnd(s.d.pktSerial), s.d.pc);
    case DLoop =>
      if s.d.pc.got || s.d.finished != 0 {
        EventKeepsRounds(s, Return(s.d.pc.got, s.d.pktSerial), Returned(s.d.pc.got));
      }
    case _ =>
  }

  // --------------------------------------------------------------------------- whole runs

  lemma InitTurns(audio: bool)
    ensures var s := Init(audio); Inv(s) && OrderInv(s) && TurnInv(s) && RoundInv(s)
  {
    InitInv(audio);
  }

  lemma {:induction false} RunKeepsTurns(s: Sys, acts: seq<Action>)
    requires Inv(s) && OrderInv(s) && TurnInv(s) && RoundInv(s) && Runs(s, acts)
    ensures Inv(After(s, acts)) && OrderInv(After(s, acts)) && TurnInv(After(s, acts)) && RoundInv(After(s, acts))
    decreases |acts|
  {
    hide Inv, OrderInv, TurnInv, RoundInv, Apply;
    if acts != [] {
      StepKeepsInv(s, acts[0]);
      StepKeepsOrder(s, acts[0]);
      StepKeepsTurns(s, acts[0]);
      StepKeepsRounds(s, acts[0]);
      RunKeepsTurns(Apply(s, acts[0]), acts[1..]);
    }
  }

  lemma {:induction false} AudioStays(s: Sys, acts: seq<Action>)
    requires Runs(s, acts)
    ensures After(s, acts).audio == s.audio
    decreases |acts|
  {
    if acts != [] {
      AudioStays(Apply(s, acts[0]), acts[1..]);
    }
  }

  /**
   Over every run the codec gets, after each flush, the packet queued next, then every
   further one in turn: none is skipped, none left before its bytes are used up, the codec
   failed on it or a seek made it stale, and a rest is handed over from where the codec
   stopped.
   */
  lemma PacketsTakeTurns(audio: bool, acts: seq<Action>)
    requires Runs(Init(audio), acts)
    ensures TakesTurns(audio, After(Init(audio), acts).log)
  {
    hide Runs, After, Inv, OrderInv, Due, Consumed, TakesTurns, RoundsEnd;
    InitTurns(audio);
    RunKeepsTurns(Init(audio), acts);
    AudioStays(Init(audio), acts);
  }

  lemma DoneWhenWhole(log: seq<Event>)
    requires log != []
    ensures var e := log[|log| - 1]; e.Feed? && e.fed.entry.pkt.Data? ==> Done(false, log)
  {
  }

  /** Once a packet that is taken whole has been handed over, it is never its turn again. */
  lemma {:induction false} NeverDueAgain(log: seq<Event>, i: nat, m: nat)
    requires i < m <= |log| && log[i].Feed? && log[i].fed.entry.pkt.Data?
    requires TakesTurns(false, log) && FlushesLater(log)
    requires forall k :: i < k < m && log[k].Feed? ==> log[k].fed.place == log[i].fed.place
    ensures Due(false, log[..m]) != log[i].fed.place
    decreases m
  {
    hide Due, Done, Consumed;
    var e := log[m - 1];
    assert log[..m] == log[..m - 1] + [e];
    DoneWhenWhole(log[..m]);
    DueAppend(false, log[..m - 1], e);
    assert e.Feed? ==> InTurn(false, log[..m - 1], e);
    if m - 1 > i {
      NeverDueAgain(log, i, m - 1);
    }
  }

  lemma {:induction false} LaterFeedsMoveOn(log: seq<Event>, i: nat, j: nat)
    requires i < j < |log| && log[i].Feed? && log[j].Feed? && log[i].fed.entry.pkt.Data?
    requires TakesTurns(false, log) && FlushesLater(log) && FedInOrder(log)
    ensures log[i].fed.place < log[j].fed.place
  {
    hide Due, Done, Consumed;
    assert InTurn(false, log[..j], log[j]);
    if log[i].fed.place == log[j].fed.place {
      NeverDueAgain(log, i, j);
    }
  }

  /** Of codecs other than audio a packet with data is handed over once only, and whole. */
  lemma {:induction false} VideoPacketsFedOnce(acts: seq<Action>, i: nat)
    requires Runs(Init(false), acts)
    requires var log := After(Init(false), acts).log; i < |log| && log[i].Feed? && log[i].fed.entry.pkt.Data?
    ensures var log := After(Init(false), acts).log;
      && log[i].left == log[i].fed.entry.pkt.size
      && forall j :: 0 <= j < |log| && j != i && log[j].Feed? ==> log[j].fed.place != log[i].fed.place
  {
    hide Due, Done, Consumed;
    var t := After(Init(false), acts);
    var log := t.log;
    InitTurns(false);
    RunKeepsTurns(Init(false), acts);
    AudioStays(Init(false), acts);
    forall j | 0 <= j < |log| && j != i && log[j].Feed? ensures log[j].fed.place != log[i].fed.place {
      if i < j {
        LaterFeedsMoveOn(log, i, j);
      } else if log[j].fed.place == log[i].fed.place {
        assert Taken(t, log[i].fed) && Taken(t, log[j].fed);
        LaterFeedsMoveOn(log, j, i);
      }
    }
    assert InTurn(false, log[..i], log[i]);
    assert FedBelow(log[..i], log[i].fed.place) by {
      forall k | 0 <= k < i && log[k].Feed? ensures log[..i][k].fed.place < log[i].fed.place {
        assert log[k].fed.place <= log[i].fed.place;
      }
    }
    NothingConsumed(log[..i], log[i].fed.place);
  }

  /** How many packets are handed over in a stretch of the log. */
  function Feeds(log: seq<Event>): nat {
    if log == [] then 0 else Feeds(log[..|log| - 1]) + (if log[|log| - 1].Feed? then 1 else 0)
  }

  /** On the way to the codec with a packet it has already found current. */
  predicate Committed(pc: Pc) { pc.Check? || pc.Got? || pc.Recheck? || pc.Decode? }

  lemma FeedsAppend(log: seq<Event>, e: Event)
    ensures Feeds(log + [e]) == Feeds(log) + (if e.Feed? then 1 else 0)
  {
    assert (log + [e])[..|log|] == log;
  }

  lemma AbortedStep(s: Sys, a: Action)
    requires s.q.aborted && Enabled(s, a) && !a.MStart?
    ensures var t := Apply(s, a);
      t.q.aborted && Feeds(t.log) + (if Committed(t.d.pc) then 1 else 0)
                     <= Feeds(s.log) + (if Committed(s.d.pc) then 1 else 0)
  {
    hide Feeds;
    match a
    case DDecode(r) =>
      var feed := Feed(s.d.held, s.d.left, r);
      FeedsAppend(s.log, feed);
      FeedsAppend(s.log + [feed], Finish(s.d.pktSerial));
    case DHandle => FeedsAppend(s.log, FlushCodec(s.d.pktSerial, s.d.pc.taken.place));
    case DLoop => FeedsAppend(s.log, Return(s.d.pc.got, s.d.pktSerial));
    case DFilterEof => FeedsAppend(s.log, FilterEnd(s.d.pktSerial));
    case _ =>
  }

  /** After an abort the codec gets at most one more packet before the stream is opened again. */
  lemma {:induction false} AbortStopsFeeding(s: Sys, acts: seq<Action>)
    requires s.q.aborted && Runs(s, acts) && MStart !in acts
    ensures Feeds(After(s, acts).log) <= Feeds(s.log) + (if Committed(s.d.pc) then 1 else 0)
    decreases |acts|
  {
    if acts != [] {
      AbortedStep(s, acts[0]);
      AbortStopsFeeding(Apply(s, acts[0]), acts[1..]);
    }
  }

  /** decoder_decode_frame returns right after a frame came out or the stream was found finished, and only then. */
  lemma ReturnsExactly(audio: bool, acts: seq<Action>)
    requires Runs(Init(audio), acts)
    ensures RoundsEnd(After(Init(audio), acts).log)
  {
    hide Runs, After, Inv, OrderInv, Due, Consumed, TakesTurns, RoundsEnd;
    InitTurns(audio);
    RunKeepsTurns(Init(audio), acts);
  }
}
