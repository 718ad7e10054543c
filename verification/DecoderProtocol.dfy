/**
 How a decoder thread, the reading thread and the main thread of ffplay share one packet
 queue.  The reader puts packets and, on a seek, clears the queue and then puts a flush
 packet; the main thread closes and reopens the stream; the decoder runs
 decoder_decode_frame.  Every access to shared memory is one step, so a seek can fall
 between any two lines of the decoder.
 */
module DecoderProtocol {
  import opened PacketQueues

  /** A packet with the serial it was queued under, and its place among all packets ever queued. */
  datatype Ticket = Ticket(entry: Entry, place: nat)

  /** The point decoder_decode_frame has reached. */
  datatype Pc =
    | Top                      // head of the outer loop: tests abort_request
    | Check                    // compares the queue serial with pkt_serial
    | Fetch                    // inner loop: calls packet_queue_get
    | Got(taken: Ticket)       // has a packet, has not looked at it
    | Recheck(taken: Ticket)   // end of the inner loop: compares the serials again
    | Decode                   // hands pkt_temp to the codec
    | Loop(got: bool)          // end of the outer loop
    | Returned(got: bool)      // back in the decoder thread, which may call again
    | Exited                   // returned -1: the thread ends

  datatype Decoder = Decoder(
    pc: Pc,
    held: Ticket,       // the packet kept in pkt
    left: int,          // pkt_temp.size
    pktSerial: nat,
    finished: nat,
    pending: bool
  )

  datatype Reader = Reading | Seeking   // Seeking: cleared, flush packet not put yet
  datatype Main = Open | Aborted | Closed

  /** What the codec answers: a negative return, whether a frame came out, bytes used. */
  datatype Answer = Answer(failed: bool, got: bool, used: nat)

  /** What happens to the codec context and comes out of decoder_decode_frame, in order. */
  datatype Event =
    | OpenCodec
    | FlushCodec(serial: nat, place: nat)               // after taking the flush packet of that place
    | Feed(fed: Ticket, left: int, answer: Answer)      // the bytes of the packet handed over, the answer
    | Finish(serial: nat)                               // finished, after the last packet of a stream
    | FilterEnd(serial: nat)                            // finished, by the end of the filter graph
    | Return(got: bool, serial: nat)                    // decoder_decode_frame returns, with pkt_serial

  /** `puts` and `log` record the past: all entries ever queued, and what the codec saw. */
  datatype Sys = Sys(
    q: Queue,
    d: Decoder,
    reader: Reader,
    main: Main,
    audio: bool,
    puts: seq<Entry>,
    log: seq<Event>
  )

  datatype Action =
    | RPut(pkt: Packet) | RSeekClear | RSeekPut
    | MAbort | MClear | MStart
    | DTop | DCheck | DGet | DHandle | DRecheck | DDecode(answer: Answer) | DLoop
    | DCall | DFilterEof | DFilterFail   // back in the decoder thread

  const FRESH := Decoder(Top, Ticket(Entry(Null, 0), 0), 0, 0, 0, false)

  function Init(audio: bool): Sys {
    Sys(EMPTY, FRESH.(pc := Exited), Reading, Closed, audio, [], [])
  }

  ghost predicate Enabled(s: Sys, a: Action) {
    match a
    case RPut(p) => s.reader.Reading? && !p.Flush?
    case RSeekClear => s.reader.Reading?
    case RSeekPut => s.reader.Seeking?
    case MAbort => s.main.Open?
    case MClear => s.main.Aborted? && s.d.pc.Exited?
    case MStart => s.main.Closed?
    case DTop => s.d.pc.Top?
    case DCheck => s.d.pc.Check?
    case DGet => s.d.pc.Fetch? && (s.q.aborted || s.q.items != [])
    case DHandle => s.d.pc.Got?
    case DRecheck => s.d.pc.Recheck?
    case DDecode(_) => s.d.pc.Decode?
    case DLoop => s.d.pc.Loop?
    case DCall => s.d.pc.Returned?
    case DFilterEof => s.d.pc.Returned?
    case DFilterFail => s.d.pc.Returned?
  }

  /** The queue with one more packet, and the record of it; an aborted queue takes nothing. */
  function Queued(s: Sys, q: Queue, p: Packet): Sys {
    var q' := Put(q, p);
    s.(q := q', puts := if q.aborted then s.puts else s.puts + [Entry(p, q'.serial)])
  }

  /** The place of the next entry to be taken: what is queued was put last. */
  function Front(s: Sys): int { |s.puts| - |s.q.items| }

  /** The codec has no frame left to give after the last packet of a stream. */
  predicate Drained(d: Decoder, r: Answer) { !r.failed && !r.got && d.held.entry.pkt.Null? }

  /** The decoder after the codec answered. */
  function Decoded(d: Decoder, audio: bool, r: Answer): Decoder {
    var d' := d.(pc := Loop(r.got));
    if r.failed then d'.(pending := false)
    else if d.held.entry.pkt.Null? then
      if r.got then d' else d'.(pending := false, finished := d.pktSerial)
    else
      var used := if audio then r.used else d.left;
      d'.(left := d.left - used, pending := d.pending && d.left - used > 0)
  }

  /** What one call of the codec adds to the log. */
  function Logged(log: seq<Event>, feed: Event, drained: bool, n: nat): seq<Event> {
    if drained then log + [feed] + [Finish(n)] else log + [feed]
  }

  function Apply(s: Sys, a: Action): Sys
    requires Enabled(s, a)
  {
    var d := s.d;
    match a
    case RPut(p) => Queued(s, s.q, p)
    case RSeekClear => s.(q := Clear(s.q), reader := Seeking)
    case RSeekPut => Queued(s, s.q, Flush).(reader := Reading)
    case MAbort => s.(q := AbortQueue(s.q), main := Aborted)
    case MClear => s.(q := Clear(s.q), main := Closed)
    case MStart =>
      Queued(s, s.q.(aborted := false), Flush).(d := FRESH, main := Open, log := s.log + [OpenCodec])
    case DTop => s.(d := d.(pc := if s.q.aborted then Exited else Check))
    case DCheck => s.(d := d.(pc := if !d.pending || s.q.serial != d.pktSerial then Fetch else Decode))
    case DGet =>
      if s.q.aborted then s.(d := d.(pc := Exited))
      else
        var e := s.q.items[0];
        s.(q := Pop(s.q), d := d.(pc := Got(Ticket(e, if Front(s) >= 0 then Front(s) else 0)), pktSerial := e.serial))
    case DHandle =>
      if d.pc.taken.entry.pkt.Flush?
      then
        s.(d := d.(pc := Recheck(d.pc.taken), finished := 0),
           log := s.log + [FlushCodec(d.pktSerial, d.pc.taken.place)])
      else s.(d := d.(pc := Recheck(d.pc.taken)))
    case DRecheck =>
      var p := d.pc.taken.entry.pkt;
      if p.Flush? || s.q.serial != d.pktSerial then s.(d := d.(pc := Fetch))
      else s.(d := d.(pc := Decode, held := d.pc.taken, left := PacketSize(p), pending := true))
    case DDecode(r) =>
      s.(d := Decoded(d, s.audio, r), log := Logged(s.log, Feed(d.held, d.left, r), Drained(d, r), d.pktSerial))
    case DLoop =>
      if !d.pc.got && d.finished == 0 then s.(d := d.(pc := Top))
      else s.(d := d.(pc := Returned(d.pc.got)), log := s.log + [Return(d.pc.got, d.pktSerial)])
    case DCall => s.(d := d.(pc := Top))
    case DFilterEof => s.(d := d.(finished := d.pktSerial), log := s.log + [FilterEnd(d.pktSerial)])
    case DFilterFail => s.(d := d.(pc := Exited))
  }

  // ----------------------------------------------------------------- what the log records

  /** The serial of the flush the codec context saw last; 0 for one never flushed. */
  function Epoch(log: seq<Event>): nat {
    if log == [] then 0
    else
      match log[|log| - 1]
      case OpenCodec => 0
      case FlushCodec(s, _) => s
      case _ => Epoch(log[..|log| - 1])
  }

  /** The serial of the latest finished mark that no codec flush has cleared; 0 if there is none. */
  function Mark(log: seq<Event>): nat {
    if log == [] then 0
    else
      match log[|log| - 1]
      case Finish(s) => s
      case FilterEnd(s) => s
      case Feed(_, _, _) => Mark(log[..|log| - 1])
      case Return(_, _) => Mark(log[..|log| - 1])
      case _ => 0
  }

  function SerialOf(e: Event): nat {
    match e
    case OpenCodec => 0
    case Feed(t, _, _) => t.entry.serial
    case _ => e.serial
  }

  /** A packet queued under the serial the codec was last flushed for. */
  ghost predicate Fits(log: seq<Event>, e: Entry) {
    e.serial == Epoch(log) && e.serial > 0 && !e.pkt.Flush?
  }

  /** Each packet was queued under the serial of the flush before it; no event goes back to an older serial. */
  ghost predicate WellFed(log: seq<Event>) {
    && (forall i :: 0 <= i < |log| && log[i].Feed? ==> Fits(log[..i], log[i].fed.entry))
    && (forall i :: 0 <= i < |log| && log[i].Return? ==> log[i].serial == Epoch(log[..i]) > 0)
    && (forall i, j :: 0 <= i < j < |log| && !log[j].OpenCodec? ==> SerialOf(log[i]) <= SerialOf(log[j]))
  }

  ghost predicate Bounded(log: seq<Event>, n: nat) {
    forall i :: 0 <= i < |log| ==> SerialOf(log[i]) <= n
  }

  // --------------------------------------------------------------------------- invariant

  /** What is first in the queue is a flush, or belongs to the flush the decoder took last. */
  ghost predicate QueueInv(s: Sys) {
    && Chained(s.q)
    && (s.q.items != [] ==> s.q.items[0].pkt.Flush? || s.q.items[0].serial == s.d.pktSerial)
    && (s.q.items != [] ==> s.d.pktSerial <= s.q.items[0].serial && s.q.items[0].serial > 0)
    && s.d.pktSerial <= s.q.serial
    && (s.q.items == [] && !s.q.aborted ==> s.reader.Seeking? || s.d.pktSerial == s.q.serial)
    && (!s.q.aborted ==> s.q.serial > 0)
    && (s.main.Open? <==> !s.q.aborted)
    && (s.main.Closed? ==> s.q.items == [] && s.d.pc.Exited?)
  }

  /** Outside the part of decoder_decode_frame that looks for a new packet. */
  predicate Between(pc: Pc) { pc.Top? || pc.Check? || pc.Loop? || pc.Returned? }

  ghost predicate DecoderInv(s: Sys) {
    var d := s.d;
    && (match d.pc
        case Got(t) => t.entry.serial == d.pktSerial > 0 && (t.entry.pkt.Flush? || Epoch(s.log) == d.pktSerial)
        case Recheck(t) => t.entry.serial == d.pktSerial == Epoch(s.log) && d.pktSerial > 0
        case Exited => true
        case _ => Epoch(s.log) == d.pktSerial)
    // a packet that may still be decoded was queued under the serial of the last flush
    && (d.pc.Decode? || (Between(d.pc) && d.pending) ==> Fits(s.log, d.held.entry))
    && (d.pc.Loop? || d.pc.Returned? ==> d.pktSerial > 0)
    && d.finished == Mark(s.log) <= d.pktSerial
  }

  ghost predicate LogInv(s: Sys) {
    && WellFed(s.log)
    && Bounded(s.log, s.q.serial)
    && (s.q.items != [] ==> Bounded(s.log, s.q.items[0].serial))
    && (s.d.pktSerial > 0 ==> Bounded(s.log, s.d.pktSerial))
  }

  ghost predicate Inv(s: Sys) {
    QueueInv(s) && DecoderInv(s) && LogInv(s)
  }

  lemma InitInv(audio: bool)
    ensures Inv(Init(audio))
  {
  }

  lemma EpochAppend(log: seq<Event>, e: Event)
    ensures Epoch(log + [e]) == (match e case OpenCodec => 0 case FlushCodec(s, _) => s case _ => Epoch(log))
    ensures Mark(log + [e]) ==
      (if e.Finish? || e.FilterEnd? then e.serial else if e.Feed? || e.Return? then Mark(log) else 0)
  {
    assert (log + [e])[..|log|] == log;
  }

  lemma WellFedAppend(log: seq<Event>, e: Event)
    requires WellFed(log) && (!e.OpenCodec? ==> Bounded(log, SerialOf(e)))
    requires (e.Feed? ==> Fits(log, e.fed.entry)) && (e.Return? ==> e.serial == Epoch(log) > 0)
    ensures WellFed(log + [e])
    ensures forall n :: Bounded(log, n) && SerialOf(e) <= n ==> Bounded(log + [e], n)
  {
    var r := log + [e];
    forall i | 0 <= i < |r| && r[i].Feed? ensures Fits(r[..i], r[i].fed.entry) {
      assert r[..i] == log[..i];
      if i == |log| { assert log[..i] == log; }
    }
    forall i | 0 <= i < |r| && r[i].Return? ensures r[i].serial == Epoch(r[..i]) > 0 {
      assert r[..i] == log[..i];
      if i == |log| { assert log[..i] == log; }
    }
  }

  lemma PutKeepsInv(s: Sys, a: Action)
    requires Inv(s) && Enabled(s, a) && (a.RPut? || a.RSeekPut?)
    ensures Inv(Apply(s, a))
  {
    PutKeepsChained(s.q, if a.RPut? then a.pkt else Flush);
  }

  lemma ClearKeepsInv(s: Sys, a: Action)
    requires Inv(s) && Enabled(s, a) && (a.RSeekClear? || a.MAbort? || a.MClear?)
    ensures Inv(Apply(s, a))
  {
  }

  lemma StartKeepsInv(s: Sys)
    requires Inv(s) && Enabled(s, MStart)
    ensures Inv(Apply(s, MStart))
  {
    EpochAppend(s.log, OpenCodec);
    WellFedAppend(s.log, OpenCodec);
    assert Bounded(s.log + [OpenCodec], s.q.serial);
    assert s.q.items == [];
  }

  lemma GetKeepsInv(s: Sys)
    requires Inv(s) && Enabled(s, DGet) && !s.q.aborted
    ensures Inv(Apply(s, DGet))
  {
    var e := s.q.items[0];
    PopKeepsChained(s.q);
    SerialsNondecreasing(s.q, 0, |s.q.items| - 1);
    assert |s.q.items| > 1 ==> s.q.items[1].serial == e.serial + (if s.q.items[1].pkt.Flush? then 1 else 0);
  }

  lemma HandleKeepsInv(s: Sys)
    requires Inv(s) && Enabled(s, DHandle)
    ensures Inv(Apply(s, DHandle))
  {
    hide Epoch, Mark, WellFed, Bounded;
    var flush := FlushCodec(s.d.pktSerial, s.d.pc.taken.place);
    EpochAppend(s.log, flush);
    WellFedAppend(s.log, flush);
  }

  lemma EofKeepsInv(s: Sys)
    requires Inv(s) && Enabled(s, DFilterEof)
    ensures Inv(Apply(s, DFilterEof))
  {
    EpochAppend(s.log, FilterEnd(s.d.pktSerial));
    WellFedAppend(s.log, FilterEnd(s.d.pktSerial));
  }

  lemma ReturnKeepsInv(s: Sys)
    requires Inv(s) && Enabled(s, DLoop) && (s.d.pc.got || s.d.finished != 0)
    ensures Inv(Apply(s, DLoop))
  {
    hide Epoch, Mark, WellFed, Bounded;
    EpochAppend(s.log, Return(s.d.pc.got, s.d.pktSerial));
    WellFedAppend(s.log, Return(s.d.pc.got, s.d.pktSerial));
  }

  lemma LoggedWell(log: seq<Event>, feed: Event, drained: bool, n: nat)
    requires WellFed(log) && Bounded(log, n) && feed.Feed? && Fits(log, feed.fed.entry) && feed.fed.entry.serial == n
    ensures var log' := Logged(log, feed, drained, n);
      && WellFed(log') && Epoch(log') == Epoch(log) && Mark(log') == (if drained then n else Mark(log))
      && forall m :: Bounded(log, m) && n <= m ==> Bounded(log', m)
  {
    hide Epoch, Mark, WellFed;
    EpochAppend(log, feed);
    WellFedAppend(log, feed);
    if drained {
      EpochAppend(log + [feed], Finish(n));
      WellFedAppend(log + [feed], Finish(n));
    }
  }

  lemma DecodeKeepsInv(s: Sys, a: Action)
    requires Inv(s) && Enabled(s, a) && a.DDecode?
    ensures Inv(Apply(s, a))
  {
    hide Epoch, Mark, WellFed, Bounded;
    var t := Apply(s, a);
    LoggedWell(s.log, Feed(s.d.held, s.d.left, a.answer), Drained(s.d, a.answer), s.d.pktSerial);
    assert QueueInv(t);
    assert LogInv(t);
  }

  lemma LocalStepKeepsInv(s: Sys, a: Action)
    requires Inv(s) && Enabled(s, a)
    requires a.DTop? || a.DCheck? || a.DRecheck? || a.DLoop? || a.DCall? || a.DFilterFail? || (a.DGet? && s.q.aborted)
    requires a.DLoop? ==> !s.d.pc.got && s.d.finished == 0
    ensures Inv(Apply(s, a))
  {
    hide Epoch, Mark, WellFed, Bounded;
  }

  /** Every step of the three threads, in any interleaving, keeps the invariant. */
  lemma StepKeepsInv(s: Sys, a: Action)
    requires Inv(s) && Enabled(s, a)
    ensures Inv(Apply(s, a))
  {
    match a
    case RPut(_) => PutKeepsInv(s, a);
    case RSeekPut => PutKeepsInv(s, a);
    case MStart => StartKeepsInv(s);
    case RSeekClear => ClearKeepsInv(s, a);
    case MAbort => ClearKeepsInv(s, a);
    case MClear => ClearKeepsInv(s, a);
    case DHandle => HandleKeepsInv(s);
    case DDecode(_) => DecodeKeepsInv(s, a);
    case DFilterEof => EofKeepsInv(s);
    case DGet => if s.q.aborted { LocalStepKeepsInv(s, a); } else { GetKeepsInv(s); }
    case DLoop => if !s.d.pc.got && s.d.finished == 0 { LocalStepKeepsInv(s, a); } else { ReturnKeepsInv(s); }
    case _ => LocalStepKeepsInv(s, a);
  }

  // ------------------------------------------------------------------- order of the packets

  /** A ticket for an entry that has left the queue. */
  ghost predicate Taken(s: Sys, t: Ticket) {
    t.place < |s.puts| && t.place < Front(s) && s.puts[t.place] == t.entry
  }

  ghost predicate FedBelow(log: seq<Event>, n: int) {
    forall i :: 0 <= i < |log| && log[i].Feed? ==> log[i].fed.place < n
  }

  ghost predicate FedInOrder(log: seq<Event>) {
    forall i, j :: 0 <= i < j < |log| && log[i].Feed? && log[j].Feed? ==> log[i].fed.place <= log[j].fed.place
  }

  ghost predicate AllTaken(s: Sys) {
    forall i :: 0 <= i < |s.log| && s.log[i].Feed? ==> Taken(s, s.log[i].fed)
  }

  /** The queue holds what was put last, and the packet at hand was put after all that were fed. */
  ghost predicate OrderInv(s: Sys) {
    && 0 <= Front(s) && s.q.items == s.puts[Front(s)..]
    && AllTaken(s) && FedInOrder(s.log)
    && (s.d.pc.Got? || s.d.pc.Recheck? ==> Taken(s, s.d.pc.taken) && FedBelow(s.log, s.d.pc.taken.place))
    && (s.d.pc.Decode? || (Between(s.d.pc) && s.d.pending) ==>
          Taken(s, s.d.held) && FedBelow(s.log, s.d.held.place + 1))
  }

  lemma DecodeKeepsOrder(s: Sys, a: Action)
    requires OrderInv(s) && Enabled(s, a) && a.DDecode?
    ensures OrderInv(Apply(s, a)) && s.puts <= Apply(s, a).puts
  {
    var t := Apply(s, a);
    var feed := Feed(s.d.held, s.d.left, a.answer);
    assert forall i :: 0 <= i < |t.log| && t.log[i].Feed? ==> i <= |s.log| && t.log[i] == (s.log + [feed])[i];
  }

  /** A step that feeds nothing and takes nothing back keeps what is known of the past. */
  lemma PastStays(s: Sys, t: Sys)
    requires AllTaken(s) && FedInOrder(s.log) && s.puts <= t.puts && Front(s) <= Front(t)
    requires s.log <= t.log && forall i :: |s.log| <= i < |t.log| ==> !t.log[i].Feed?
    ensures AllTaken(t) && FedInOrder(t.log) && FedBelow(t.log, Front(s))
    ensures forall n :: FedBelow(s.log, n) ==> FedBelow(t.log, n)
    ensures forall k :: Taken(s, k) ==> Taken(t, k)
  {
    forall i | 0 <= i < |t.log| && t.log[i].Feed? ensures Taken(s, t.log[i].fed) {
      assert t.log[i] == s.log[i];
    }
  }

  lemma QueuedKeepsOrder(s: Sys, q: Queue, p: Packet)
    requires OrderInv(s) && q.items == s.q.items
    ensures OrderInv(Queued(s, q, p)) && s.puts <= Queued(s, q, p).puts
  {
    hide AllTaken, FedInOrder, FedBelow, Taken;
    PastStays(s, Queued(s, q, p));
  }

  lemma StartKeepsOrder(s: Sys)
    requires OrderInv(s) && Enabled(s, MStart)
    ensures OrderInv(Apply(s, MStart)) && s.puts <= Apply(s, MStart).puts
  {
    hide AllTaken, FedInOrder, FedBelow, Taken;
    var t := Queued(s, s.q.(aborted := false), Flush);
    QueuedKeepsOrder(s, s.q.(aborted := false), Flush);
    PastStays(t, Apply(s, MStart));
  }

  lemma GetKeepsOrder(s: Sys)
    requires OrderInv(s) && Enabled(s, DGet) && !s.q.aborted
    ensures OrderInv(Apply(s, DGet)) && s.puts <= Apply(s, DGet).puts
  {
    hide AllTaken, FedInOrder, FedBelow;
    PastStays(s, Apply(s, DGet));
  }

  lemma LocalKeepsOrder(s: Sys, a: Action)
    requires OrderInv(s) && Enabled(s, a)
    requires !a.RPut? && !a.RSeekPut? && !a.MStart? && !a.DDecode? && (a.DGet? ==> s.q.aborted)
    ensures OrderInv(Apply(s, a)) && s.puts <= Apply(s, a).puts
  {
    hide AllTaken, FedInOrder, Taken;
    PastStays(s, Apply(s, a));
  }

  lemma SeekKeepsOrder(s: Sys)
    requires OrderInv(s) && Enabled(s, RSeekPut)
    ensures OrderInv(Apply(s, RSeekPut)) && s.puts <= Apply(s, RSeekPut).puts
  {
    hide AllTaken, FedInOrder, FedBelow, Taken;
    QueuedKeepsOrder(s, s.q, Flush);
    PastStays(Queued(s, s.q, Flush), Apply(s, RSeekPut));
  }

  lemma StepKeepsOrder(s: Sys, a: Action)
    requires OrderInv(s) && Enabled(s, a)
    ensures OrderInv(Apply(s, a)) && s.puts <= Apply(s, a).puts
  {
    hide OrderInv;
    match a
    case RPut(p) => QueuedKeepsOrder(s, s.q, p);
    case RSeekPut => SeekKeepsOrder(s);
    case MStart => StartKeepsOrder(s);
    case DDecode(_) => DecodeKeepsOrder(s, a);
    case DGet => if s.q.aborted { LocalKeepsOrder(s, a); } else { GetKeepsOrder(s); }
    case _ => LocalKeepsOrder(s, a);
  }

  // ------------------------------------------------------------------------- whole runs

  ghost predicate Runs(s: Sys, acts: seq<Action>)
    decreases |acts|
  {
    acts != [] ==> Enabled(s, acts[0]) && Runs(Apply(s, acts[0]), acts[1..])
  }

  ghost function After(s: Sys, acts: seq<Action>): Sys
    requires Runs(s, acts)
    decreases |acts|
  {
    if acts == [] then s else After(Apply(s, acts[0]), acts[1..])
  }

  lemma StepGrows(s: Sys, a: Action)
    requires Enabled(s, a)
    ensures s.log <= Apply(s, a).log && s.q.serial <= Apply(s, a).q.serial
  {
  }

  lemma {:induction false} RunKeepsInv(s: Sys, acts: seq<Action>)
    requires Inv(s) && Runs(s, acts)
    ensures Inv(After(s, acts)) && s.log <= After(s, acts).log && s.q.serial <= After(s, acts).q.serial
    decreases |acts|
  {
    hide Apply, Inv;
    if acts != [] {
      StepKeepsInv(s, acts[0]);
      StepGrows(s, acts[0]);
      RunKeepsInv(Apply(s, acts[0]), acts[1..]);
    }
  }

  lemma {:induction false} RunKeepsOrder(s: Sys, acts: seq<Action>)
    requires OrderInv(s) && Runs(s, acts)
    ensures OrderInv(After(s, acts)) && s.puts <= After(s, acts).puts
    decreases |acts|
  {
    if acts != [] {
      StepKeepsOrder(s, acts[0]);
      RunKeepsOrder(Apply(s, acts[0]), acts[1..]);
    }
  }

  lemma {:induction false} EpochStable(log: seq<Event>, i: nat, j: nat)
    requires i <= j <= |log|
    requires forall k :: i <= k < j ==> !log[k].FlushCodec? && !log[k].OpenCodec?
    ensures Epoch(log[..j]) == Epoch(log[..i])
    decreases j - i
  {
    if i < j {
      EpochStable(log, i, j - 1);
      assert log[..j][..j - 1] == log[..j - 1];
    }
  }

  /** All packets handed to the codec between two flushes of it were queued under one serial. */
  lemma OneSerialBetweenFlushes(audio: bool, acts: seq<Action>, i: nat, j: nat)
    requires Runs(Init(audio), acts)
    requires var log := After(Init(audio), acts).log;
      i < j < |log| && log[i].Feed? && log[j].Feed? &&
      forall k :: i < k < j ==> !log[k].FlushCodec? && !log[k].OpenCodec?
    ensures var log := After(Init(audio), acts).log; log[i].fed.entry.serial == log[j].fed.entry.serial
  {
    InitInv(audio);
    RunKeepsInv(Init(audio), acts);
    EpochStable(After(Init(audio), acts).log, i, j);
  }

  /** No packet from before a seek is decoded after one from after it, across closing and reopening as well. */
  lemma NoStepBackInTime(audio: bool, acts: seq<Action>, i: nat, j: nat)
    requires Runs(Init(audio), acts)
    requires var log := After(Init(audio), acts).log; i < j < |log| && log[i].Feed? && log[j].Feed?
    ensures var log := After(Init(audio), acts).log; log[i].fed.entry.serial <= log[j].fed.entry.serial
  {
    InitInv(audio);
    RunKeepsInv(Init(audio), acts);
  }

  /**
   The codec only sees packets that were queued, as they were queued, and in the order they
   were queued in, whatever seeks and reopenings fall in between; one packet may be handed
   over several times in a row.
   */
  lemma FedInQueueOrder(audio: bool, acts: seq<Action>, i: nat, j: nat)
    requires Runs(Init(audio), acts)
    requires var log := After(Init(audio), acts).log; i <= j < |log| && log[i].Feed? && log[j].Feed?
    ensures var t := After(Init(audio), acts);
      t.log[i].fed.place <= t.log[j].fed.place < |t.puts| && t.puts[t.log[i].fed.place] == t.log[i].fed.entry
  {
    RunKeepsOrder(Init(audio), acts);
    var t := After(Init(audio), acts);
    assert Taken(t, t.log[i].fed) && Taken(t, t.log[j].fed);
  }

  /** A frame returned by decoder_decode_frame is tagged with the serial its codec was last flushed for. */
  lemma FrameTagIsCodecEpoch(audio: bool, acts: seq<Action>)
    requires Runs(Init(audio), acts)
    ensures var t := After(Init(audio), acts);
      && (t.d.pc.Returned? ==> t.d.pktSerial == Epoch(t.log) && 0 < t.d.pktSerial <= t.q.serial)
      && forall i :: 0 <= i < |t.log| && t.log[i].Return? ==> t.log[i].serial == Epoch(t.log[..i]) > 0
  {
    InitInv(audio);
    RunKeepsInv(Init(audio), acts);
  }

  lemma {:induction false} MarkIsLogged(log: seq<Event>) returns (i: nat)
    requires Mark(log) > 0
    ensures i < |log| && (log[i] == Finish(Mark(log)) || log[i] == FilterEnd(Mark(log)))
  {
    var last := log[|log| - 1];
    if last.Finish? || last.FilterEnd? {
      i := |log| - 1;
    } else {
      i := MarkIsLogged(log[..|log| - 1]);
    }
  }

  /**
   A `finished` mark made before a seek never equals the queue serial after it: whenever the
   mark equals the serial, be the decoder thread alive or gone, it was made after the seek.
   */
  lemma StaleFinishedNeverMatches(audio: bool, before: seq<Action>, after: seq<Action>)
    requires Runs(Init(audio), before) && Runs(After(Init(audio), before), after)
    requires var s := After(Init(audio), before); var t := After(s, after);
      s.q.serial < t.q.serial && t.d.finished == t.q.serial
    ensures var s := After(Init(audio), before); var t := After(s, after);
      && s.d.finished != t.q.serial && s.log <= t.log
      && (Finish(t.q.serial) in t.log[|s.log|..] || FilterEnd(t.q.serial) in t.log[|s.log|..])
  {
    var s := After(Init(audio), before);
    var t := After(s, after);
    InitInv(audio);
    RunKeepsInv(Init(audio), before);
    RunKeepsInv(s, after);
    var i := MarkIsLogged(t.log);
    assert |s.log| <= i;
    assert t.log[|s.log|..][i - |s.log|] == t.log[i];
  }

  /** A seek that goes through makes every packet, frame tag and mark of earlier steps stale. */
  lemma SeekMakesStale(audio: bool, acts: seq<Action>)
    requires Runs(Init(audio), acts)
    requires var s := After(Init(audio), acts); Enabled(s, RSeekPut) && !s.q.aborted
    ensures var s := After(Init(audio), acts); var t := Apply(s, RSeekPut);
      t.q.serial == s.q.serial + 1 && s.d.pktSerial < t.q.serial && s.d.finished < t.q.serial &&
      Bounded(s.log, t.q.serial - 1)
  {
    InitInv(audio);
    RunKeepsInv(Init(audio), acts);
  }
}
