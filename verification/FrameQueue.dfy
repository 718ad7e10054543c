/**
 The frame ring of ffplay: one decoder thread writes pictures, one display or audio thread
 reads them.  The indices move outside the mutex and the element count moves inside it, so
 a push and a removal are several atomic steps each.  `Ring` is the shared memory together
 with both program counters, `Apply` is one atomic step, and the class at the end carries
 the steps out on the array.
 */
module FrameQueues {
  import opened Common

  /** Where the writing thread stands inside peek_writable / push. */
  datatype Producer<T> =
    | PIdle
    | PWriting               // holds the slot at windex, not filled yet
    | PWritten(frame: T)     // the slot is filled
    | PAdvanced(frame: T)    // windex has moved, size has not
    | PGone                  // left because of an abort

  /** Where the reading thread stands inside nb_remaining / peek / next. */
  datatype Consumer =
    | CIdle
    | CReady      // has seen an undisplayed frame
    | CUnreffed   // the oldest frame is released, rindex has not moved
    | CAdvanced   // rindex has moved, size has not
    | CGone

  datatype Ring<T> = Ring(
    slots: seq<Option<T>>,
    rindex: nat,
    windex: nat,
    size: int,
    keepLast: bool,
    shown: nat,
    aborted: bool,
    p: Producer<T>,
    c: Consumer
  )

  datatype Action<T> =
    | PWait | PWrite(frame: T) | PAbandon | PAdvance | PCommit | PQuit
    | CCheck | CLeave | CNext | CAdvance | CCommit | CPrev | CQuit
    | Abort

  function Max<T>(s: Ring<T>): nat { |s.slots| }

  /** Addition of indices on a ring of n slots, for sums below 2n. */
  function Wrap(i: nat, n: nat): int { if i < n then i else i - n }

  function B(b: bool): nat { if b then 1 else 0 }

  ghost predicate InRange<T>(s: Ring<T>) {
    && Max(s) >= 1
    && s.rindex < Max(s) && s.windex < Max(s)
    && 0 <= s.shown <= s.size <= Max(s)
    && s.shown <= 1
  }

  function Init<T>(maxSize: nat, keepLast: bool): Ring<T>
    requires maxSize >= 1
  {
    Ring(seq(maxSize, _ => None), 0, 0, 0, keepLast, 0, false, PIdle, CIdle)
  }

  ghost predicate Enabled<T>(s: Ring<T>, a: Action<T>) {
    s.windex < Max(s) && s.rindex < Max(s) &&
    match a
    case PWait => s.p.PIdle? && s.size < Max(s) && !s.aborted
    case PWrite(_) => s.p.PWriting? || s.p.PWritten?
    case PAbandon => s.p.PWriting? || s.p.PWritten?
    case PAdvance => s.p.PWritten?
    case PCommit => s.p.PAdvanced?
    case PQuit => s.p.PIdle? && s.aborted
    case CCheck => s.c.CIdle? && s.size - s.shown > 0
    case CLeave => s.c.CReady?
    case CNext => s.c.CReady?
    case CAdvance => s.c.CUnreffed?
    case CCommit => s.c.CAdvanced?
    case CPrev => s.c.CIdle?
    case CQuit => s.c.CIdle? && s.aborted
    case Abort => true
  }

  function Apply<T>(s: Ring<T>, a: Action<T>): Ring<T>
    requires Enabled(s, a)
  {
    match a
    case PWait => s.(p := PWriting)
    case PWrite(f) => s.(slots := s.slots[s.windex := Some(f)], p := PWritten(f))
    case PAbandon => s.(slots := s.slots[s.windex := None], p := PIdle)
    case PAdvance => s.(windex := Wrap(s.windex + 1, Max(s)), p := PAdvanced(s.p.frame))
    case PCommit => s.(size := s.size + 1, p := PIdle)
    case PQuit => s.(p := PGone)
    case CCheck => s.(c := CReady)
    case CLeave => s.(c := CIdle)
    case CNext =>
      if s.keepLast && s.shown == 0 then s.(shown := 1, c := CIdle)
      else s.(slots := s.slots[s.rindex := None], c := CUnreffed)
    case CAdvance => s.(rindex := Wrap(s.rindex + 1, Max(s)), c := CAdvanced)
    case CCommit => s.(size := s.size - 1, c := CIdle)
    case CPrev => s.(shown := 0)
    case CQuit => s.(c := CGone)
    case Abort => s.(aborted := true)
  }

  // ---------------------------------------------------------------- the frames in the ring

  /** The slot of the oldest frame not yet released. */
  function First<T>(s: Ring<T>): nat { s.rindex + B(s.c.CUnreffed?) }

  /** Number of frames pushed completely and not yet released. */
  function Count<T>(s: Ring<T>): int { s.size - B(s.c.CUnreffed? || s.c.CAdvanced?) }

  /** Slot i of the ring, counted from the oldest frame not yet released. */
  function Slot<T>(s: Ring<T>, i: nat): int { Wrap(First(s) + i, Max(s)) }

  /** The slot after the newest complete frame, the only one the producer may touch. */
  function Tail<T>(s: Ring<T>): int
    requires Count(s) >= 0
  {
    Slot(s, Count(s))
  }

  predicate HoldsFrame<T>(p: Producer<T>) { p.PWritten? || p.PAdvanced? }

  /** Slot i is filled when it is live or being published, and released otherwise. */
  ghost predicate SlotOk<T>(s: Ring<T>, i: nat)
    requires InRange(s) && i < Max(s)
  {
    if i < Count(s) then s.slots[Slot(s, i)].Some?
    else if i == Count(s) && HoldsFrame(s.p) then s.slots[Slot(s, i)] == Some(s.p.frame)
    else s.slots[Slot(s, i)].None?
  }

  /** The part of the invariant about indices, counts and program counters. */
  ghost predicate Shape<T>(s: Ring<T>) {
    && InRange(s)
    && (s.shown == 1 ==> s.keepLast)
    // a check made before the lock was left still holds while the other side moves
    && (s.p.PWriting? || HoldsFrame(s.p) ==> s.size < Max(s))
    && (s.c.CReady? || s.c.CUnreffed? || s.c.CAdvanced? ==> s.size - s.shown > 0)
    && (s.c.CUnreffed? || s.c.CAdvanced? ==> (s.keepLast ==> s.shown == 1))
    // windex is rindex + size up to the pending half steps
    && s.windex == (if s.p.PAdvanced? then Wrap(Tail(s) + 1, Max(s)) else Tail(s))
  }

  /** The inductive invariant of the protocol. */
  ghost predicate Inv<T>(s: Ring<T>) {
    Shape(s) && forall i :: 0 <= i < Max(s) ==> SlotOk(s, i)
  }

  /** The frames of the ring, oldest first. */
  function Items<T>(s: Ring<T>): (r: seq<T>)
    requires Inv(s)
    ensures |r| == Count(s)
  {
    seq(Count(s), i requires 0 <= i < Count(s) => assert SlotOk(s, i); s.slots[Slot(s, i)].value)
  }

  // ------------------------------------------------------------------ the sequential queue

  /** What the ring stands for: a FIFO whose first frame may already have been shown. */
  datatype Fifo<T> = Fifo(items: seq<T>, shown: nat)

  function Abs<T>(s: Ring<T>): Fifo<T>
    requires Inv(s)
  {
    Fifo(Items(s), s.shown)
  }

  /** The one operation of the FIFO that an atomic step amounts to, if any. */
  datatype Op<T> = Enqueue(frame: T) | Drop | Show | Back | Stutter

  function Label<T>(s: Ring<T>, a: Action<T>): Op<T>
    requires Enabled(s, a)
  {
    match a
    case PCommit => Enqueue(s.p.frame)
    case CNext => if s.keepLast && s.shown == 0 then Show else Drop
    case CPrev => Back
    case _ => Stutter
  }

  ghost predicate FifoStep<T>(q: Fifo<T>, op: Op<T>, q': Fifo<T>) {
    match op
    case Enqueue(f) => q' == q.(items := q.items + [f])
    case Drop => q.items != [] && q' == q.(items := q.items[1..])
    case Show => q.items != [] && q.shown == 0 && q' == q.(shown := 1)
    case Back => q' == q.(shown := 0)
    case Stutter => q' == q
  }

  // ------------------------------------------------------------------------- one step

  lemma InitInv<T>(maxSize: nat, keepLast: bool)
    requires maxSize >= 1
    ensures Inv(Init<T>(maxSize, keepLast)) && Abs(Init<T>(maxSize, keepLast)) == Fifo([], 0)
  {
  }

  predicate ByProducer<T>(a: Action<T>) {
    a.PWait? || a.PWrite? || a.PAbandon? || a.PAdvance? || a.PCommit? || a.PQuit?
  }

  lemma ProducerKeepsShape<T>(s: Ring<T>, a: Action<T>)
    requires Shape(s) && Enabled(s, a) && ByProducer(a)
    ensures Shape(Apply(s, a))
  {
    var t := Apply(s, a);
    assert First(t) == First(s) && Max(t) == Max(s);
  }

  lemma ReleaseKeepsShape<T>(s: Ring<T>)
    requires Shape(s) && s.c.CReady? && !(s.keepLast && s.shown == 0)
    ensures Shape(Apply(s, CNext)) && Tail(Apply(s, CNext)) == Tail(s)
  {
    var t := Apply(s, CNext);
    assert First(t) == First(s) + 1 && Count(t) == Count(s) - 1;
  }

  lemma AdvanceKeepsShape<T>(s: Ring<T>, a: Action<T>)
    requires Shape(s) && Enabled(s, a) && (a.CAdvance? || a.CCommit?)
    ensures Shape(Apply(s, a)) && Tail(Apply(s, a)) == Tail(s)
  {
    assert Count(Apply(s, a)) == Count(s);
  }

  lemma ConsumerKeepsShape<T>(s: Ring<T>, a: Action<T>)
    requires Shape(s) && Enabled(s, a) && !ByProducer(a)
    ensures Shape(Apply(s, a))
  {
    if a.CNext? && !(s.keepLast && s.shown == 0) {
      ReleaseKeepsShape(s);
    } else if a.CAdvance? || a.CCommit? {
      AdvanceKeepsShape(s, a);
    } else {
      var t := Apply(s, a);
      assert First(t) == First(s) && Count(t) == Count(s) && Tail(t) == Tail(s);
    }
  }

  function Next(i: nat, n: nat): nat { if i + 1 < n then i + 1 else 0 }

  lemma WriteTouchesTailOnly<T>(s: Ring<T>, i: nat)
    requires Shape(s) && i < Max(s) && (s.p.PWriting? || s.p.PWritten?)
    ensures Slot(s, i) == s.windex <==> i == Count(s)
  {
  }

  lemma ProducerKeepsSlot<T>(s: Ring<T>, a: Action<T>, i: nat)
    requires Shape(s) && Enabled(s, a) && ByProducer(a) && Shape(Apply(s, a)) && i < Max(s)
    requires SlotOk(s, i)
    ensures SlotOk(Apply(s, a), i)
  {
    if a.PWrite? || a.PAbandon? {
      WriteTouchesTailOnly(s, i);
    }
  }

  lemma ReleaseKeepsSlot<T>(s: Ring<T>, i: nat)
    requires Shape(s) && s.c.CReady? && !(s.keepLast && s.shown == 0) && Shape(Apply(s, CNext)) && i < Max(s)
    requires SlotOk(s, Next(i, Max(s)))
    ensures SlotOk(Apply(s, CNext), i)
  {
    var t := Apply(s, CNext);
    assert Slot(t, i) == Slot(s, Next(i, Max(s)));
  }

  lemma SameSlot<T>(s: Ring<T>, t: Ring<T>, i: nat)
    requires Shape(s) && Shape(t) && t.slots == s.slots && t.p == s.p && i < Max(s) && SlotOk(s, i)
    requires Slot(t, i) == Slot(s, i) && Count(t) == Count(s)
    ensures SlotOk(t, i)
  {
  }

  lemma AdvanceKeepsSlot<T>(s: Ring<T>, i: nat)
    requires Shape(s) && s.c.CUnreffed? && i < Max(s)
    ensures Slot(Apply(s, CAdvance), i) == Slot(s, i) && Count(Apply(s, CAdvance)) == Count(s)
  {
  }

  lemma ConsumerKeepsSlot<T>(s: Ring<T>, a: Action<T>, i: nat)
    requires Shape(s) && Enabled(s, a) && !ByProducer(a) && Shape(Apply(s, a)) && i < Max(s)
    requires SlotOk(s, i) && SlotOk(s, Next(i, Max(s)))
    ensures SlotOk(Apply(s, a), i)
  {
    if a.CNext? && !(s.keepLast && s.shown == 0) {
      ReleaseKeepsSlot(s, i);
    } else {
      if a.CAdvance? {
        AdvanceKeepsSlot(s, i);
      }
      SameSlot(s, Apply(s, a), i);
    }
  }

  /** Every atomic step of either thread keeps the invariant. */
  lemma StepKeepsInv<T>(s: Ring<T>, a: Action<T>)
    requires Inv(s) && Enabled(s, a)
    ensures Inv(Apply(s, a))
  {
    if ByProducer(a) { ProducerKeepsShape(s, a); } else { ConsumerKeepsShape(s, a); }
    forall i | 0 <= i < Max(s) ensures SlotOk(Apply(s, a), i) {
      assert SlotOk(s, i) && SlotOk(s, Next(i, Max(s)));
      if ByProducer(a) { ProducerKeepsSlot(s, a, i); } else { ConsumerKeepsSlot(s, a, i); }
    }
  }

  lemma ProducerRefines<T>(s: Ring<T>, a: Action<T>)
    requires Inv(s) && Enabled(s, a) && ByProducer(a) && Inv(Apply(s, a))
    ensures Items(Apply(s, a)) == if a.PCommit? then Items(s) + [s.p.frame] else Items(s)
  {
    var t := Apply(s, a);
    forall i | 0 <= i < Count(s) ensures Slot(t, i) == Slot(s, i) && t.slots[Slot(t, i)] == s.slots[Slot(s, i)] {
      if a.PWrite? || a.PAbandon? {
        WriteTouchesTailOnly(s, i);
      }
    }
    if a.PCommit? {
      assert SlotOk(s, Count(s));
    }
  }

  lemma ReleaseRefines<T>(s: Ring<T>)
    requires Inv(s) && s.c.CReady? && !(s.keepLast && s.shown == 0) && Inv(Apply(s, CNext))
    ensures Items(s) != [] && Items(Apply(s, CNext)) == Items(s)[1..]
  {
    var t := Apply(s, CNext);
    forall i | 0 <= i < Count(t)
      ensures Slot(t, i) == Slot(s, i + 1) && t.slots[Slot(t, i)] == s.slots[Slot(s, i + 1)] {}
  }

  lemma ConsumerRefines<T>(s: Ring<T>, a: Action<T>)
    requires Inv(s) && Enabled(s, a) && !ByProducer(a) && Inv(Apply(s, a))
    ensures Label(s, a).Drop? || Label(s, a).Show? ==> Items(s) != []
    ensures Items(Apply(s, a)) == if Label(s, a).Drop? then Items(s)[1..] else Items(s)
  {
    if Label(s, a).Drop? {
      ReleaseRefines(s);
    } else {
      var t := Apply(s, a);
      assert t.slots == s.slots && Count(t) == Count(s);
      forall i | 0 <= i < Count(s) ensures Slot(t, i) == Slot(s, i) {}
    }
  }

  /** ... and amounts to at most one operation of the sequential queue. */
  lemma StepRefinesFifo<T>(s: Ring<T>, a: Action<T>)
    requires Inv(s) && Enabled(s, a)
    ensures Inv(Apply(s, a)) && FifoStep(Abs(s), Label(s, a), Abs(Apply(s, a)))
  {
    StepKeepsInv(s, a);
    var t := Apply(s, a);
    if ByProducer(a) {
      ProducerRefines(s, a);
    } else {
      ConsumerRefines(s, a);
    }
  }

  // ------------------------------------------------------------------------- whole runs

  /** The steps can be taken one after the other, in this interleaving. */
  ghost predicate Runs<T>(s: Ring<T>, acts: seq<Action<T>>)
    decreases |acts|
  {
    acts != [] ==> Enabled(s, acts[0]) && Runs(Apply(s, acts[0]), acts[1..])
  }

  ghost function After<T>(s: Ring<T>, acts: seq<Action<T>>): Ring<T>
    requires Runs(s, acts)
    decreases |acts|
  {
    if acts == [] then s else After(Apply(s, acts[0]), acts[1..])
  }

  /** The slot that peek and peek_readable return. */
  function Peek<T>(s: Ring<T>): nat
    requires Max(s) > 0
  {
    (s.rindex + s.shown) % Max(s)
  }

  function PushedBy<T>(s: Ring<T>, a: Action<T>): seq<T>
    requires Enabled(s, a)
  {
    if a.PCommit? then [s.p.frame] else []
  }

  function ReleasedBy<T>(s: Ring<T>, a: Action<T>): seq<Option<T>>
    requires Enabled(s, a)
  {
    if Label(s, a).Drop? then [s.slots[s.rindex]] else []
  }

  function DeliveredBy<T>(s: Ring<T>, a: Action<T>): seq<Option<T>>
    requires Enabled(s, a)
  {
    if a.CNext? then [s.slots[Peek(s)]] else []
  }

  /** The frames published by a run, in the order of the pushes. */
  ghost function Pushed<T>(s: Ring<T>, acts: seq<Action<T>>): seq<T>
    requires Runs(s, acts)
    decreases |acts|
  {
    if acts == [] then []
    else PushedBy(s, acts[0]) + Pushed(Apply(s, acts[0]), acts[1..])
  }

  /** The frames whose slots a run gives back to the producer. */
  ghost function Released<T>(s: Ring<T>, acts: seq<Action<T>>): seq<Option<T>>
    requires Runs(s, acts)
    decreases |acts|
  {
    if acts == [] then []
    else ReleasedBy(s, acts[0]) + Released(Apply(s, acts[0]), acts[1..])
  }

  /** The frames the consumer is looking at each time it calls next. */
  ghost function Delivered<T>(s: Ring<T>, acts: seq<Action<T>>): seq<Option<T>>
    requires Runs(s, acts)
    decreases |acts|
  {
    if acts == [] then []
    else DeliveredBy(s, acts[0]) + Delivered(Apply(s, acts[0]), acts[1..])
  }

  function Somes<T>(frames: seq<T>): (r: seq<Option<T>>)
    ensures |r| == |frames|
  {
    seq(|frames|, i requires 0 <= i < |frames| => Some(frames[i]))
  }

  lemma SomesConcat<T>(a: seq<T>, b: seq<T>)
    ensures Somes(a + b) == Somes(a) + Somes(b)
  {
  }

  lemma {:induction false} RunKeepsInv<T>(s: Ring<T>, acts: seq<Action<T>>)
    requires Inv(s) && Runs(s, acts)
    ensures Inv(After(s, acts)) && Max(After(s, acts)) == Max(s) && After(s, acts).keepLast == s.keepLast
    decreases |acts|
  {
    if acts != [] {
      StepKeepsInv(s, acts[0]);
      RunKeepsInv(Apply(s, acts[0]), acts[1..]);
    }
  }

  /** One more step in front of two equal concatenations. */
  lemma Glue<X>(k: seq<X>, seen: seq<X>, d: seq<X>, out: seq<X>, k': seq<X>, r: seq<X>, z: seq<X>)
    requires k + seen == out + k' && k' + d == r + z
    ensures k + (seen + d) == (out + r) + z
  {
    assert k + (seen + d) == (k + seen) + d;
    assert (out + k') + d == out + (k' + d);
    assert out + (r + z) == (out + r) + z;
  }

  lemma FifoStepBalance<T>(s: Ring<T>, a: Action<T>)
    requires Inv(s) && Enabled(s, a)
    ensures Inv(Apply(s, a))
    ensures Somes(Items(s)) + Somes(PushedBy(s, a)) == ReleasedBy(s, a) + Somes(Items(Apply(s, a)))
  {
    StepRefinesFifo(s, a);
    if Label(s, a).Drop? {
      assert SlotOk(s, 0) && Slot(s, 0) == s.rindex;
    }
    SomesConcat(Items(s), PushedBy(s, a));
  }

  /** First in, first out: what was there and went in is what came out and what is left. */
  lemma {:induction false} RunIsFifo<T>(s: Ring<T>, acts: seq<Action<T>>)
    requires Inv(s) && Runs(s, acts)
    ensures Inv(After(s, acts))
    ensures Somes(Items(s)) + Somes(Pushed(s, acts)) == Released(s, acts) + Somes(Items(After(s, acts)))
    decreases |acts|
  {
    if acts != [] {
      var a, u := acts[0], Apply(s, acts[0]);
      FifoStepBalance(s, a);
      RunIsFifo(u, acts[1..]);
      SomesConcat(PushedBy(s, a), Pushed(u, acts[1..]));
      Glue(Somes(Items(s)), Somes(PushedBy(s, a)), Somes(Pushed(u, acts[1..])),
           ReleasedBy(s, a), Somes(Items(u)), Released(u, acts[1..]), Somes(Items(After(s, acts))));
    }
  }

  lemma ModIsWrap(i: nat, n: nat)
    requires 0 < n && i < 2 * n
    ensures i % n == Wrap(i, n)
  {
    if i >= n {
      assert i == n + (i - n);
    }
  }

  /** A consumer that has seen an undisplayed frame reads exactly the oldest undisplayed one. */
  lemma PeekReadsNextFrame<T>(s: Ring<T>)
    requires Inv(s) && s.c.CReady?
    ensures s.shown < |Items(s)| && s.slots[Peek(s)] == Some(Items(s)[s.shown])
  {
    ModIsWrap(s.rindex + s.shown, Max(s));
    assert Peek(s) == Slot(s, s.shown);
    assert SlotOk(s, s.shown);
  }

  /** The frame being shown, when the ring keeps it. */
  function Kept<T>(s: Ring<T>): seq<Option<T>>
    requires Inv(s)
  {
    Somes(Items(s)[..if s.shown <= |Items(s)| then s.shown else 0])
  }

  lemma DeliveredStep<T>(s: Ring<T>, a: Action<T>)
    requires Inv(s) && Enabled(s, a) && !a.CPrev?
    ensures Inv(Apply(s, a))
    ensures Kept(s) + DeliveredBy(s, a) == ReleasedBy(s, a) + Kept(Apply(s, a))
  {
    StepRefinesFifo(s, a);
    if a.CNext? {
      PeekReadsNextFrame(s);
      assert SlotOk(s, 0) && Slot(s, 0) == s.rindex;
    }
  }

  lemma {:induction false} RunDelivers<T>(s: Ring<T>, acts: seq<Action<T>>)
    requires Inv(s) && Runs(s, acts) && CPrev !in acts
    ensures Inv(After(s, acts)) && Kept(s) + Delivered(s, acts) == Released(s, acts) + Kept(After(s, acts))
    decreases |acts|
  {
    if acts != [] {
      var a, u := acts[0], Apply(s, acts[0]);
      DeliveredStep(s, a);
      RunDelivers(u, acts[1..]);
      Glue(Kept(s), DeliveredBy(s, a), Delivered(u, acts[1..]),
           ReleasedBy(s, a), Kept(u), Released(u, acts[1..]), Kept(After(s, acts)));
    }
  }

  /** Over any run that never steps back, the consumer is shown the pushed frames in order, each exactly once. */
  lemma DeliveredInOrder<T>(maxSize: nat, keepLast: bool, acts: seq<Action<T>>)
    requires maxSize >= 1 && CPrev !in acts && Runs(Init(maxSize, keepLast), acts)
    ensures var s := Init<T>(maxSize, keepLast); Delivered(s, acts) <= Somes(Pushed(s, acts))
  {
    var s := Init<T>(maxSize, keepLast);
    var t := After(s, acts);
    InitInv<T>(maxSize, keepLast);
    RunIsFifo(s, acts);
    RunDelivers(s, acts);
    assert Kept(t) <= Somes(Items(t));
    assert Somes(Items(s)) + Somes(Pushed(s, acts)) == Somes(Pushed(s, acts));
    assert Kept(s) + Delivered(s, acts) == Delivered(s, acts);
  }

  /** How far a step moves the reader through the pushed frames: one on with next, one back from a frame shown. */
  function Moved<T>(s: Ring<T>, a: Action<T>): int {
    (if a.CNext? then 1 else 0) - (if a.CPrev? then s.shown else 0)
  }

  /** Calls of next less effective steps back. */
  ghost function Position<T>(s: Ring<T>, acts: seq<Action<T>>): int
    requires Runs(s, acts)
    decreases |acts|
  {
    if acts == [] then 0 else Moved(s, acts[0]) + Position(Apply(s, acts[0]), acts[1..])
  }

  lemma {:induction false} PositionIsReleasedAndShown<T>(s: Ring<T>, acts: seq<Action<T>>)
    requires Inv(s) && Runs(s, acts)
    ensures s.shown + Position(s, acts) == |Released(s, acts)| + After(s, acts).shown
    decreases |acts|
  {
    if acts != [] {
      StepKeepsInv(s, acts[0]);
      PositionIsReleasedAndShown(Apply(s, acts[0]), acts[1..]);
    }
  }

  lemma ShownIsPresent<T>(s: Ring<T>)
    requires Inv(s)
    ensures 0 < |s.slots| && s.shown <= |Items(s)|
  {
  }

  lemma NothingBefore<X>(a: seq<X>, b: seq<X>)
    requires a == []
    ensures a + b == b
  {
  }

  lemma PushedAreReleasedOrLeft<T>(s: Ring<T>, acts: seq<Action<T>>)
    requires Inv(s) && Runs(s, acts) && Items(s) == []
    ensures Inv(After(s, acts)) && Somes(Pushed(s, acts)) == Released(s, acts) + Somes(Items(After(s, acts)))
  {
    hide Inv, Items, Runs, Pushed, Released, After;
    RunIsFifo(s, acts);
    NothingBefore(Somes(Items(s)), Somes(Pushed(s, acts)));
  }

  /**
   With steps back as well, the reader looks at the pushed frames in order: each next moves
   it one frame on, each step back from a shown frame one frame back.
   */
  lemma LooksAtPosition<T>(maxSize: nat, keepLast: bool, acts: seq<Action<T>>)
    requires maxSize >= 1 && Runs(Init(maxSize, keepLast), acts)
    ensures var s := Init<T>(maxSize, keepLast);
      var t, n := After(s, acts), Position(s, acts);
      && 0 <= n <= |Pushed(s, acts)|
      && (t.c.CReady? ==> n < |Pushed(s, acts)| && 0 < |t.slots| && t.slots[Peek(t)] == Some(Pushed(s, acts)[n]))
  {
    hide Inv, Apply, Enabled, Runs, After, Position, Pushed, Released, Items;
    var s := Init<T>(maxSize, keepLast);
    var t := After(s, acts);
    InitInv<T>(maxSize, keepLast);
    PushedAreReleasedOrLeft(s, acts);
    PositionIsReleasedAndShown(s, acts);
    assert 0 < |t.slots| && t.shown <= |Items(t)| by { ShownIsPresent(t); }
    if t.c.CReady? {
      PeekReadsNextFrame(t);
      assert Somes(Pushed(s, acts))[Position(s, acts)] == Somes(Items(t))[t.shown];
    }
  }

  /** The frame kept on screen survives everything either thread does until the next call of next. */
  lemma {:induction false} KeptFrameSurvives<T>(s: Ring<T>, acts: seq<Action<T>>)
    requires Inv(s) && Runs(s, acts) && CNext !in acts
    requires !s.c.CUnreffed? && !s.c.CAdvanced? && s.size > 0
    ensures var t := After(s, acts);
      && t.rindex == s.rindex && s.rindex < Max(t) == Max(s)
      && t.slots[t.rindex] == s.slots[s.rindex] && s.slots[s.rindex].Some?
    decreases |acts|
  {
    assert SlotOk(s, 0);
    if acts != [] {
      StepKeepsInv(s, acts[0]);
      if acts[0].PWrite? || acts[0].PAbandon? {
        WriteTouchesTailOnly(s, 0);
      }
      KeptFrameSurvives(Apply(s, acts[0]), acts[1..]);
    }
  }

  // ------------------------------------------------------------- disjointness, no deadlock

  /** While the producer fills its slot, no slot the consumer may look at or release is that slot. */
  lemma SlotsDisjoint<T>(s: Ring<T>)
    requires Inv(s) && (s.p.PWriting? || s.p.PWritten?) && !s.c.CAdvanced?
    ensures s.size > 0 ==> s.rindex != s.windex
    ensures s.size - s.shown > 0 ==> Peek(s) != s.windex
    ensures s.size - s.shown > 1 ==> (s.rindex + s.shown + 1) % Max(s) != s.windex
  {
    ModIsWrap(s.rindex + s.shown, Max(s));
    if s.size - s.shown > 1 {
      ModIsWrap(s.rindex + s.shown + 1, Max(s));
    }
  }

  ghost predicate ProducerBlocked<T>(s: Ring<T>) {
    s.p.PIdle? && s.size >= Max(s) && !s.aborted
  }

  ghost predicate ConsumerBlocked<T>(s: Ring<T>) {
    s.c.CIdle? && s.size - s.shown <= 0 && !s.aborted
  }

  /** A thread between two calls has to wait exactly when the ring is full, or holds no frame that was not shown yet. */
  lemma WaitsExactly<T>(s: Ring<T>)
    requires Inv(s) && !s.aborted
    ensures s.p.PIdle? ==>
      (!Enabled(s, PWait) <==> s.size == |s.slots|) && (ProducerBlocked(s) <==> !Enabled(s, PWait))
    ensures s.c.CIdle? ==>
      (!Enabled(s, CCheck) <==> |Items(s)| == s.shown) && (ConsumerBlocked(s) <==> !Enabled(s, CCheck))
  {
  }

  ghost predicate DeadlockRun<T>(s: Ring<T>, acts: seq<Action<T>>) {
    Runs(s, acts) && ProducerBlocked(After(s, acts)) && ConsumerBlocked(After(s, acts))
  }

  lemma DeadlockNeedsKeptFrame<T>(maxSize: nat, keepLast: bool, acts: seq<Action<T>>)
    requires maxSize >= 1 && DeadlockRun(Init(maxSize, keepLast), acts)
    ensures maxSize == 1 && keepLast
  {
    InitInv<T>(maxSize, keepLast);
    RunKeepsInv(Init(maxSize, keepLast), acts);
  }

  lemma RunsCons<T>(s: Ring<T>, a: Action<T>, rest: seq<Action<T>>)
    requires Enabled(s, a) && Runs(Apply(s, a), rest)
    ensures Runs(s, [a] + rest) && After(s, [a] + rest) == After(Apply(s, a), rest)
  {
    assert ([a] + rest)[1..] == rest;
  }

  lemma DeadlockTrace<T>(frame: T)
    ensures DeadlockRun(Init(1, true),
                        [PWait] + ([PWrite(frame)] + ([PAdvance] + ([PCommit] + ([CCheck] + ([CNext] + []))))))
  {
    var s0 := Init<T>(1, true);
    var s1 := Apply(s0, PWait);
    var s2 := Apply(s1, PWrite(frame));
    var s3 := Apply(s2, PAdvance);
    var s4 := Apply(s3, PCommit);
    var s5 := Apply(s4, CCheck);
    RunsCons(s5, CNext, []);
    RunsCons(s4, CCheck, [CNext] + []);
    RunsCons(s3, PCommit, [CCheck] + ([CNext] + []));
    RunsCons(s2, PAdvance, [PCommit] + ([CCheck] + ([CNext] + [])));
    RunsCons(s1, PWrite(frame), [PAdvance] + ([PCommit] + ([CCheck] + ([CNext] + []))));
    RunsCons(s0, PWait, [PWrite(frame)] + ([PAdvance] + ([PCommit] + ([CCheck] + ([CNext] + [])))));
  }

  /** Both threads can wait for each other exactly in a ring of one slot that keeps its last frame. */
  lemma DeadlockExactly<T(!new)>(maxSize: nat, keepLast: bool, frame: T)
    requires maxSize >= 1
    ensures (exists acts: seq<Action<T>> :: DeadlockRun(Init(maxSize, keepLast), acts)) <==> maxSize == 1 && keepLast
  {
    forall acts: seq<Action<T>> | DeadlockRun(Init(maxSize, keepLast), acts) ensures maxSize == 1 && keepLast {
      DeadlockNeedsKeptFrame(maxSize, keepLast, acts);
    }
    if maxSize == 1 && keepLast {
      DeadlockTrace(frame);
    }
  }

  // ------------------------------------------------------------------- the structure itself

  const FRAME_QUEUE_SIZE := 16

  /**
   The structure the two threads share.  A wait on the condition variable is a precondition
   that says the awaited condition has come true.  The counters `p` and `c` exist for the
   proof only.
   */
  class FrameQueue<T> {
    const queue: array<Option<T>>
    var rindex: nat
    var windex: nat
    var size: int
    const keepLast: bool
    var rindexShown: nat
    var abortRequest: bool
    ghost var p: Producer<T>
    ghost var c: Consumer

    ghost function View(): Ring<T>
      reads this, queue
    {
      Ring(queue[..], rindex, windex, size, keepLast, rindexShown, abortRequest, p, c)
    }

    constructor (maxSize: nat, keep: bool)
      requires maxSize >= 1
      ensures View() == Init(if maxSize < 16 then maxSize else 16, keep)
      ensures Inv(View()) && fresh(queue)
    {
      var n := if maxSize < FRAME_QUEUE_SIZE then maxSize else FRAME_QUEUE_SIZE;
      queue := new Option<T>[n](_ => None);
      rindex, windex, size, keepLast, rindexShown, abortRequest := 0, 0, 0, keep, 0, false;
      p, c := PIdle, CIdle;
      new;
      InitInv<T>(n, keep);
      assert queue[..] == Init<T>(n, keep).slots;
    }

    method PeekWritable() returns (slot: Option<nat>)
      requires Inv(View()) && p.PIdle? && (size < queue.Length || abortRequest)
      modifies `p
      ensures slot == if abortRequest then None else Some(windex)
      ensures View() == Apply(old(View()), if abortRequest then PQuit else PWait)
    {
      if abortRequest {
        p := PGone;
        return None;
      }
      p := PWriting;
      return Some(windex);
    }

    method WriteSlot(frame: T)
      requires Inv(View()) && (p.PWriting? || p.PWritten?)
      modifies queue, `p
      ensures View() == Apply(old(View()), PWrite(frame))
    {
      queue[windex] := Some(frame);
      p := PWritten(frame);
    }

    /** First half of push: outside the mutex. */
    method AdvanceWindex()
      requires Inv(View()) && p.PWritten?
      modifies `windex, `p
      ensures View() == Apply(old(View()), PAdvance)
    {
      windex := windex + 1;
      if windex == queue.Length {
        windex := 0;
      }
      p := PAdvanced(p.frame);
    }

    /** Second half of push: inside the mutex. */
    method CommitPush()
      requires Inv(View()) && p.PAdvanced?
      modifies `size, `p
      ensures View() == Apply(old(View()), PCommit)
    {
      size := size + 1;
      p := PIdle;
    }

    method Push()
      requires Inv(View()) && p.PWritten?
      modifies `windex, `size, `p
      ensures Inv(View()) && Items(View()) == old(Items(View()) + [p.frame])
      ensures View() == Apply(Apply(old(View()), PAdvance), PCommit)
    {
      ghost var s := View();
      StepRefinesFifo(s, PAdvance);
      AdvanceWindex();
      StepRefinesFifo(View(), PCommit);
      CommitPush();
    }

    method NbRemaining() returns (n: int)
      requires Inv(View())
      ensures n == size - rindexShown >= 0
    {
      n := size - rindexShown;
    }

    method PeekReadable() returns (frame: Option<Option<T>>)
      requires Inv(View()) && c.CIdle? && (size - rindexShown > 0 || abortRequest)
      modifies `c
      ensures View() == Apply(old(View()), if abortRequest then CQuit else CCheck)
      ensures !abortRequest ==> frame == Some(queue[Peek(View())])
      ensures abortRequest ==> frame == None
    {
      if abortRequest {
        c := CGone;
        return None;
      }
      c := CReady;
      return Some(queue[(rindex + rindexShown) % queue.Length]);
    }

    method ReleaseOldest()
      requires Inv(View()) && c.CReady? && !(keepLast && rindexShown == 0)
      modifies queue, `c
      ensures View() == Apply(old(View()), CNext)
    {
      queue[rindex] := None;
      c := CUnreffed;
    }

    method AdvanceRindex()
      requires Inv(View()) && c.CUnreffed?
      modifies `rindex, `c
      ensures View() == Apply(old(View()), CAdvance)
    {
      rindex := rindex + 1;
      if rindex == queue.Length {
        rindex := 0;
      }
      c := CAdvanced;
    }

    method CommitNext()
      requires Inv(View()) && c.CAdvanced?
      modifies `size, `c
      ensures View() == Apply(old(View()), CCommit)
    {
      size := size - 1;
      c := CIdle;
    }

    method MarkShown()
      requires Inv(View()) && c.CReady? && keepLast && rindexShown == 0
      modifies `rindexShown, `c
      ensures View() == Apply(old(View()), CNext)
    {
      rindexShown := 1;
      c := CIdle;
    }

    /** The whole of next, as one thread runs it: show the first frame, or release it and move on. */
    method Next()
      requires Inv(View()) && c.CReady?
      modifies queue, `rindex, `rindexShown, `size, `c
      ensures Inv(View())
      ensures old(keepLast && rindexShown == 0) ==>
        Abs(View()) == old(Abs(View())).(shown := 1)
      ensures !old(keepLast && rindexShown == 0) ==>
        old(Items(View())) != [] && Abs(View()) == old(Abs(View())).(items := old(Items(View()))[1..])
    {
      StepRefinesFifo(View(), CNext);
      if keepLast && rindexShown == 0 {
        MarkShown();
        return;
      }
      ReleaseOldest();
      StepRefinesFifo(View(), CAdvance);
      AdvanceRindex();
      StepRefinesFifo(View(), CCommit);
      CommitNext();
    }

    method Prev() returns (ret: nat)
      requires Inv(View()) && c.CIdle?
      modifies `rindexShown
      ensures ret == old(rindexShown) && View() == Apply(old(View()), CPrev)
    {
      ret := rindexShown;
      rindexShown := 0;
    }
  }
}
