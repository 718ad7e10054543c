/**
 The packet queue of ffplay: a singly linked list with first and last pointers, a packet
 count, a byte count, a seek serial and an abort flag.  `Queue` is its value; the class
 keeps the linked list and is proved to act on that value.
 */
module PacketQueues {
  import opened Common

  /** Flush is the one flush_pkt object; a null packet has no data and asks the codec to drain. */
  datatype Packet = Flush | Null | Data(size: nat, payload: int)

  function PacketSize(p: Packet): nat { if p.Data? then p.size else 0 }

  datatype Entry = Entry(pkt: Packet, serial: nat)

  datatype Queue = Queue(items: seq<Entry>, serial: nat, aborted: bool)

  /** The queue as packet_queue_init leaves it. */
  const EMPTY := Queue([], 0, true)

  function Put(q: Queue, p: Packet): Queue {
    if q.aborted then q
    else
      var serial := if p.Flush? then q.serial + 1 else q.serial;
      q.(items := q.items + [Entry(p, serial)], serial := serial)
  }

  function Clear(q: Queue): Queue { q.(items := []) }

  function Start(q: Queue): Queue { Put(q.(aborted := false), Flush) }

  function AbortQueue(q: Queue): Queue { q.(aborted := true) }

  function Pop(q: Queue): Queue
    requires q.items != []
  {
    q.(items := q.items[1..])
  }

  /** Sum of the packet sizes plus one list node each. */
  function Bytes(items: seq<Entry>, nodeSize: nat): nat {
    if items == [] then 0
    else Bytes(items[..|items| - 1], nodeSize) + PacketSize(items[|items| - 1].pkt) + nodeSize
  }

  /** The byte count of one entry, and of two queues in a row. */
  lemma {:induction false} BytesAdd(a: seq<Entry>, b: seq<Entry>, e: Entry, nodeSize: nat)
    ensures Bytes(a + b, nodeSize) == Bytes(a, nodeSize) + Bytes(b, nodeSize)
    ensures Bytes([e], nodeSize) == (if e.pkt.Data? then e.pkt.size else 0) + nodeSize
    decreases |b|
  {
    assert [e][..0] == [];
    if b == [] {
      assert a + b == a;
    } else {
      BytesAdd(a, b[..|b| - 1], e, nodeSize);
      assert (a + b)[..|a + b| - 1] == a + b[..|b| - 1];
    }
  }

  lemma {:induction false} BytesPop(items: seq<Entry>, nodeSize: nat)
    requires items != []
    ensures Bytes(items, nodeSize) == PacketSize(items[0].pkt) + nodeSize + Bytes(items[1..], nodeSize)
    decreases |items|
  {
    var n := |items| - 1;
    if n > 0 {
      BytesPop(items[..n], nodeSize);
      assert items[..n][1..] == items[1..][..n - 1];
    }
  }

  lemma {:induction false} BytesSnoc(items: seq<Entry>, e: Entry, nodeSize: nat)
    ensures Bytes(items + [e], nodeSize) == Bytes(items, nodeSize) + PacketSize(e.pkt) + nodeSize
  {
    assert (items + [e])[..|items|] == items;
  }

  /** Only a flush packet starts a new serial: the next entry has the serial of this one, plus one if it is a flush. */
  ghost predicate Chained(q: Queue) {
    && (forall i :: 0 < i < |q.items| ==>
          q.items[i].serial == q.items[i - 1].serial + (if q.items[i].pkt.Flush? then 1 else 0))
    && (q.items != [] ==> q.items[|q.items| - 1].serial == q.serial)
    && (forall i :: 0 <= i < |q.items| && q.items[i].pkt.Flush? ==> q.items[i].serial > 0)
  }

  lemma PutKeepsChained(q: Queue, p: Packet)
    requires Chained(q)
    ensures Chained(Put(q, p))
  {
    if !q.aborted {
      var r := Put(q, p);
      forall i | 0 < i < |r.items|
        ensures r.items[i].serial == r.items[i - 1].serial + (if r.items[i].pkt.Flush? then 1 else 0)
      {
        if i < |q.items| {
          assert r.items[i] == q.items[i];
        }
      }
    }
  }

  lemma PopKeepsChained(q: Queue)
    requires Chained(q) && q.items != []
    ensures Chained(Pop(q))
  {
    var r := Pop(q);
    forall i | 0 < i < |r.items|
      ensures r.items[i].serial == r.items[i - 1].serial + (if r.items[i].pkt.Flush? then 1 else 0)
    {
      assert r.items[i] == q.items[i + 1] && r.items[i - 1] == q.items[i];
    }
  }

  lemma {:induction false} SerialsNondecreasing(q: Queue, i: nat, j: nat)
    requires Chained(q) && i <= j < |q.items|
    ensures q.items[i].serial <= q.items[j].serial <= q.serial
    decreases |q.items| - i
  {
    if i < j {
      SerialsNondecreasing(q, i + 1, j);
    } else if j + 1 < |q.items| {
      SerialsNondecreasing(q, j + 1, |q.items| - 1);
    }
  }

  class Node {
    var pkt: Packet
    var next: Node?
    var serial: nat
    ghost const pos: nat     // how many packets were put before this one

    constructor (pkt: Packet, serial: nat, ghost pos: nat)
      ensures this.pkt == pkt && this.serial == serial && next == null && this.pos == pos
    {
      this.pkt, this.serial, next, this.pos := pkt, serial, null, pos;
    }
  }

  class PacketQueue {
    var firstPkt: Node?
    var lastPkt: Node?
    var nbPackets: nat
    var size: int
    var serial: nat
    var abortRequest: bool
    const nodeSize: nat
    ghost var chain: seq<Node>
    ghost var contents: seq<Entry>
    ghost var popped: nat

    ghost function Successor(i: nat): Node?
      requires i < |chain|
      reads this
    {
      if i + 1 < |chain| then chain[i + 1] else null
    }

    /** The chain from firstPkt is acyclic (positions grow along it) and ends at lastPkt. */
    ghost predicate Linked()
      reads this, chain
    {
      && (forall i {:trigger chain[i].pos} :: 0 <= i < |chain| ==> chain[i].pos == popped + i)
      && (forall i {:trigger chain[i].next} :: 0 <= i < |chain| ==> chain[i].next == Successor(i))
      && firstPkt == (if chain == [] then null else chain[0])
      && lastPkt == (if chain == [] then null else chain[|chain| - 1])
    }

    /** Counters and abstract contents describe the first nodes of the chain. */
    ghost predicate Counted()
      reads this, chain
    {
      && |contents| <= |chain|
      && (forall i {:trigger contents[i]} :: 0 <= i < |contents| ==>
            contents[i] == Entry(chain[i].pkt, chain[i].serial))
      && nbPackets == |contents|
      && size == Bytes(contents, nodeSize)
    }

    ghost predicate Valid()
      reads this, chain
    {
      Linked() && Counted() && |contents| == |chain|
    }

    lemma Acyclic()
      requires Linked()
      ensures forall i, j :: 0 <= i < j < |chain| ==> chain[i] != chain[j]
    {
      forall i, j | 0 <= i < j < |chain| ensures chain[i] != chain[j] {
        assert chain[i].pos != chain[j].pos;
      }
    }

    ghost function View(): Queue
      reads this
    {
      Queue(contents, serial, abortRequest)
    }

    /** packet_queue_init */
    constructor (nodeSize: nat)
      ensures Valid() && View() == EMPTY && chain == [] && this.nodeSize == nodeSize
    {
      firstPkt, lastPkt, nbPackets, size, serial, abortRequest := null, null, 0, 0, 0, true;
      this.nodeSize := nodeSize;
      chain, contents, popped := [], [], 0;
    }

    /** Hang a new node behind the last one. */
    method Link(pkt1: Node)
      requires Linked() && Counted() && pkt1.next == null && pkt1.pos == popped + |chain|
      modifies `firstPkt, `lastPkt, `chain, chain`next
      ensures Linked() && Counted() && chain == old(chain) + [pkt1] && lastPkt == pkt1
    {
      ghost var n := |chain|;
      assert forall i {:trigger chain[i].pos} :: 0 <= i < n ==> chain[i] != pkt1;
      if lastPkt == null {
        firstPkt := pkt1;
      } else {
        lastPkt.next := pkt1;
      }
      lastPkt := pkt1;
      chain := chain + [pkt1];
      forall i | 0 <= i < |chain| ensures chain[i].next == Successor(i) {
        if i < n - 1 {
          assert chain[i].pos != chain[n - 1].pos;
        }
      }
    }

    /** Count the node just linked. */
    method Record(pkt: Packet, serial: nat)
      requires Linked() && Counted() && |chain| == |contents| + 1
      requires chain[|chain| - 1].pkt == pkt && chain[|chain| - 1].serial == serial
      modifies `nbPackets, `size, `contents
      ensures Valid() && contents == old(contents) + [Entry(pkt, serial)]
    {
      nbPackets := nbPackets + 1;
      size := size + PacketSize(pkt) + nodeSize;
      BytesSnoc(contents, Entry(pkt, serial), nodeSize);
      contents := contents + [Entry(pkt, serial)];
    }

    /** A new node with the current serial, linked and counted. */
    method Append(pkt: Packet)
      requires Valid()
      modifies `firstPkt, `lastPkt, `nbPackets, `size, `chain, `contents, chain`next
      ensures Valid() && contents == old(contents) + [Entry(pkt, serial)]
      ensures lastPkt != null && fresh(lastPkt)
    {
      var pkt1 := new Node(pkt, serial, popped + |chain|);
      Link(pkt1);
      Record(pkt, serial);
    }

    /** packet_queue_put_private: -1 and no change when aborted, else append. */
    method PutPrivate(pkt: Packet) returns (ret: int)
      requires Valid()
      modifies this, chain`next
      ensures Valid() && View() == Put(old(View()), pkt)
      ensures ret == if old(abortRequest) then -1 else 0
      ensures ret == 0 ==> lastPkt != null && fresh(lastPkt)
    {
      if abortRequest {
        return -1;
      }
      if pkt.Flush? {
        serial := serial + 1;
      }
      Append(pkt);
      return 0;
    }

    /** packet_queue_flush: walk the list, unlink every node. */
    method Flush()
      requires Valid()
      modifies this
      ensures Valid() && View() == Clear(old(View()))
    {
      var pkt := firstPkt;
      ghost var i := 0;
      while pkt != null
        invariant 0 <= i <= |chain|
        invariant pkt == (if i < |chain| then chain[i] else null)
        decreases |chain| - i
      {
        var pkt1 := pkt.next;
        i := i + 1;
        pkt := pkt1;
      }
      lastPkt, firstPkt, nbPackets, size := null, null, 0, 0;
      chain, contents := [], [];
    }

    method Abort()
      requires Valid()
      modifies `abortRequest
      ensures Valid() && View() == AbortQueue(old(View()))
    {
      abortRequest := true;
    }

    /** packet_queue_start */
    method StartQueue()
      requires Valid()
      modifies this, chain
      ensures Valid() && View() == Start(old(View()))
    {
      abortRequest := false;
      var _ := PutPrivate(Packet.Flush);
    }

    /**
     packet_queue_get, with the wait on the condition variable as a precondition: a blocking
     caller returns only once there is a packet or an abort.
     */
    method Get(block: bool) returns (ret: int, entry: Option<Entry>)
      requires Valid()
      requires block ==> abortRequest || firstPkt != null
      modifies this
      ensures Valid()
      ensures old(abortRequest) ==> ret == -1 && entry == None && View() == old(View())
      ensures !old(abortRequest) && old(View()).items == [] ==> ret == 0 && entry == None && View() == old(View())
      ensures !old(abortRequest) && old(View()).items != [] ==>
        ret == 1 && entry == Some(old(View()).items[0]) && View() == Pop(old(View()))
    {
      if abortRequest {
        return -1, None;
      }
      var pkt1 := firstPkt;
      if pkt1 != null {
        BytesPop(contents, nodeSize);
        firstPkt := pkt1.next;
        if firstPkt == null {
          lastPkt := null;
        }
        nbPackets := nbPackets - 1;
        size := size - (PacketSize(pkt1.pkt) + nodeSize);
        chain, contents, popped := chain[1..], contents[1..], popped + 1;
        return 1, Some(Entry(pkt1.pkt, pkt1.serial));
      }
      return 0, None;
    }
  }
}
