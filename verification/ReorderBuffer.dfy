// rcopyCBuffer.c: the client's circular buffer of packets that arrived early.
module ReorderBuffer {
  import opened Bytes
  import opened Pdu

  const SENTINEL: u32 := 0xFFFF_FFFF

  // struct packetinBuffer; its size field is the length of packet here.
  datatype Slot = Slot(packet: Packet, valid: bool, num: u32)

  datatype Buffer = Buffer(slots: seq<Slot>, lowest: u32) {
    predicate IsPacketValid(n: u32)
      requires |slots| > 0
    {
      slots[n % |slots|].valid
    }
  }

  function Empty(size: nat): Buffer
    requires 0 < size <= 0x7FFF_FFFF
  {
    Buffer(seq(size, i => Slot([], false, 0)), SENTINEL)
  }

  function Store(h: Endian, b: Buffer, p: Packet): Buffer
    requires |b.slots| > 0 && |p| >= 4
  {
    var n := PacketNum(h, p);
    Buffer(b.slots[n % |b.slots| := Slot(p, true, n)], if n < b.lowest then n else b.lowest)
  }

  // Smallest number among the valid slots of a prefix; the sentinel when there is none.
  function LeastValid(slots: seq<Slot>, k: nat): (m: u32)
    requires k <= |slots|
    ensures forall i :: 0 <= i < k && slots[i].valid ==> m <= slots[i].num
    ensures m == SENTINEL || exists i :: 0 <= i < k && slots[i].valid && slots[i].num == m
  {
    if k == 0 then SENTINEL
    else
      var m := LeastValid(slots, k - 1);
      if slots[k - 1].valid && slots[k - 1].num < m then slots[k - 1].num else m
  }

  // retrieveNextPacket: the slot of the lowest number is copied out and freed, and
  // the lowest number is recomputed (rcopyCBuffer.c:131 assigns it to a local).
  function Retrieve(b: Buffer): (out: (Buffer, Packet))
    requires |b.slots| > 0
  {
    var at := b.lowest % |b.slots|;
    var slots := b.slots[at := b.slots[at].(valid := false)];
    (Buffer(slots, LeastValid(slots, |slots|)), b.slots[at].packet)
  }

  // As written, lowest_pktnum keeps its value.
  function RetrieveAsWritten(b: Buffer): (Buffer, Packet)
    requires |b.slots| > 0
  {
    var (b', p) := Retrieve(b);
    (b'.(lowest := b.lowest), p)
  }

  class ReorderBuffer {
    const slots: array<Slot>
    var lowest: u32

    ghost function View(): Buffer
      reads this, slots
    {
      Buffer(slots[..], lowest)
    }

    constructor InitBuffer(size: nat)
      requires 0 < size <= 0x7FFF_FFFF
      ensures View() == Empty(size) && slots.Length == size && fresh(slots)
      ensures lowest == 0xFFFF_FFFF && forall i :: 0 <= i < size ==> !slots[i].valid
    {
      slots := new Slot[size](i => Slot([], false, 0));
      lowest := SENTINEL;
    }

    method StoreToBuffer(h: Endian, packet: Packet)
      requires slots.Length > 0 && |packet| >= 4
      modifies this, slots
      ensures View() == Store(h, old(View()), packet)
    {
      var num := PacketNum(h, packet);
      slots[num % slots.Length] := Slot(packet, true, num);
      if num < lowest {
        lowest := num;
      }
    }

    method RetrieveNextPacket() returns (packet: Packet)
      requires slots.Length > 0
      modifies this, slots
      ensures (View(), packet) == Retrieve(old(View()))
    {
      var at := lowest % slots.Length;
      packet := slots[at].packet;
      slots[at] := slots[at].(valid := false);
      var nextLowest: u32 := SENTINEL;
      for i := 0 to slots.Length
        invariant nextLowest == LeastValid(slots[..], i)
      {
        if slots[i].valid && slots[i].num < nextLowest {
          nextLowest := slots[i].num;
        }
      }
      lowest := nextLowest;
    }
  }

  // ---------------------------------------------------------------------------
  // The buffer as a finite map from packet number to packet.
  // ---------------------------------------------------------------------------

  predicate WellPlaced(b: Buffer) {
    && |b.slots| > 0
    && forall i :: 0 <= i < |b.slots| && b.slots[i].valid ==> b.slots[i].num % |b.slots| == i
  }

  function Contents(b: Buffer): map<nat, Packet>
    requires WellPlaced(b)
  {
    var keys := set i | 0 <= i < |b.slots| && b.slots[i].valid :: b.slots[i].num;
    map n: nat | n in keys :: b.slots[n % |b.slots|].packet
  }

  // A number is buffered when its slot is in use for it.
  lemma ContentsBySlot(b: Buffer)
    requires WellPlaced(b)
    ensures var m := Contents(b);
      && (forall n: u32 :: n in m <==> var s := b.slots[n % |b.slots|]; s.valid && s.num == n)
      && (forall n :: n in m ==> n <= SENTINEL && m[n] == b.slots[n % |b.slots|].packet)
  {
  }

  predicate IsLeast(n: nat, m: map<nat, Packet>) {
    if m == map[] then n == SENTINEL
    else n in m && n < SENTINEL && forall q :: q in m ==> n <= q
  }

  // Well placed, every number below the sentinel, and the lowest number right.
  predicate Consistent(b: Buffer) {
    WellPlaced(b) && SENTINEL !in Contents(b) && IsLeast(b.lowest, Contents(b))
  }

  lemma EmptyConsistent(size: nat)
    requires 0 < size <= 0x7FFF_FFFF
    ensures Consistent(Empty(size)) && Contents(Empty(size)) == map[]
  {
    ContentsBySlot(Empty(size));
  }

  // A store evicts whatever other number shares the slot, and nothing else.
  lemma StoreContents(h: Endian, b: Buffer, p: Packet)
    requires WellPlaced(b) && |p| >= 4
    ensures WellPlaced(Store(h, b, p))
    ensures var n, m := PacketNum(h, p), Contents(b);
      Contents(Store(h, b, p)) == (map q | q in m && q % |b.slots| != n % |b.slots| :: m[q])[n := p]
  {
    var n, b' := PacketNum(h, p), Store(h, b, p);
    var at := n % |b.slots|;
    assert b'.slots == b.slots[at := Slot(p, true, n)];
    ContentsBySlot(b);
    ContentsBySlot(b');
  }

  ghost predicate CollisionFree(h: Endian, b: Buffer, p: Packet)
    requires WellPlaced(b) && |p| >= 4
  {
    var n := PacketNum(h, p);
    n < SENTINEL && forall q :: q in Contents(b) && q % |b.slots| == n % |b.slots| ==> q == n
  }

  lemma LeastOfInsert(lowest: nat, m: map<nat, Packet>, n: nat, p: Packet)
    requires IsLeast(lowest, m) && n < SENTINEL
    ensures IsLeast(if n < lowest then n else lowest, m[n := p])
  {
    assert n in m[n := p];
  }

  lemma StoreConsistent(h: Endian, b: Buffer, p: Packet)
    requires Consistent(b) && |p| >= 4 && CollisionFree(h, b, p)
    ensures Consistent(Store(h, b, p))
    ensures Contents(Store(h, b, p)) == Contents(b)[PacketNum(h, p) := p]
  {
    var n, m := PacketNum(h, p), Contents(b);
    StoreContents(h, b, p);
    KeepAllButOwn(m, n, p, |b.slots|);
    LeastOfInsert(b.lowest, m, n, p);
  }

  lemma KeepAllButOwn(m: map<nat, Packet>, n: nat, p: Packet, size: nat)
    requires size > 0 && forall q :: q in m && q % size == n % size ==> q == n
    ensures m[n := p] == (map q | q in m && q % size != n % size :: m[q])[n := p]
  {
  }

  lemma FreeContents(b: Buffer, n: u32)
    requires WellPlaced(b) && n in Contents(b)
    ensures var at := n % |b.slots|;
      var b' := b.(slots := b.slots[at := b.slots[at].(valid := false)]);
      WellPlaced(b') && Contents(b') == Contents(b) - {n}
  {
    var at := n % |b.slots|;
    var b' := b.(slots := b.slots[at := b.slots[at].(valid := false)]);
    ContentsBySlot(b);
    ContentsBySlot(b');
    forall q: u32
      ensures q in Contents(b') <==> q in Contents(b) && q != n
    {
      if q % |b.slots| == at && q in Contents(b) {
        assert b.slots[at].num == q;
      }
    }
  }

  // The scan over all slots finds the least number of the map.
  lemma ScanFindsLeast(b: Buffer)
    requires WellPlaced(b) && SENTINEL !in Contents(b)
    ensures IsLeast(LeastValid(b.slots, |b.slots|), Contents(b))
  {
    var m, k := Contents(b), LeastValid(b.slots, |b.slots|);
    ContentsBySlot(b);
    forall q | q in m
      ensures k <= q
    {
      assert b.slots[q % |b.slots|].num == q;
    }
    if k != SENTINEL {
      assert k in m;
    } else {
      assert m.Keys == {};
    }
  }

  lemma RetrieveConsistent(b: Buffer)
    requires Consistent(b) && Contents(b) != map[]
    ensures var (b', p) := Retrieve(b);
      && b.lowest in Contents(b) && p == Contents(b)[b.lowest]
      && Consistent(b') && Contents(b') == Contents(b) - {b.lowest}
  {
    ContentsBySlot(b);
    FreeContents(b, b.lowest);
    var b' := Retrieve(b).0;
    SameContents(b', b.(slots := b'.slots));
    ScanFindsLeast(b');
  }

  lemma SameContents(b: Buffer, c: Buffer)
    requires WellPlaced(b) && b.slots == c.slots
    ensures Contents(b) == Contents(c)
  {
  }

  // The as-written retrieval leaves the lowest number right only on an empty buffer.
  lemma RetrieveAsWrittenBreaksLowest(b: Buffer)
    requires Consistent(b)
    ensures WellPlaced(RetrieveAsWritten(b).0)
    ensures IsLeast(RetrieveAsWritten(b).0.lowest, Contents(RetrieveAsWritten(b).0)) <==> Contents(b) == map[]
  {
    var b' := RetrieveAsWritten(b).0;
    var at := b.lowest % |b.slots|;
    assert b'.slots == b.slots[at := b.slots[at].(valid := false)];
    ContentsBySlot(b);
    ContentsBySlot(b');
    if Contents(b) == map[] {
      assert forall i :: 0 <= i < |b.slots| ==> !b.slots[i].valid;
      assert Contents(b') == map[];
    } else {
      assert b.lowest !in Contents(b');
    }
  }

  // ---------------------------------------------------------------------------
  // Whole runs: the buffer is a minimum-first priority queue.
  // ---------------------------------------------------------------------------

  datatype Op = StoreOp(packet: Packet) | RetrieveOp

  // Stores that collide with no other buffered number, retrievals from a nonempty buffer.
  ghost predicate LegalRun(h: Endian, b: Buffer, ops: seq<Op>)
    requires WellPlaced(b)
    decreases |ops|
  {
    ops == [] ||
    match ops[0]
    case StoreOp(p) =>
      && |p| >= 4 && CollisionFree(h, b, p)
      && WellPlaced(Store(h, b, p)) && LegalRun(h, Store(h, b, p), ops[1..])
    case RetrieveOp =>
      Contents(b) != map[] && WellPlaced(Retrieve(b).0) && LegalRun(h, Retrieve(b).0, ops[1..])
  }

  // The buffer after a run, and the packets it returned.
  ghost function ApplyAll(h: Endian, b: Buffer, ops: seq<Op>): (Buffer, seq<Packet>)
    requires WellPlaced(b) && LegalRun(h, b, ops)
    decreases |ops|
  {
    if ops == [] then (b, [])
    else
      match ops[0]
      case StoreOp(p) => ApplyAll(h, Store(h, b, p), ops[1..])
      case RetrieveOp =>
        var (b1, p) := Retrieve(b);
        var (b2, ps) := ApplyAll(h, b1, ops[1..]);
        (b2, [p] + ps)
  }

  // A run of a priority queue from map m to map m', returning outs: each retrieval
  // takes out the packet with the least number.
  ghost predicate QueueRun(h: Endian, m: map<nat, Packet>, ops: seq<Op>, outs: seq<Packet>, m': map<nat, Packet>)
    decreases |ops|
  {
    if ops == [] then outs == [] && m' == m
    else
      match ops[0]
      case StoreOp(p) => |p| >= 4 && QueueRun(h, m[PacketNum(h, p) := p], ops[1..], outs, m')
      case RetrieveOp =>
        && outs != []
        && exists k :: k in m && IsLeast(k, m) && outs[0] == m[k] && QueueRun(h, m - {k}, ops[1..], outs[1..], m')
  }

  lemma {:induction false} RunIsQueueRun(h: Endian, b: Buffer, ops: seq<Op>)
    requires Consistent(b) && LegalRun(h, b, ops)
    ensures var (b', outs) := ApplyAll(h, b, ops);
      Consistent(b') && QueueRun(h, Contents(b), ops, outs, Contents(b'))
    decreases |ops|
  {
    if ops != [] {
      match ops[0] {
        case StoreOp(p) =>
          StoreConsistent(h, b, p);
          RunIsQueueRun(h, Store(h, b, p), ops[1..]);
        case RetrieveOp =>
          RetrieveConsistent(b);
          var (b1, p) := Retrieve(b);
          RunIsQueueRun(h, b1, ops[1..]);
          var (b2, ps) := ApplyAll(h, b1, ops[1..]);
          assert ([p] + ps)[1..] == ps;
          assert b.lowest in Contents(b);
      }
    }
  }
}
