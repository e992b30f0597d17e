// windowBuffer.c: the server's circular buffer of packets sent but not acknowledged.
module WindowBuffer {
  import opened Bytes
  import opened Pdu

  // struct packetinWBuffer; its size field is the length of packet here.
  datatype Slot = Slot(packet: Packet, num: u32)

  datatype Window = Window(slots: seq<Slot>, lowest: u32, highest: u32, current: u32) {
    predicate Valid() { |slots| > 0 }

    predicate IsClosed() { current == highest }
  }

  function Empty(size: nat): Window
    requires 0 < size <= 0x7FFF_FFFF
  {
    Window(seq(size, i => Slot([], 0)), 0, size, 0)
  }

  function Store(h: Endian, w: Window, p: Packet): Window
    requires w.Valid() && |p| >= 4
  {
    var n := PacketNum(h, p);
    w.(slots := w.slots[n % |w.slots| := Slot(p, n)], current := (n + 1) % 0x1_0000_0000)
  }

  // The destination buffer and the returned size.  The size is the slot's even when
  // the slot holds another packet and nothing is copied.
  function Retrieve(w: Window, n: u32, dest: seq<byte>): (out: (seq<byte>, nat))
    requires w.Valid() && |dest| == MAX_PDU
    ensures |out.0| == MAX_PDU && out.1 <= MAX_PDU
  {
    var s := w.slots[n % |w.slots|];
    (if s.num == n then Splice(dest, 0, s.packet) else dest, |s.packet|)
  }

  function Slide(w: Window, rr: u32): Window {
    var amount := (rr - w.lowest) % 0x1_0000_0000;
    w.(lowest := (w.lowest + amount) % 0x1_0000_0000, highest := (w.highest + amount) % 0x1_0000_0000)
  }

  class WindowBuffer {
    const slots: array<Slot>
    var lowest: u32
    var highest: u32
    var current: u32

    ghost function View(): Window
      reads this, slots
    {
      Window(slots[..], lowest, highest, current)
    }

    constructor InitWindow(size: nat)
      requires 0 < size <= 0x7FFF_FFFF
      ensures View() == Empty(size) && slots.Length == size && fresh(slots)
      ensures lowest == current == 0 && highest == size && forall i :: 0 <= i < size ==> slots[i] == Slot([], 0)
    {
      slots := new Slot[size](i => Slot([], 0));
      lowest, highest, current := 0, size, 0;
    }

    method StoreToWindowBuffer(h: Endian, packet: Packet)
      requires slots.Length > 0 && |packet| >= 4
      modifies this`current, slots
      ensures View() == Store(h, old(View()), packet)
    {
      var num := PacketNum(h, packet);
      slots[num % slots.Length] := Slot(packet, num);
      current := (num + 1) % 0x1_0000_0000;
    }

    method RetrieveFromWindowBuffer(dest: array<byte>, num: u32) returns (size: nat)
      requires slots.Length > 0 && dest.Length == MAX_PDU
      modifies dest
      ensures (dest[..], size) == Retrieve(View(), num, old(dest[..]))
    {
      var slot := slots[num % slots.Length];
      if slot.num == num {
        Memcpy(dest, 0, slot.packet);
      }
      size := |slot.packet|;
    }

    method RetrieveLowestPacket(dest: array<byte>) returns (size: nat)
      requires slots.Length > 0 && dest.Length == MAX_PDU
      modifies dest
      ensures (dest[..], size) == Retrieve(View(), lowest, old(dest[..]))
    {
      size := RetrieveFromWindowBuffer(dest, lowest);
    }

    method SlideWindow(rr: u32)
      modifies this`lowest, this`highest
      ensures View() == Slide(old(View()), rr)
    {
      var amount := (rr - lowest) % 0x1_0000_0000;
      lowest := (lowest + amount) % 0x1_0000_0000;
      highest := (highest + amount) % 0x1_0000_0000;
    }
  }

  // ---------------------------------------------------------------------------
  // The window as a finite map from packet number to outstanding packet.
  // ---------------------------------------------------------------------------

  ghost predicate Holds(w: Window, m: map<nat, Packet>) {
    && w.Valid()
    && w.lowest <= w.current <= w.highest == w.lowest + |w.slots|
    && (forall p :: p in m <==> w.lowest <= p < w.current)
    && (forall p :: p in m ==> w.slots[p % |w.slots|] == Slot(m[p], p))
  }

  datatype Op = StoreOp(packet: Packet) | SlideOp(rr: u32)

  // What the server does: store the current packet while the window is open, and
  // slide to an acknowledged number that was sent; numbers do not reach 2^32.
  predicate Legal(h: Endian, w: Window, op: Op)
    requires w.Valid()
  {
    match op
    case StoreOp(p) => |p| >= 4 && PacketNum(h, p) == w.current && !w.IsClosed()
    case SlideOp(rr) => w.lowest <= rr <= w.current && rr + |w.slots| < 0x1_0000_0000
  }

  function Apply(h: Endian, w: Window, op: Op): (r: Window)
    requires w.Valid() && Legal(h, w, op)
    ensures r.Valid() && |r.slots| == |w.slots|
  {
    match op
    case StoreOp(p) => Store(h, w, p)
    case SlideOp(rr) => Slide(w, rr)
  }

  function ApplyMap(h: Endian, m: map<nat, Packet>, op: Op): map<nat, Packet>
    requires op.StoreOp? ==> |op.packet| >= 4
  {
    match op
    case StoreOp(p) => m[PacketNum(h, p) := p]
    case SlideOp(rr) => map p | p in m && p >= rr :: m[p]
  }

  lemma EmptyHolds(size: nat)
    requires 0 < size <= 0x7FFF_FFFF
    ensures Holds(Empty(size), map[])
  {
  }

  lemma StoreKeepsOthers(slots: seq<Slot>, m: map<nat, Packet>, n: u32, p: Packet)
    requires |slots| > 0
    requires forall q :: q in m ==> q < n < q + |slots| && slots[q % |slots|] == Slot(m[q], q)
    ensures var slots', m' := slots[n % |slots| := Slot(p, n)], m[n := p];
      forall q :: q in m' ==> slots'[q % |slots|] == Slot(m'[q], q)
  {
    forall q | q in m
      ensures q % |slots| != n % |slots|
    {
      if q % |slots| == n % |slots| {
        SameSlot(q, n, |slots|);
      }
    }
  }

  lemma StoreRefinesMap(h: Endian, w: Window, m: map<nat, Packet>, p: Packet)
    requires Holds(w, m) && Legal(h, w, StoreOp(p))
    ensures Holds(Store(h, w, p), m[w.current := p])
    ensures var w' := Store(h, w, p);
      w'.lowest == w.lowest && w'.highest == w.highest && w'.current == w.current + 1 && |w'.slots| == |w.slots|
  {
    hide Store, PacketNum;
    StoreAtCurrent(h, w, p);
    StoreKeepsOthers(w.slots, m, w.current, p);
  }

  lemma StoreAtCurrent(h: Endian, w: Window, p: Packet)
    requires w.Valid() && Legal(h, w, StoreOp(p)) && w.current < w.highest
    ensures Store(h, w, p) ==
      w.(slots := w.slots[w.current % |w.slots| := Slot(p, w.current)], current := w.current + 1)
  {
    hide PacketNum;
  }

  lemma SlideRefinesMap(w: Window, m: map<nat, Packet>, rr: u32)
    requires Holds(w, m) && w.lowest <= rr <= w.current && rr + |w.slots| < 0x1_0000_0000
    ensures Holds(Slide(w, rr), map p | p in m && p >= rr :: m[p])
    ensures Slide(w, rr).lowest == rr && Slide(w, rr).current == w.current && |Slide(w, rr).slots| == |w.slots|
  {
    assert Slide(w, rr) == w.(lowest := rr, highest := rr + |w.slots|);
  }

  lemma StepRefinesMap(h: Endian, w: Window, m: map<nat, Packet>, op: Op)
    requires Holds(w, m) && Legal(h, w, op)
    ensures Holds(Apply(h, w, op), ApplyMap(h, m, op))
  {
    match op
    case SlideOp(rr) => SlideRefinesMap(w, m, rr);
    case StoreOp(p) => StoreRefinesMap(h, w, m, p);
  }

  predicate LegalRun(h: Endian, w: Window, ops: seq<Op>)
    requires w.Valid()
    decreases |ops|
  {
    ops == [] || (Legal(h, w, ops[0]) && LegalRun(h, Apply(h, w, ops[0]), ops[1..]))
  }

  function ApplyAll(h: Endian, w: Window, ops: seq<Op>): (r: Window)
    requires w.Valid() && LegalRun(h, w, ops)
    ensures r.Valid()
    decreases |ops|
  {
    if ops == [] then w else ApplyAll(h, Apply(h, w, ops[0]), ops[1..])
  }

  function ApplyAllMap(h: Endian, m: map<nat, Packet>, ops: seq<Op>): map<nat, Packet>
    requires forall op :: op in ops && op.StoreOp? ==> |op.packet| >= 4
    decreases |ops|
  {
    if ops == [] then m else ApplyAllMap(h, ApplyMap(h, m, ops[0]), ops[1..])
  }

  lemma {:induction false} LegalStores(h: Endian, w: Window, ops: seq<Op>)
    requires w.Valid() && LegalRun(h, w, ops)
    ensures forall op :: op in ops && op.StoreOp? ==> |op.packet| >= 4
    decreases |ops|
  {
    if ops != [] {
      LegalStores(h, Apply(h, w, ops[0]), ops[1..]);
      assert ops == [ops[0]] + ops[1..];
    }
  }

  // Over every run of stores and slides the slots hold exactly the outstanding map.
  lemma {:induction false} RunRefinesMap(h: Endian, w: Window, m: map<nat, Packet>, ops: seq<Op>)
    requires Holds(w, m) && LegalRun(h, w, ops)
    requires forall op :: op in ops && op.StoreOp? ==> |op.packet| >= 4
    ensures Holds(ApplyAll(h, w, ops), ApplyAllMap(h, m, ops))
    decreases |ops|
  {
    if ops != [] {
      assert ops == [ops[0]] + ops[1..];
      StepRefinesMap(h, w, m, ops[0]);
      RunRefinesMap(h, Apply(h, w, ops[0]), ApplyMap(h, m, ops[0]), ops[1..]);
    }
  }

  // Every outstanding packet is returned with the bytes and the size it was stored with.
  lemma RetrieveOutstanding(w: Window, m: map<nat, Packet>, n: u32, dest: seq<byte>)
    requires Holds(w, m) && n in m && |dest| == MAX_PDU
    ensures var (bytes, size) := Retrieve(w, n, dest); bytes[..size] == m[n]
  {
  }

  // A packet just stored comes back on top of the buffer given.  Asking for another number of
  // its slot copies nothing and still returns its size; other slots are as before.
  lemma RetrieveAfterStore(h: Endian, w: Window, p: Packet, n: u32, dest: seq<byte>)
    requires w.Valid() && |p| >= 4 && |dest| == MAX_PDU
    ensures var out := Retrieve(Store(h, w, p), n, dest);
      if PacketNum(h, p) == n then out == (p + dest[|p|..], |p|)
      else if PacketNum(h, p) % |w.slots| == n % |w.slots| then out == (dest, |p|)
      else out == Retrieve(w, n, dest)
  {
    hide PacketNum;
    assert Splice(dest, 0, p) == p + dest[|p|..];
  }

  lemma {:induction false} IntervalSize(s: set<nat>, lo: nat, hi: nat)
    requires lo <= hi && forall p :: p in s <==> lo <= p < hi
    ensures |s| == hi - lo
  {
    if lo < hi {
      IntervalSize(s - {hi - 1}, lo, hi - 1);
    } else {
      assert s == {};
    }
  }

  // The window is closed exactly when as many packets are outstanding as it has slots.
  lemma ClosedWhenFull(w: Window, m: map<nat, Packet>)
    requires Holds(w, m)
    ensures |m| <= |w.slots|
    ensures w.IsClosed() <==> |m| == |w.slots|
  {
    IntervalSize(m.Keys, w.lowest, w.current);
  }

  // Whatever number an RR carries, and across wrap-around, the window keeps its width
  // and starts at that number.
  lemma SlideIdentity(w: Window, rr: u32)
    ensures Slide(w, rr).lowest == rr
    ensures (Slide(w, rr).highest - rr) % 0x1_0000_0000 == (w.highest - w.lowest) % 0x1_0000_0000
  {
    var amount := (rr - w.lowest) % 0x1_0000_0000;
    assert amount == rr - w.lowest || amount == rr - w.lowest + 0x1_0000_0000;
    SameDistance(w.highest, w.lowest, rr, amount);
  }

  lemma SameDistance(highest: u32, lowest: u32, rr: u32, amount: u32)
    requires amount == rr - lowest || amount == rr - lowest + 0x1_0000_0000
    ensures ((highest + amount) % 0x1_0000_0000 - rr) % 0x1_0000_0000 == (highest - lowest) % 0x1_0000_0000
  {
    var up := (highest + amount) % 0x1_0000_0000;
    assert up == highest + amount || up == highest + amount - 0x1_0000_0000;
  }

  // slideWindow never looks at current.  It keeps the cursors in order exactly for
  // numbers from current - size to current.
  lemma SlideKeepsOrder(w: Window, rr: u32)
    requires w.Valid() && w.highest == w.lowest + |w.slots| && rr + |w.slots| < 0x1_0000_0000
    ensures var s := Slide(w, rr);
      s.lowest <= s.current <= s.highest <==> rr <= w.current <= rr + |w.slots|
  {
    SlideIdentity(w, rr);
  }
}
