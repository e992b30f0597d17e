// buffmgmnt.c: the client's receive state machine.  expected and highest persist
// between calls, acknowledgements have the layout of buffmgmnt.c:133, and an early
// packet takes the machine from IN_ORDER to BUFFER.
module Rcopy {
  import opened Bytes
  import opened Checksum
  import opened Pdu
  import RB = ReorderBuffer

  datatype Mode = InOrder | Buffering | Flushing

  datatype Client = Client(mode: Mode, expected: u32, highest: u32, buffer: RB.Buffer, file: seq<byte>) {
    predicate Valid() { |buffer.slots| > 0 }
  }

  // One call of the state machine: the client afterwards, the acknowledgements sent,
  // and whether the download was reported complete.
  datatype Step = Step(next: Client, sent: seq<Ack>, done: bool)

  function Start(windowSize: nat): Client
    requires 0 < windowSize <= 0x7FFF_FFFF
  {
    Client(InOrder, 0, 0, RB.Empty(windowSize), [])
  }

  function Next(n: u32): u32 { (n + 1) % 0x1_0000_0000 }

  function Payload(p: seq<byte>): seq<byte> {
    if |p| >= HEADER then p[HEADER..] else []
  }

  function InOrderStep(h: Endian, c: Client, p: Packet): Step
    requires c.Valid() && |p| >= HEADER
  {
    var n, e := PacketNum(h, p), c.expected;
    if Cksum(h, p) != 0 then Step(c, [], false)
    else if p[6] == EOF then Step(c.(file := c.file + Payload(p)), [EofAck(e)], true)
    else if n == e then
      Step(c.(highest := e, expected := Next(e), file := c.file + Payload(p)), [Rr(Next(e))], false)
    else if n > e then
      Step(c.(mode := Buffering, highest := n, buffer := RB.Store(h, c.buffer, p)), [Srej(e)], false)
    else Step(c, [Rr(e)], false)
  }

  function BufferStep(h: Endian, c: Client, p: Packet): Step
    requires c.Valid() && |p| >= HEADER
  {
    var n, e := PacketNum(h, p), c.expected;
    if Cksum(h, p) != 0 then Step(c, [], false)
    else if n > e then Step(c.(highest := n, buffer := RB.Store(h, c.buffer, p)), [], false)
    else if n == e then
      Step(c.(mode := Flushing, expected := Next(e), file := c.file + Payload(p)), [], false)
    else Step(c, [Rr(e)], false)
  }

  function FlushStep(h: Endian, c: Client): Step
    requires c.Valid()
  {
    var e := c.expected;
    if e == c.highest then
      var (b, p) := RB.Retrieve(c.buffer);
      var c' := c.(buffer := b, file := c.file + Payload(p));
      if |p| > 6 && p[6] == EOF then Step(c', [], true)
      else Step(c'.(mode := InOrder, expected := Next(e)), [Rr(Next(e))], false)
    else if c.buffer.lowest == e then
      var (b, p) := RB.Retrieve(c.buffer);
      Step(c.(expected := Next(e), buffer := b, file := c.file + Payload(p)), [], false)
    else if e < c.highest && !c.buffer.IsPacketValid(e) then
      Step(c.(mode := Buffering), [Srej(e), Rr(e)], false)
    else Step(c, [], false)
  }

  function Receive(h: Endian, c: Client, p: Packet): Step
    requires c.Valid() && |p| >= HEADER && c.mode != Flushing
  {
    if c.mode == InOrder then InOrderStep(h, c, p) else BufferStep(h, c, p)
  }

  // The globals of buffmgmnt.c and the file being written.
  class DataManagement {
    const h: Endian
    const buffer: RB.ReorderBuffer
    var mode: Mode
    var expected: u32
    var highest: u32
    var file: seq<byte>

    ghost function View(): Client
      reads this, buffer, buffer.slots
    {
      Client(mode, expected, highest, buffer.View(), file)
    }

    ghost predicate Valid()
    {
      buffer.slots.Length > 0
    }

    constructor (h: Endian, windowSize: nat)
      requires 0 < windowSize <= 0x7FFF_FFFF
      ensures Valid() && this.h == h && View() == Start(windowSize)
      ensures mode == InOrder && expected == highest == 0 && file == []
      ensures fresh(buffer) && fresh(buffer.slots)
    {
      this.h := h;
      buffer := new RB.ReorderBuffer.InitBuffer(windowSize);
      mode, expected, highest, file := InOrder, 0, 0, [];
    }

    method CreateAck(a: Ack) returns (pdus: seq<seq<byte>>)
      requires a.n < 0x1_0000_0000
      ensures pdus == AckPdus(h, [a])
    {
      var pdu := new byte[MAX_PDU](_ => 0);
      var len := CreatePDU(h, pdu, Mem32(h, Htonl(h, a.n)), 0, a.Flag());
      pdus := [pdu[..len]];
    }

    // A call's effect: the new state, and the PDUs of its acknowledgements.
    ghost predicate Did(st: Step, sent: seq<seq<byte>>, done: bool)
      reads this, buffer, buffer.slots
    {
      View() == st.next && Fit(st.sent) && sent == AckPdus(h, st.sent) && done == st.done
    }

    method InOrderState(recv: array<byte>, len: nat) returns (sent: seq<seq<byte>>, done: bool)
      requires Valid() && HEADER <= len <= recv.Length == MAX_PDU
      modifies this, buffer, buffer.slots
      ensures Did(InOrderStep(h, old(View()), old(recv[..len])), sent, done)
    {
      sent, done := [], false;
      var packet := recv[..len];
      var sum := InCksum(h, recv, len);
      if sum == 0 {
        var num := PacketNum(h, packet);
        if packet[6] == EOF {
          file := file + packet[HEADER..];
          sent := CreateAck(EofAck(expected));
          return sent, true;
        }
        if num == expected {
          file := file + packet[HEADER..];
          highest := expected;
          expected := Next(expected);
          sent := CreateAck(Rr(expected));
        } else if num > expected {
          sent := CreateAck(Srej(expected));
          buffer.StoreToBuffer(h, packet);
          highest := num;
          mode := Buffering;
        } else {
          sent := CreateAck(Rr(expected));
        }
      }
    }

    method BuffState(recv: array<byte>, len: nat) returns (sent: seq<seq<byte>>, done: bool)
      requires Valid() && HEADER <= len <= recv.Length == MAX_PDU
      modifies this, buffer, buffer.slots
      ensures Did(BufferStep(h, old(View()), old(recv[..len])), sent, done)
    {
      sent, done := [], false;
      var packet := recv[..len];
      var sum := InCksum(h, recv, len);
      if sum == 0 {
        var num := PacketNum(h, packet);
        if num > expected {
          buffer.StoreToBuffer(h, packet);
          highest := num;
        } else if num == expected {
          file := file + packet[HEADER..];
          expected := Next(expected);
          mode := Flushing;
        } else {
          sent := CreateAck(Rr(expected));
        }
      }
    }

    method FlushState() returns (sent: seq<seq<byte>>, done: bool)
      requires Valid()
      modifies this, buffer, buffer.slots
      ensures Did(FlushStep(h, old(View())), sent, done)
    {
      sent, done := [], false;
      var nextPacket := buffer.lowest;
      if expected == highest {
        var flushed := buffer.RetrieveNextPacket();
        file := file + Payload(flushed);
        if |flushed| > 6 && flushed[6] == EOF {
          return [], true;
        }
        expected := Next(expected);
        sent := CreateAck(Rr(expected));
        mode := InOrder;
      } else if nextPacket == expected {
        var flushed := buffer.RetrieveNextPacket();
        file := file + Payload(flushed);
        expected := Next(expected);
      } else if expected < highest && !buffer.slots[expected % buffer.slots.Length].valid {
        var srej := CreateAck(Srej(expected));
        var rr := CreateAck(Rr(expected));
        sent := srej + rr;
        mode := Buffering;
      }
    }

    // dataMngmntFSM: in FLUSH no packet is read.
    method DataMngmntFSM(recv: array<byte>, len: nat) returns (sent: seq<seq<byte>>, done: bool)
      requires Valid() && HEADER <= len <= recv.Length == MAX_PDU
      modifies this, buffer, buffer.slots
      ensures Did(if old(mode) == Flushing then FlushStep(h, old(View()))
                  else Receive(h, old(View()), old(recv[..len])), sent, done)
    {
      match mode
      case InOrder => sent, done := InOrderState(recv, len);
      case Buffering => sent, done := BuffState(recv, len);
      case Flushing => sent, done := FlushState();
    }
  }

  // ---------------------------------------------------------------------------
  // What one packet does, in any state of the client.
  // ---------------------------------------------------------------------------

  // A packet that verifies is written exactly when it has number expected, which then goes up
  // by one; an early one is stored and asked for again, once; any other is answered.
  lemma ReceiveOutcome(h: Endian, c: Client, p: Packet)
    requires c.Valid() && |p| >= 7 && c.mode != Flushing && (c.mode == InOrder ==> p[6] != 10)
    ensures var st, n, e := Receive(h, c, p), PacketNum(h, p), c.expected;
      if Cksum(h, p) != 0 then st == Step(c, [], false)
      else
        && !st.done
        && st.next.file == (if n == e then c.file + p[7..] else c.file)
        && st.next.expected == (if n != e then e else if e == 0xFFFF_FFFF then 0 else e + 1)
        && st.next.highest == (if n > e || (n == e && c.mode == InOrder) then n else c.highest)
        && st.next.buffer == (if n > e then RB.Store(h, c.buffer, p) else c.buffer)
        && st.next.mode == (if c.mode == Buffering && n == e then Flushing
                            else if n > e then Buffering else c.mode)
        && st.sent == (if n < e then [Rr(e)]
                       else if c.mode == Buffering then []
                       else if n > e then [Srej(e)] else [Rr(st.next.expected)])
  {
    hide Cksum, PacketNum;
  }

  // While flushing, the slot of the lowest number is written and freed when the expected number
  // is that one or the highest; a gap is reported; and otherwise nothing happens.
  lemma FlushOutcome(h: Endian, c: Client)
    requires c.Valid() && c.mode == Flushing
    ensures var st, e, size := FlushStep(h, c), c.expected, |c.buffer.slots|;
      var at := c.buffer.lowest % size;
      var p := c.buffer.slots[at].packet;
      var ends := e == c.highest && |p| > 6 && p[6] == 10;
      if e == c.highest || e == c.buffer.lowest then
        && st.next.file == (if |p| >= 7 then c.file + p[7..] else c.file)
        && st.next.buffer.slots == c.buffer.slots[at := c.buffer.slots[at].(valid := false)]
        && st.next.highest == c.highest && st.done == ends
        && st.next.expected == (if ends then e else if e == 0xFFFF_FFFF then 0 else e + 1)
        && st.next.mode == (if e == c.highest && !ends then InOrder else Flushing)
        && st.sent == (if e == c.highest && !ends then [Rr(st.next.expected)] else [])
      else if e < c.highest && !c.buffer.slots[e % size].valid then
        st == Step(c.(mode := Buffering), [Srej(e), Rr(e)], false)
      else st == Step(c, [], false)
  {
    hide RB.LeastValid;
  }

  // In order, a packet with flag 10 that verifies ends the download: its payload is written
  // and expected is acknowledged with flag 34, whatever the packet's number.
  lemma EofEnds(h: Endian, c: Client, p: Packet)
    requires c.Valid() && |p| >= 7 && c.mode == InOrder && p[6] == 10
    ensures InOrderStep(h, c, p) ==
      if Cksum(h, p) == 0 then Step(c.(file := c.file + p[7..]), [EofAck(c.expected)], true) else Step(c, [], false)
    ensures EofAck(c.expected).Flag() == 34
  {
    hide Cksum;
  }

  // An early packet with flag 10 is buffered like any other, and ends the download, without
  // an acknowledgement, when it is the last one flushed.
  lemma EofFlushed(h: Endian, c: Client)
    requires RB.Consistent(c.buffer) && c.mode == Flushing && c.expected == c.highest
    requires c.buffer.lowest == c.expected && c.expected in RB.Contents(c.buffer)
    requires |RB.Contents(c.buffer)[c.expected]| >= 7
    ensures var st, p := FlushStep(h, c), RB.Contents(c.buffer)[c.expected];
      && st.done == (p[6] == 10)
      && st.next.file == c.file + p[7..]
      && st.next.highest == c.highest
      && RB.WellPlaced(st.next.buffer) && RB.Contents(st.next.buffer) == RB.Contents(c.buffer) - {c.expected}
      && if p[6] == 10 then st.sent == [] && st.next.mode == Flushing && st.next.expected == c.expected
         else st.sent == [Rr(st.next.expected)] && st.next.mode == InOrder
  {
    RB.RetrieveConsistent(c.buffer);
  }
}
