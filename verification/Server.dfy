// server.c: what the server does to its window, file position and reused buffers in
// each branch of serverWindowControl.  Packet numbers go through htonl, a send uses
// the length of the PDU it sends, and the PDU rebuilt for an SREJ is the one sent.
module Server {
  import opened Bytes
  import opened Checksum
  import opened Pdu
  import WB = WindowBuffer

  const MAX_PAYLOAD := 1400

  // pdu is the last PDU that readFromFile built; dest is the resend buffer.
  datatype Server = Server(window: WB.Window, pos: nat, pdu: Packet, dest: seq<byte>) {
    predicate Valid() { window.Valid() && |dest| == MAX_PDU }
  }

  // What one call gives to sendtoErr.
  datatype Step = Step(next: Server, sent: seq<seq<byte>>)

  function Zeros(n: nat): (s: seq<byte>)
    ensures |s| == n && forall i :: 0 <= i < n ==> s[i] == 0
  {
    seq(n, _ => 0)
  }

  function Start(windowSize: nat): Server
    requires 0 < windowSize <= 0x7FFF_FFFF
  {
    Server(WB.Empty(windowSize), 0, [], Zeros(MAX_PDU))
  }

  // fread: the bytes from a position, at most n of them.
  function Read(file: seq<byte>, pos: nat, n: nat): (data: seq<byte>)
    ensures |data| <= n
    ensures pos >= |file| ==> data == []
    ensures pos < |file| ==> data <= file[pos..] && (|data| == n || pos + |data| == |file|)
  {
    if pos >= |file| then []
    else if pos + n <= |file| then file[pos..pos + n]
    else file[pos..]
  }

  // Window open: read a chunk, store and send it.  A zero-byte read builds nothing
  // and the previous PDU goes out again.
  function SendNext(h: Endian, file: seq<byte>, chunk: nat, s: Server): (r: Step)
    requires s.Valid() && chunk <= MAX_PAYLOAD
    ensures r.next.Valid()
  {
    var data := Read(file, s.pos, chunk);
    if data == [] then Step(s, if s.pdu == [] then [] else [s.pdu])
    else
      var p: Packet := Build(h, data, Htonl(h, s.window.current), DATA);
      Step(s.(window := WB.Store(h, s.window, p), pos := s.pos + |data|, pdu := p), [p])
  }

  // Window closed and a timeout: resend the lowest unacknowledged packet.
  function ResendLowest(s: Server): (r: Step)
    requires s.Valid()
    ensures r.next.Valid()
  {
    var (bytes, size) := WB.Retrieve(s.window, s.window.lowest, s.dest);
    Step(s.(dest := bytes), if size == 0 then [] else [bytes[..size]])
  }

  // The receive buffer is zeroed before each packet is read into it.
  function Received(a: Packet): (s: seq<byte>)
    ensures |s| == MAX_PDU
  {
    a + Zeros(MAX_PDU - |a|)
  }

  function ProcessAck(h: Endian, s: Server, a: Packet): (r: Step)
    requires s.Valid()
    ensures r.next.Valid()
  {
    var buffer := Received(a);
    var n := Htonl(h, Load32(h, buffer[HEADER..]));
    if Cksum(h, a) != 0 then Step(s, [])
    else if buffer[6] == EOF_ACK then Step(s, [])
    else if buffer[6] == RR then Step(s.(window := WB.Slide(s.window, n)), [])
    else if buffer[6] == SREJ then
      var (bytes, size) := WB.Retrieve(s.window, n, Zeros(MAX_PDU));
      Step(s, if size < HEADER then [] else [Build(h, bytes[HEADER..size], Htonl(h, n), RESENT)])
    else Step(s, [])
  }

  // An open window sends the next bytes of the file as packet current with flag 16, and keeps
  // that PDU in current's slot; at the end of the file the PDU built last goes out again.
  lemma SendNextFacts(h: Endian, g: Endian, file: seq<byte>, chunk: nat, s: Server)
    requires s.Valid() && 0 < chunk <= 1400
    ensures var st, w := SendNext(h, file, chunk, s), s.window;
      if s.pos >= |file| then st == Step(s, if s.pdu == [] then [] else [s.pdu])
      else
        && |st.sent| == 1
        && var p, end := st.sent[0], if s.pos + chunk <= |file| then s.pos + chunk else |file|;
          && |p| == 7 + end - s.pos && p[7..] == file[s.pos..end] && p[6] == 16
          && PacketNum(g, p) == w.current && Cksum(g, p) == 0
          && st.next.pos == end && st.next.pdu == p && st.next.dest == s.dest
          && st.next.window == w.(slots := w.slots[w.current % |w.slots| := WB.Slot(p, w.current)],
                                  current := if w.current == 0xFFFF_FFFF then 0 else w.current + 1)
  {
    hide Cksum, Build, PacketNum, Htonl;
    if s.pos < |file| {
      var end := if s.pos + chunk <= |file| then s.pos + chunk else |file|;
      var data := Read(file, s.pos, chunk);
      assert data == file[s.pos..end];
      SelfVerifies(h, g, data, Htonl(h, s.window.current), 16);
      NumberRoundTrip(h, g, data, s.window.current, 16);
      NumberRoundTrip(h, h, data, s.window.current, 16);
    }
  }

  // A resend is the packet in lowest's slot; when that is another packet, as many bytes go out
  // of what the resend buffer held before.
  lemma ResendLowestSends(s: Server)
    requires s.Valid()
    ensures var w, st := s.window, ResendLowest(s);
      var slot := w.slots[w.lowest % |w.slots|];
      var out := if slot.num == w.lowest then slot.packet else s.dest[..|slot.packet|];
      && st.sent == (if slot.packet == [] then [] else [out])
      && st.next == s.(dest := out + s.dest[|out|..])
  {
    var w := s.window;
    var slot := w.slots[w.lowest % |w.slots|];
    var q := Splice(s.dest, 0, slot.packet);
    assert q[..|slot.packet|] == slot.packet && q == slot.packet + s.dest[|slot.packet|..];
    assert s.dest == s.dest[..|slot.packet|] + s.dest[|slot.packet|..];
  }

  // Only a packet that verifies, with flag 5 or 6, does anything: an RR sends nothing, and an
  // SREJ changes nothing and sends at most one PDU.
  lemma OnlyRRsAndSREJs(h: Endian, s: Server, a: Packet)
    requires s.Valid()
    ensures var st := ProcessAck(h, s, a);
      && (st != Step(s, []) ==> Cksum(h, a) == 0 && |a| > 6 && a[6] in {5, 6})
      && (|a| > 6 && a[6] == 5 ==> st.sent == [] && st.next == s.(window := st.next.window))
      && (|a| > 6 && a[6] == 6 ==> st.next == s && |st.sent| <= 1)
  {
    hide Cksum, Build;
  }

  // An RR makes its number the lowest one, whatever the number, and moves the other end as far.
  lemma RrSlides(h: Endian, s: Server, a: Packet, n: u32)
    requires s.Valid() && |a| >= 11 && Cksum(h, a) == 0 && a[6] == 5 && a[7..11] == Be32(n)
    ensures var st := ProcessAck(h, s, a);
      && st.sent == []
      && st.next == s.(window := s.window.(lowest := n, highest := st.next.window.highest))
      && (st.next.window.highest - n) % 0x1_0000_0000 == (s.window.highest - s.window.lowest) % 0x1_0000_0000
  {
    hide Cksum, Htonl, Be32;
    var b := Received(a);
    assert b[7..11] == a[7..11];
    ReadsNumber(h, b, n);
    WB.SlideIdentity(s.window, n);
  }

  // An SREJ is answered with as many bytes as its number's slot holds, with the number, flag
  // 17 and the stored chunk; zeros stand for the chunk when the slot has another packet.
  lemma SrejAnswer(h: Endian, s: Server, a: Packet, n: u32)
    requires s.Valid() && |a| >= 11 && Cksum(h, a) == 0 && a[6] == 6 && a[7..11] == Be32(n)
    ensures var slot, st := s.window.slots[n % |s.window.slots|], ProcessAck(h, s, a);
      && st.next == s
      && (|slot.packet| < 7 ==> st.sent == [])
      && (|slot.packet| >= 7 ==>
            && |st.sent| == 1 && |st.sent[0]| == |slot.packet|
            && PacketNum(h, st.sent[0]) == n && st.sent[0][6] == 17 && Cksum(h, st.sent[0]) == 0
            && forall i :: 7 <= i < |slot.packet| ==> st.sent[0][i] == if slot.num == n then slot.packet[i] else 0)
  {
    hide Cksum, Build, Mem16, Mem32, Htonl, PacketNum, FromBe32;
    var slot, b := s.window.slots[n % |s.window.slots|], Received(a);
    assert b[7..11] == a[7..11];
    ReadsNumber(h, b, n);
    var bytes := if slot.num == n then Splice(Zeros(MAX_PDU), 0, slot.packet) else Zeros(MAX_PDU);
    if |slot.packet| >= 7 {
      var data := bytes[7..|slot.packet|];
      var q := Build(h, data, Htonl(h, n), 17);
      assert ProcessAck(h, s, a).sent == [q];
      SelfVerifies(h, h, data, Htonl(h, n), 17);
      NumberRoundTrip(h, h, data, n, 17);
      forall i | 7 <= i < |slot.packet|
        ensures q[i] == if slot.num == n then slot.packet[i] else 0
      {
        assert q[i] == q[7..][i - 7] == bytes[i];
      }
    }
  }

  lemma ReadsNumber(h: Endian, b: seq<byte>, n: u32)
    requires |b| >= 11 && b[7..11] == Be32(n)
    ensures Htonl(h, Load32(h, b[7..])) == n
  {
    hide Htonl, Load32;
    var s := b[7..];
    assert s[..4] == b[7..11];
    assert s[0] == s[..4][0] && s[1] == s[..4][1] && s[2] == s[..4][2] && s[3] == s[..4][3];
    NetworkLoad(h, s);
    Be32Inverse(n);
  }

  class ServerControl {
    const h: Endian
    const file: seq<byte>
    const chunk: nat
    const window: WB.WindowBuffer
    const pdu: array<byte>
    const dest: array<byte>
    var pduLen: nat
    var pos: nat

    ghost predicate Valid()
      reads this
    {
      && window.slots.Length > 0 && pdu.Length == dest.Length == MAX_PDU
      && pduLen <= MAX_PDU && chunk <= MAX_PAYLOAD && pdu != dest
    }

    ghost function View(): Server
      requires Valid()
      reads this, window, window.slots, pdu, dest
    {
      Server(window.View(), pos, pdu[..pduLen], dest[..])
    }

    constructor (h: Endian, file: seq<byte>, chunk: nat, windowSize: nat)
      requires 0 < windowSize <= 0x7FFF_FFFF && 0 < chunk <= MAX_PAYLOAD
      ensures Valid() && View() == Start(windowSize)
      ensures this.h == h && this.file == file && this.chunk == chunk
      ensures pos == pduLen == 0 && window.slots.Length == window.highest == windowSize
      ensures window.lowest == window.current == 0
      ensures fresh(window) && fresh(window.slots) && fresh(pdu) && fresh(dest)
    {
      this.h, this.file, this.chunk := h, file, chunk;
      window := new WB.WindowBuffer.InitWindow(windowSize);
      pdu := new byte[MAX_PDU](_ => 0);
      dest := new byte[MAX_PDU](_ => 0);
      pduLen, pos := 0, 0;
    }

    // readFromFile and the send after it.
    method SendNextChunk() returns (sent: seq<seq<byte>>)
      requires Valid()
      modifies this, window, window.slots, pdu
      ensures Valid() && Step(View(), sent) == SendNext(h, file, chunk, old(View()))
    {
      var data := Read(file, pos, chunk);
      if |data| > 0 {
        var n := CreatePDU(h, pdu, data, Htonl(h, window.current), DATA);
        assert pdu[..n] == Build(h, data, Htonl(h, window.current), DATA);
        window.StoreToWindowBuffer(h, pdu[..n]);
        pos := pos + |data|;
        pduLen := n;
      }
      sent := if pduLen == 0 then [] else [pdu[..pduLen]];
    }

    method ResendLowestPacket() returns (sent: seq<seq<byte>>)
      requires Valid()
      modifies dest
      ensures Step(View(), sent) == ResendLowest(old(View()))
    {
      var size := window.RetrieveLowestPacket(dest);
      sent := if size == 0 then [] else [dest[..size]];
    }

    // processRRs_N_SREJs on one received packet; the result is 3 on an EOF ACK.
    method ProcessRRsAndSREJs(packet: Packet) returns (code: int, sent: seq<seq<byte>>)
      requires Valid()
      modifies window
      ensures Step(View(), sent) == ProcessAck(h, old(View()), packet)
      ensures code == if Cksum(h, packet) == 0 && |packet| > 6 && packet[6] == 34 then 3 else 0
    {
      hide Build, Cksum;
      sent := [];
      var buffer := new byte[MAX_PDU](_ => 0);
      Memcpy(buffer, 0, packet);
      assert buffer[..] == Received(packet);
      var flag := buffer[6];
      assert buffer[..|packet|] == packet;
      var sum := InCksum(h, buffer, |packet|);
      if sum == 0 {
        var num := Htonl(h, Load32(h, buffer[HEADER..]));
        if flag == EOF_ACK {
          return 3, [];
        }
        if flag == RR {
          window.SlideWindow(num);
        } else if flag == SREJ {
          var requested := new byte[MAX_PDU](_ => 0);
          assert requested[..] == Zeros(MAX_PDU);
          var size := window.RetrieveFromWindowBuffer(requested, num);
          if size >= HEADER {
            var resent := new byte[MAX_PDU](_ => 0);
            var n := CreatePDU(h, resent, requested[HEADER..size], Htonl(h, num), RESENT);
            sent := [resent[..n]];
          }
        }
      }
      code := 0;
    }
  }
}
