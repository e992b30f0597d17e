// Lines of the repository that the other modules repair, as they are written, and exactly
// when each of them still does what the repaired line does.
module AsWritten {
  import opened Bytes
  import opened Checksum
  import opened Pdu
  import R = Rcopy
  import RB = ReorderBuffer
  import WB = WindowBuffer
  import S = Server
  import CR = ClientRefinement

  // ---------------------------------------------------------------------------
  // dataMngmntFSM starts every call with expected and highest zero.
  // ---------------------------------------------------------------------------

  function Forgotten(c: R.Client): R.Client {
    c.(expected := 0, highest := 0)
  }

  // The file comes out as it should only for packets that 0 and expected treat alike.
  lemma ForgottenWrites(h: Endian, c: R.Client, p: Packet)
    requires c.Valid() && c.mode != R.Flushing && CR.IsData(p) && Cksum(h, p) == 0
    ensures R.Receive(h, Forgotten(c), p).next.file == R.Receive(h, c, p).next.file
      <==> p[HEADER..] == [] || (PacketNum(h, p) == c.expected <==> PacketNum(h, p) == 0)
  {
    var n, d := PacketNum(h, p), p[HEADER..];
    assert c.file + d == c.file <==> d == [] by {
      assert |c.file + d| == |c.file| + |d|;
    }
    assert R.Receive(h, c, p).next.file == if n == c.expected then c.file + d else c.file;
    assert R.Receive(h, Forgotten(c), p).next.file == if n == 0 then c.file + d else c.file;
  }

  // No acknowledgement ever passes 1, so the server's window never passes 1 either.
  lemma ForgottenAcks(h: Endian, c: R.Client, p: Packet)
    requires c.Valid() && |p| >= HEADER
    ensures c.mode != R.Flushing ==> forall a :: a in R.Receive(h, Forgotten(c), p).sent ==> a.n <= 1
    ensures c.mode == R.Flushing ==> forall a :: a in R.FlushStep(h, Forgotten(c)).sent ==> a.n <= 1
  {
    hide RB.Store, RB.Retrieve, PacketNum, Cksum;
  }

  lemma StaysValid(h: Endian, c: R.Client, p: Packet)
    requires c.Valid() && c.mode != R.Flushing && |p| >= HEADER
    ensures R.Receive(h, c, p).next.Valid()
  {
  }

  // A run of calls, each forgetting both counters, up to the first flush.
  function ReceiveForgetful(h: Endian, c: R.Client, ps: seq<Packet>): R.Client
    requires c.Valid() && forall i :: 0 <= i < |ps| ==> |ps[i]| >= HEADER
    decreases |ps|
  {
    if ps == [] || c.mode == R.Flushing then c
    else
      StaysValid(h, Forgotten(c), ps[0]);
      ReceiveForgetful(h, R.Receive(h, Forgotten(c), ps[0]).next, ps[1..])
  }

  predicate Verified(h: Endian, p: Packet, n: u32) {
    CR.IsData(p) && Cksum(h, p) == 0 && PacketNum(h, p) == n
  }

  lemma FirstForgotten(h: Endian, c: R.Client, p: Packet)
    requires c.Valid() && c.mode == R.InOrder && Verified(h, p, 0)
    ensures R.Receive(h, Forgotten(c), p).next == c.(highest := 0, expected := 1, file := c.file + p[HEADER..])
  {
    hide RB.Store, PacketNum, Cksum;
  }

  lemma SecondForgotten(h: Endian, c: R.Client, q: Packet)
    requires c.Valid() && c.mode == R.InOrder && Verified(h, q, 1)
    ensures var d := R.Receive(h, Forgotten(c), q).next;
      d.Valid() && d.mode == R.Buffering && d.file == c.file
  {
    hide PacketNum, Cksum;
  }

  lemma ThirdForgotten(h: Endian, c: R.Client, p: Packet)
    requires c.Valid() && c.mode == R.Buffering && Verified(h, p, 0)
    ensures var d := R.Receive(h, Forgotten(c), p).next;
      d.Valid() && d.mode == R.Flushing && d.file == c.file + p[HEADER..]
  {
    hide RB.Store, PacketNum, Cksum;
  }

  lemma ForgetfulStep(h: Endian, c: R.Client, p: Packet, ps: seq<Packet>)
    requires c.Valid() && c.mode != R.Flushing && |p| >= HEADER && forall i :: 0 <= i < |ps| ==> |ps[i]| >= HEADER
    requires R.Receive(h, Forgotten(c), p).next.Valid()
    ensures ReceiveForgetful(h, c, [p] + ps) == ReceiveForgetful(h, R.Receive(h, Forgotten(c), p).next, ps)
  {
    hide R.Receive;
    assert ([p] + ps)[1..] == ps;
  }

  // A client that got packets 0 and 1 writes packet 0 again when it is resent.
  lemma ForgottenRepeats(h: Endian, windowSize: nat, p: Packet, q: Packet)
    requires 1 < windowSize <= 0x7FFF_FFFF && Verified(h, p, 0) && Verified(h, q, 1)
    ensures ReceiveForgetful(h, R.Start(windowSize), [p, q, p]).file == p[HEADER..] + p[HEADER..]
  {
    hide R.Receive, PacketNum, Cksum, ReceiveForgetful;
    var a := R.Start(windowSize);
    FirstForgotten(h, a, p);
    var b := R.Receive(h, Forgotten(a), p).next;
    SecondForgotten(h, b, q);
    var c := R.Receive(h, Forgotten(b), q).next;
    ThirdForgotten(h, c, p);
    var d := R.Receive(h, Forgotten(c), p).next;
    ForgetfulStep(h, a, p, [q, p]);
    ForgetfulStep(h, b, q, [p]);
    ForgetfulStep(h, c, p, []);
    ForgetfulEnds(h, d);
    assert [p] + [q, p] == [p, q, p] && [q] + [p] == [q, p] && [p] + [] == [p];
    assert a.file + p[HEADER..] == p[HEADER..];
  }

  lemma ForgetfulEnds(h: Endian, c: R.Client)
    requires c.Valid()
    ensures ReceiveForgetful(h, c, []) == c
  {
  }

  // ---------------------------------------------------------------------------
  // in_order_state returns 2 for EOF and 3 for an early packet; dataMngmntFSM reads
  // 2 as "go to BUFFER" and 3 as "complete".
  // ---------------------------------------------------------------------------

  function InOrderCode(h: Endian, c: R.Client, p: Packet): int
    requires c.Valid() && |p| >= HEADER
  {
    var n := PacketNum(h, p);
    if Cksum(h, p) != 0 then 0
    else if p[6] == EOF then 2
    else if n == c.expected then 1
    else if n > c.expected then 3
    else 0
  }

  // The state after the call and whether it reported the download complete.
  function Dispatched(code: int): (R.Mode, bool) {
    (if code == 2 then R.Buffering else R.InOrder, code == 3)
  }

  lemma CodesAgree(h: Endian, c: R.Client, p: Packet)
    requires c.Valid() && c.mode == R.InOrder && |p| >= HEADER
    ensures var st := R.InOrderStep(h, c, p);
      Dispatched(InOrderCode(h, c, p)) == (st.next.mode, st.done)
      <==> Cksum(h, p) != 0 || (p[6] != EOF && PacketNum(h, p) <= c.expected)
  {
  }

  // One call of that machine on a data packet in IN_ORDER.
  function Misread(h: Endian, c: R.Client, p: Packet): (r: R.Client)
    requires c.Valid() && CR.IsData(p)
    ensures r.Valid() && r.mode == R.InOrder
    ensures r.file == if Cksum(h, p) == 0 && PacketNum(h, p) == c.expected then c.file + p[HEADER..] else c.file
    ensures PacketNum(h, p) != c.expected ==> r.expected == c.expected
  {
    R.InOrderStep(h, c, p).next.(mode := Dispatched(InOrderCode(h, c, p)).0)
  }

  function ReceiveMisread(h: Endian, c: R.Client, ps: seq<Packet>): R.Client
    requires c.Valid() && c.mode == R.InOrder && forall i :: 0 <= i < |ps| ==> CR.IsData(ps[i])
    decreases |ps|
  {
    if ps == [] then c else ReceiveMisread(h, Misread(h, c, ps[0]), ps[1..])
  }

  // No data packet takes that machine out of IN_ORDER, so it never flushes: a run of
  // packets that all come after a missing one writes nothing, even when the buffer fills.
  lemma {:induction false} MisreadNeverFlushes(h: Endian, c: R.Client, ps: seq<Packet>)
    requires c.Valid() && c.mode == R.InOrder && forall i :: 0 <= i < |ps| ==> CR.IsData(ps[i])
    ensures ReceiveMisread(h, c, ps).mode == R.InOrder
    ensures (forall i :: 0 <= i < |ps| ==> PacketNum(h, ps[i]) != c.expected) ==>
      ReceiveMisread(h, c, ps).file == c.file
    decreases |ps|
  {
    hide Misread, PacketNum;
    if ps != [] {
      MisreadNeverFlushes(h, Misread(h, c, ps[0]), ps[1..]);
    }
  }

  // ---------------------------------------------------------------------------
  // retrieveNextPacket assigns the next lowest number to a local variable.
  // ---------------------------------------------------------------------------

  // flush_state over that retrieval.
  function FlushStale(h: Endian, c: R.Client): R.Step
    requires c.Valid()
  {
    var e := c.expected;
    if e == c.highest then
      var (b, p) := RB.RetrieveAsWritten(c.buffer);
      var c' := c.(buffer := b, file := c.file + R.Payload(p));
      if |p| > 6 && p[6] == EOF then R.Step(c', [], true)
      else R.Step(c'.(mode := R.InOrder, expected := R.Next(e)), [Rr(R.Next(e))], false)
    else if c.buffer.lowest == e then
      var (b, p) := RB.RetrieveAsWritten(c.buffer);
      R.Step(c.(expected := R.Next(e), buffer := b, file := c.file + R.Payload(p)), [], false)
    else if e < c.highest && !c.buffer.IsPacketValid(e) then
      R.Step(c.(mode := R.Buffering), [Srej(e), Rr(e)], false)
    else R.Step(c, [], false)
  }

  // Whatever the state, such a flush call differs in nothing but the lowest number it leaves.
  lemma StaleOnlyLowest(h: Endian, c: R.Client)
    requires c.Valid()
    ensures var st := R.FlushStep(h, c);
      FlushStale(h, c) ==
        R.Step(st.next.(buffer := st.next.buffer.(lowest := c.buffer.lowest)), st.sent, st.done)
  {
    hide RB.Retrieve;
  }

  // The first retrieval of a flush is right, but leaves the lowest number behind.
  lemma StaleFirst(h: Endian, c: R.Client)
    requires CR.Good(c) && c.mode == R.Flushing && c.expected < c.highest && c.expected in RB.Contents(c.buffer)
    ensures FlushStale(h, c).next == R.FlushStep(h, c).next.(buffer := RB.RetrieveAsWritten(c.buffer).0)
    ensures FlushStale(h, c).next.buffer.lowest == c.expected
  {
    CR.FlushRetrieves(c);
  }

  lemma StaleSlots(c: R.Client, n: u32)
    requires CR.Good(c) && c.mode == R.Flushing && c.expected in RB.Contents(c.buffer)
    requires c.expected < n <= c.highest
    ensures RB.RetrieveAsWritten(c.buffer).0.IsPacketValid(n) <==> n in RB.Contents(c.buffer)
  {
    var e, size, s := c.expected, |c.buffer.slots|, c.buffer.slots[n % |c.buffer.slots|];
    CR.FlushRetrieves(c);
    RB.ContentsBySlot(c.buffer);
    if n % size == e % size {
      SameSlot(n, e, size);
      assert false;
    }
    if s.valid {
      assert s.num % size == n % size;
      assert s.num in RB.Contents(c.buffer);
      SameSlot(s.num, n, size);
    }
  }

  // The second one never happens: with the next packet there, and more after it, flush_state
  // falls through, changes nothing, and is called again in the same state.
  lemma StaleStalls(h: Endian, c: R.Client)
    requires CR.Good(c) && c.mode == R.Flushing && c.expected + 1 < c.highest && c.expected in RB.Contents(c.buffer)
    ensures var c1 := FlushStale(h, c).next;
      c1.mode == R.Flushing && (FlushStale(h, c1) == R.Step(c1, [], false) <==> c.expected + 1 in RB.Contents(c.buffer))
  {
    hide RB.Contents, RB.WellPlaced, RB.IsLeast, RB.RetrieveAsWritten;
    StaleFirst(h, c);
    StaleSlots(c, c.expected + 1);
  }

  // When the next packet is the last one, the packet before it is written again instead.
  lemma StaleRepeats(h: Endian, c: R.Client)
    requires CR.Good(c) && c.mode == R.Flushing && c.expected + 1 == c.highest && c.expected in RB.Contents(c.buffer)
    ensures var d := RB.Contents(c.buffer)[c.expected];
      |d| >= HEADER && FlushStale(h, FlushStale(h, c).next).next.file == c.file + d[HEADER..] + d[HEADER..]
  {
    StaleFirst(h, c);
    CR.FlushRetrieves(c);
  }

  // ---------------------------------------------------------------------------
  // readFromFile passes a host-order number to createPDU.
  // ---------------------------------------------------------------------------

  lemma HostOrderNumber(h: Endian, g: Endian, data: seq<byte>, n: u32, flag: byte)
    ensures PacketNum(g, Build(h, data, n, flag)) == Htonl(h, n)
    ensures var b := Be32(n); Htonl(h, n) == n <==> h.Big? || (b[0] == b[3] && b[1] == b[2])
  {
    hide Cksum, Unsummed;
    var p, b := Build(h, data, n, flag), Be32(n);
    assert p[0] == p[..4][0] && p[1] == p[..4][1] && p[2] == p[..4][2] && p[3] == p[..4][3];
    NetworkLoad(g, p);
    Be32Inverse(n);
    FromBe32Inverse(b[3], b[2], b[1], b[0]);
  }

  // The window stores the packet where its number says: current advances by one exactly
  // when the number reads the same in both byte orders.
  lemma HostOrderStore(h: Endian, w: WB.Window, data: seq<byte>)
    requires w.Valid() && |data| <= S.MAX_PAYLOAD
    ensures WB.Store(h, w, Build(h, data, w.current, DATA)).current == R.Next(w.current)
      <==> Htonl(h, w.current) == w.current
  {
    hide Htonl, Build, PacketNum, R.Next;
    HostOrderNumber(h, h, data, w.current, DATA);
    NextApart(Htonl(h, w.current), w.current);
  }

  lemma NextApart(a: u32, b: u32)
    ensures (a + 1) % 0x1_0000_0000 == R.Next(b) <==> a == b
  {
  }

  // ---------------------------------------------------------------------------
  // sendtoErr is called with a length that is not the PDU's.
  // ---------------------------------------------------------------------------

  lemma WordSumSplit(h: Endian, a: seq<byte>, b: seq<byte>)
    ensures WordSum(h, a + b) == WordSum(h, a) + WordSum(h, Realigned(|a|, b))
  {
    if |a| % 2 == 0 {
      WordSumConcat(h, a, b);
      assert Realigned(|a|, b) == b;
    } else {
      var k := |a| - 1;
      var front, x := a[..k], a[k];
      assert a == front + [x] && a + b == front + ([x] + b);
      WordSumConcat(h, front, [x]);
      WordSumConcat(h, front, [x] + b);
      HeadByte(h, x, b);
    }
  }

  lemma HeadByte(h: Endian, x: byte, b: seq<byte>)
    ensures WordSum(h, [x] + b) == WordSum(h, [x]) + WordSum(h, [0] + b)
  {
    if b != [] {
      assert ([x] + b)[2..] == b[1..] && ([0] + b)[2..] == b[1..];
    } else {
      assert [x] + b == [x] && [0] + b == [0];
    }
  }

  // The bytes after the first k of a packet, as the sum pairs them.
  function Realigned(k: nat, rest: seq<byte>): seq<byte> {
    (if k % 2 == 0 then [] else [0]) + rest
  }

  lemma RepFull(n: nat)
    ensures Rep(n) == 0xFFFF <==> n > 0 && n % 0xFFFF == 0
  {
  }

  lemma {:induction false} SumPositive(h: Endian, s: seq<byte>)
    ensures WordSum(h, s) > 0 <==> exists i :: 0 <= i < |s| && s[i] > 0
  {
    if |s| >= 2 {
      SumPositive(h, s[2..]);
      if i :| 2 <= i < |s| && s[i] > 0 {
        assert s[2..][i - 2] == s[i];
      }
    }
  }

  // A PDU cut off anywhere is taken for an intact one exactly when something other than zeros
  // is left of it and the lost bytes add up to a multiple of 65535.
  lemma CutOffVerifies(h: Endian, g: Endian, data: seq<byte>, packetNum: u32, flag: byte, size: nat)
    requires size <= HEADER + |data|
    ensures var p := Build(h, data, packetNum, flag);
      Cksum(g, p[..size]) == 0 <==>
        (exists i :: 0 <= i < size && p[i] > 0) && WordSum(g, Realigned(size, p[size..])) % 0xFFFF == 0
    ensures flag > 0 && HEADER <= size ==> Build(h, data, packetNum, flag)[6] > 0
  {
    hide Unsummed, Realigned;
    var p := Build(h, data, packetNum, flag);
    SelfVerifies(h, g, data, packetNum, flag);
    assert p[..size] + p[size..] == p;
    WordSumSplit(g, p[..size], p[size..]);
    OnesSumIsRep(g, p);
    OnesSumIsRep(g, p[..size]);
    RepFull(WordSum(g, p));
    RepFull(WordSum(g, p[..size]));
    SumPositive(g, p[..size]);
    SameResidue(WordSum(g, p[..size]), WordSum(g, Realigned(size, p[size..])));
  }

  // The answer to an SREJ is the stored PDU, sent with the length of the SREJ: four bytes of
  // the chunk go out.  It verifies exactly when the others add up to a multiple of 65535.
  lemma ShortAnswerVerifies(h: Endian, g: Endian, data: seq<byte>, packetNum: u32)
    requires |data| >= 4
    ensures var p := Build(h, data, packetNum, DATA);
      Cksum(g, p[..11]) == 0 <==> WordSum(g, Realigned(11, p[11..])) % 0xFFFF == 0
  {
    hide Unsummed, Realigned, Cksum, WordSum, Build;
    CutOffVerifies(h, g, data, packetNum, DATA, 11);
  }

  // A PDU sent with bytes of an earlier one behind it, as a short last chunk is, is taken for
  // an intact one exactly when those add up to a multiple of 65535.
  lemma OverlongVerifies(h: Endian, g: Endian, data: seq<byte>, packetNum: u32, flag: byte, rest: seq<byte>)
    ensures var p := Build(h, data, packetNum, flag);
      Cksum(g, p + rest) == 0 <==> WordSum(g, Realigned(|p|, rest)) % 0xFFFF == 0
  {
    hide Unsummed, Realigned, Build;
    var p := Build(h, data, packetNum, flag);
    SelfVerifies(h, g, data, packetNum, flag);
    WordSumSplit(g, p, rest);
    OnesSumIsRep(g, p);
    OnesSumIsRep(g, p + rest);
    RepFull(WordSum(g, p));
    RepFull(WordSum(g, p + rest));
    MoreResidue(WordSum(g, p), WordSum(g, Realigned(|p|, rest)));
  }

  lemma MoreResidue(a: nat, b: nat)
    requires a % 0xFFFF == 0
    ensures (a + b) % 0xFFFF == 0 <==> b % 0xFFFF == 0
  {
  }

  lemma SameResidue(a: nat, b: nat)
    requires (a + b) % 0xFFFF == 0
    ensures a % 0xFFFF == 0 <==> b % 0xFFFF == 0
  {
  }

  // ---------------------------------------------------------------------------
  // in_order_state passes 4, or 1 for the end of the file, as the flag of what it sends.
  // ---------------------------------------------------------------------------

  // The server ignores every packet with such a flag, whatever else is in it.
  lemma MisplacedFlagIgnored(h: Endian, s: S.Server, a: Packet)
    requires s.Valid() && |a| >= HEADER
    ensures a[6] in {1, 4} ==> S.ProcessAck(h, s, a) == S.Step(s, [])
    ensures S.ProcessAck(h, s, a) != S.Step(s, []) ==> Cksum(h, a) == 0 && a[6] in {RR, SREJ}
  {
  }
}
