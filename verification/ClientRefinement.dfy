// The client over bytes and slots refines the client over packet numbers, and
// flushing writes exactly the run of packets it has.
module ClientRefinement {
  import opened Bytes
  import opened Checksum
  import opened Pdu
  import R = Rcopy
  import RB = ReorderBuffer
  import P = Protocol

  function Abs(c: R.Client): P.Client
    requires RB.WellPlaced(c.buffer)
  {
    P.Client(c.mode, c.expected, c.highest, RB.Contents(c.buffer).Keys)
  }

  // A data packet: a header and no end-of-file flag.
  predicate IsData(p: seq<byte>) {
    |p| >= HEADER && p[6] != EOF
  }

  // The client invariant over slots: the buffer is consistent and its numbers are
  // less than a window away from expected.
  ghost predicate Good(c: R.Client) {
    && RB.Consistent(c.buffer)
    && P.ClientInv(Abs(c))
    && c.highest < c.expected + |c.buffer.slots| && c.highest < RB.SENTINEL
    && forall q :: q in RB.Contents(c.buffer) ==> IsData(RB.Contents(c.buffer)[q])
  }

  // isPacketValid compares no numbers, and does not need to.
  lemma ValidFlagMeansBuffered(c: R.Client)
    requires Good(c)
    ensures c.buffer.IsPacketValid(c.expected) <==> c.expected in RB.Contents(c.buffer)
  {
    var e, size := c.expected, |c.buffer.slots|;
    var s := c.buffer.slots[e % size];
    RB.ContentsBySlot(c.buffer);
    if s.valid {
      assert s.num % size == e % size;
      assert s.num in RB.Contents(c.buffer);
      SameSlot(s.num, e, size);
    }
  }

  // A packet beyond expected and within the window replaces no other packet.
  lemma ArrivalCollidesWithNothing(h: Endian, c: R.Client, p: Packet)
    requires Good(c) && c.mode != R.Flushing && |p| >= 4
    requires c.expected < PacketNum(h, p) < c.expected + |c.buffer.slots| && PacketNum(h, p) < RB.SENTINEL
    ensures RB.CollisionFree(h, c.buffer, p)
  {
    var n, size := PacketNum(h, p), |c.buffer.slots|;
    RB.ContentsBySlot(c.buffer);
    forall q | q in RB.Contents(c.buffer) && q % size == n % size
      ensures q == n
    {
      SameSlot(q, n, size);
    }
  }

  // A step of the machine shows as client a, acknowledgements acks, buffer contents m
  // and the given bytes appended to the file.
  ghost predicate Shows(c: R.Client, st: R.Step, out: (P.Client, seq<Ack>), m: map<nat, Packet>, bytes: seq<byte>) {
    && RB.Consistent(st.next.buffer) && |st.next.buffer.slots| == |c.buffer.slots|
    && RB.Contents(st.next.buffer) == m
    && Abs(st.next) == out.0
    && st.next.file == c.file + bytes
    && st.sent == out.1 && Fit(st.sent) && !st.done
  }

  lemma EarlyRefines(h: Endian, c: R.Client, p: Packet)
    requires Good(c) && c.mode != R.Flushing && IsData(p) && Cksum(h, p) == 0
    requires c.expected < PacketNum(h, p) < c.expected + |c.buffer.slots| && PacketNum(h, p) < RB.SENTINEL
    ensures Shows(c, R.Receive(h, c, p), P.Receive(Abs(c), PacketNum(h, p)),
                  RB.Contents(c.buffer)[PacketNum(h, p) := p], [])
  {
    hide RB.Contents, RB.IsLeast, P.ClientInv, PacketNum, Cksum;
    ArrivalCollidesWithNothing(h, c, p);
    RB.StoreConsistent(h, c.buffer, p);
    var n, m := PacketNum(h, p), RB.Contents(c.buffer);
    assert m[n := p].Keys == m.Keys + {n};
    if c.mode == R.InOrder {
      assert R.InOrderStep(h, c, p).next == c.(mode := R.Buffering, highest := n, buffer := RB.Store(h, c.buffer, p));
    } else {
      assert R.BufferStep(h, c, p).next == c.(highest := n, buffer := RB.Store(h, c.buffer, p));
    }
  }

  lemma ExpectedInOrder(h: Endian, c: R.Client, p: Packet)
    requires RB.Consistent(c.buffer) && c.expected < RB.SENTINEL && c.mode == R.InOrder
    requires IsData(p) && Cksum(h, p) == 0 && PacketNum(h, p) == c.expected
    ensures Shows(c, R.InOrderStep(h, c, p), P.Receive(Abs(c), c.expected), RB.Contents(c.buffer), p[HEADER..])
  {
    var e := c.expected;
    hide RB.Contents, RB.IsLeast, PacketNum;
    assert R.InOrderStep(h, c, p).next == c.(highest := e, expected := e + 1, file := c.file + p[HEADER..]);
  }

  lemma ExpectedBuffering(h: Endian, c: R.Client, p: Packet)
    requires RB.Consistent(c.buffer) && c.expected < RB.SENTINEL && c.mode == R.Buffering
    requires IsData(p) && Cksum(h, p) == 0 && PacketNum(h, p) == c.expected
    ensures Shows(c, R.BufferStep(h, c, p), P.Receive(Abs(c), c.expected), RB.Contents(c.buffer), p[HEADER..])
  {
    var e := c.expected;
    hide RB.Contents, RB.IsLeast, PacketNum;
    assert R.BufferStep(h, c, p).next == c.(mode := R.Flushing, expected := e + 1, file := c.file + p[HEADER..]);
  }

  lemma OldRefines(h: Endian, c: R.Client, p: Packet)
    requires RB.Consistent(c.buffer) && c.mode != R.Flushing
    requires IsData(p) && Cksum(h, p) == 0 && PacketNum(h, p) < c.expected
    ensures Shows(c, R.Receive(h, c, p), P.Receive(Abs(c), PacketNum(h, p)), RB.Contents(c.buffer), [])
  {
  }

  lemma ReceiveRefines(h: Endian, c: R.Client, p: Packet)
    requires Good(c) && c.mode != R.Flushing && IsData(p) && Cksum(h, p) == 0
    requires PacketNum(h, p) < c.expected + |c.buffer.slots| && PacketNum(h, p) < RB.SENTINEL
    ensures var n, e, m := PacketNum(h, p), c.expected, RB.Contents(c.buffer);
      Shows(c, R.Receive(h, c, p), P.Receive(Abs(c), n),
        if n > e then m[n := p] else m, if n == e then p[HEADER..] else [])
  {
    var n, e := PacketNum(h, p), c.expected;
    if n > e {
      EarlyRefines(h, c, p);
    } else if n == e {
      if c.mode == R.InOrder {
        ExpectedInOrder(h, c, p);
      } else {
        ExpectedBuffering(h, c, p);
      }
    } else {
      OldRefines(h, c, p);
    }
  }

  // While flushing, a buffered expected packet is the one retrieveNextPacket returns.
  lemma FlushRetrieves(c: R.Client)
    requires Good(c) && c.mode == R.Flushing && c.expected in RB.Contents(c.buffer)
    ensures c.buffer.lowest == c.expected
    ensures var e, m := c.expected, RB.Contents(c.buffer);
      var (b, p) := RB.Retrieve(c.buffer);
      RB.Consistent(b) && |b.slots| == |c.buffer.slots| && p == m[e] && IsData(p)
      && RB.Contents(b) == m - {e} && RB.Contents(b).Keys == m.Keys - {e}
  {
    RB.RetrieveConsistent(c.buffer);
  }

  lemma FlushLastRefines(h: Endian, c: R.Client)
    requires Good(c) && c.mode == R.Flushing && c.expected == c.highest
    ensures var e, m := c.expected, RB.Contents(c.buffer);
      e in m && Shows(c, R.FlushStep(h, c), P.Flush(Abs(c)), m - {e}, m[e][HEADER..])
  {
    FlushRetrieves(c);
  }

  lemma FlushMoreRefines(h: Endian, c: R.Client)
    requires Good(c) && c.mode == R.Flushing && c.expected < c.highest && c.expected in RB.Contents(c.buffer)
    ensures var e, m := c.expected, RB.Contents(c.buffer);
      Shows(c, R.FlushStep(h, c), P.Flush(Abs(c)), m - {e}, m[e][HEADER..])
  {
    FlushRetrieves(c);
  }

  lemma FlushGapRefines(h: Endian, c: R.Client)
    requires Good(c) && c.mode == R.Flushing && c.expected !in RB.Contents(c.buffer)
    ensures Shows(c, R.FlushStep(h, c), P.Flush(Abs(c)), RB.Contents(c.buffer), [])
  {
    ValidFlagMeansBuffered(c);
    var e := c.expected;
    assert R.FlushStep(h, c) == R.Step(c.(mode := R.Buffering), [Srej(e), Rr(e)], false);
  }

  // ---------------------------------------------------------------------------
  // Flushing to the end.
  // ---------------------------------------------------------------------------

  lemma FlushRefines(h: Endian, c: R.Client)
    requires Good(c) && c.mode == R.Flushing
    ensures var e, m := c.expected, RB.Contents(c.buffer);
      Shows(c, R.FlushStep(h, c), P.Flush(Abs(c)), m - {e}, if e in m then m[e][HEADER..] else [])
  {
    var e, m := c.expected, RB.Contents(c.buffer);
    if e == c.highest {
      FlushLastRefines(h, c);
    } else if e in m {
      FlushMoreRefines(h, c);
    } else {
      FlushGapRefines(h, c);
      assert m - {e} == m;
    }
  }

  // A flush step never stalls: it writes a packet or reports the gap.
  lemma FlushKeepsGood(h: Endian, c: R.Client)
    requires Good(c) && c.mode == R.Flushing
    ensures var n := R.FlushStep(h, c).next;
      && Good(n) && n.highest == c.highest
      && (n.mode == R.Flushing ==> n.expected == c.expected + 1 <= c.highest)
  {
    FlushRefines(h, c);
    P.FlushKeepsClientInv(Abs(c));
  }

  // dataMngmntFSM called until it leaves FLUSH.
  function FlushAll(h: Endian, c: R.Client): (R.Client, seq<Ack>)
    requires Good(c) && c.mode == R.Flushing
    decreases c.highest - c.expected
  {
    FlushKeepsGood(h, c);
    var st := R.FlushStep(h, c);
    if st.next.mode == R.Flushing then
      var (c', acks) := FlushAll(h, st.next);
      (c', st.sent + acks)
    else (st.next, st.sent)
  }

  ghost predicate Held(m: map<nat, Packet>, lo: nat, hi: nat) {
    forall n :: lo <= n < hi ==> n in m && |m[n]| >= HEADER
  }

  // The payloads of packets lo to hi - 1, joined.
  ghost function Joined(m: map<nat, Packet>, lo: nat, hi: nat): seq<byte>
    requires Held(m, lo, hi)
    decreases hi - lo
  {
    if lo >= hi then [] else m[lo][HEADER..] + Joined(m, lo + 1, hi)
  }

  lemma {:induction false} JoinedWithout(m: map<nat, Packet>, e: nat, lo: nat, hi: nat)
    requires Held(m, lo, hi) && e < lo
    ensures Held(m - {e}, lo, hi) && Joined(m - {e}, lo, hi) == Joined(m, lo, hi)
    decreases hi - lo
  {
    if lo < hi {
      JoinedWithout(m, e, lo + 1, hi);
    }
  }

  // What flushing to the end leaves, from contents m, numbers e to top and a file: the
  // maximal run from e is written, and the machine is in order with nothing buffered, or
  // buffering behind the first gap, which it has reported.
  ghost predicate Flushed(m: map<nat, Packet>, e: nat, top: nat, file: seq<byte>, c: R.Client, acks: seq<Ack>) {
    var g := c.expected;
    && RB.WellPlaced(c.buffer) && c.highest == top && e <= g <= top + 1
    && Held(m, e, g) && g !in m
    && c.file == file + Joined(m, e, g)
    && RB.Contents(c.buffer) == From(m, g)
    && if g > top then c.mode == R.InOrder && From(m, g) == map[] && acks == [Rr(g)]
       else c.mode == R.Buffering && acks == [Srej(g), Rr(g)]
  }

  ghost function From(m: map<nat, Packet>, g: nat): map<nat, Packet> {
    map n | n in m && n >= g :: m[n]
  }

  lemma FlushLastEnds(h: Endian, c: R.Client)
    requires Good(c) && c.mode == R.Flushing && c.expected == c.highest
    ensures var st := R.FlushStep(h, c);
      st.next.mode != R.Flushing && Flushed(RB.Contents(c.buffer), c.expected, c.highest, c.file, st.next, st.sent)
  {
    FlushKeepsGood(h, c);
    FlushLastRefines(h, c);
    var m, e := RB.Contents(c.buffer), c.expected;
    assert From(m, e + 1) == map[] == m - {e};
    assert Joined(m, e, e + 1) == m[e][HEADER..] + Joined(m, e + 1, e + 1);
  }

  lemma FlushGapEnds(h: Endian, c: R.Client)
    requires Good(c) && c.mode == R.Flushing && c.expected !in RB.Contents(c.buffer)
    ensures var st := R.FlushStep(h, c);
      st.next.mode != R.Flushing && Flushed(RB.Contents(c.buffer), c.expected, c.highest, c.file, st.next, st.sent)
  {
    FlushKeepsGood(h, c);
    FlushGapRefines(h, c);
    var m, e := RB.Contents(c.buffer), c.expected;
    assert From(m, e) == m;
    assert Joined(m, e, e) == [];
  }

  lemma FlushedFurther(m: map<nat, Packet>, e: nat, top: nat, file: seq<byte>, c: R.Client, acks: seq<Ack>)
    requires e in m && |m[e]| >= HEADER
    requires Flushed(m - {e}, e + 1, top, file + m[e][HEADER..], c, acks)
    ensures Flushed(m, e, top, file, c, acks)
  {
    hide RB.Contents, RB.WellPlaced;
    var g := c.expected;
    forall n | e + 1 <= n < g
      ensures n in m && |m[n]| >= HEADER
    {
      assert n in m - {e} && (m - {e})[n] == m[n];
    }
    JoinedWithout(m, e, e + 1, g);
    assert From(m, g) == From(m - {e}, g);
    assert file + m[e][HEADER..] + Joined(m, e + 1, g) == file + Joined(m, e, g);
  }

  lemma FlushMoreStep(h: Endian, c: R.Client)
    requires Good(c) && c.mode == R.Flushing && c.expected < c.highest && c.expected in RB.Contents(c.buffer)
    ensures var e, m, st := c.expected, RB.Contents(c.buffer), R.FlushStep(h, c);
      && Good(st.next) && IsData(m[e])
      && st.next.mode == R.Flushing && st.next.expected == e + 1 && st.next.highest == c.highest && st.sent == []
      && st.next.file == c.file + m[e][HEADER..] && RB.Contents(st.next.buffer) == m - {e}
  {
    FlushMoreRefines(h, c);
    FlushKeepsGood(h, c);
  }

  lemma FlushAllSteps(h: Endian, c: R.Client)
    requires Good(c) && c.mode == R.Flushing
    ensures var st := R.FlushStep(h, c);
      if st.next.mode == R.Flushing
      then
        && Good(st.next) && st.next.expected == c.expected + 1
        && (st.sent == [] ==> FlushAll(h, c) == FlushAll(h, st.next))
      else Good(st.next) && FlushAll(h, c) == (st.next, st.sent)
  {
    FlushKeepsGood(h, c);
    hide RB.Contents, RB.WellPlaced, RB.IsLeast, R.FlushStep, P.ClientInv;
    var st := R.FlushStep(h, c);
    if st.next.mode == R.Flushing {
      assert [] + FlushAll(h, st.next).1 == FlushAll(h, st.next).1;
    }
  }

  lemma FlushBound(c: R.Client)
    requires Good(c)
    ensures c.Valid() && RB.WellPlaced(c.buffer) && (c.mode == R.Flushing ==> c.expected <= c.highest)
  {
    hide RB.Contents, RB.IsLeast;
  }

  // The file after flushing to the end of what c has.
  ghost predicate WritesRun(h: Endian, c: R.Client)
    requires Good(c) && c.mode == R.Flushing
  {
    var m, e := RB.Contents(c.buffer), c.expected;
    Good(FlushAll(h, c).0) && Flushed(m, e, c.highest, c.file, FlushAll(h, c).0, FlushAll(h, c).1)
  }

  lemma FlushOnWritesRun(h: Endian, c: R.Client)
    requires Good(c) && c.mode == R.Flushing && c.expected < c.highest && c.expected in RB.Contents(c.buffer)
    requires var n := R.FlushStep(h, c).next; Good(n) && n.mode == R.Flushing && WritesRun(h, n)
    ensures WritesRun(h, c)
  {
    hide RB.Contents, RB.WellPlaced, RB.IsLeast, R.FlushStep, P.ClientInv, Good, Flushed, FlushAll;
    FlushBound(c);
    FlushBound(R.FlushStep(h, c).next);
    var m, e := RB.Contents(c.buffer), c.expected;
    FlushAllSteps(h, c);
    FlushMoreStep(h, c);
    FlushedFurther(m, e, c.highest, c.file, FlushAll(h, c).0, FlushAll(h, c).1);
  }

  lemma FlushEndWritesRun(h: Endian, c: R.Client)
    requires Good(c) && c.mode == R.Flushing
    requires c.expected == c.highest || c.expected !in RB.Contents(c.buffer)
    ensures WritesRun(h, c)
  {
    hide RB.Contents, RB.WellPlaced, RB.IsLeast, R.FlushStep, P.ClientInv, Good, Flushed, FlushAll;
    FlushBound(c);
    FlushAllSteps(h, c);
    if c.expected == c.highest {
      FlushLastEnds(h, c);
    } else {
      FlushGapEnds(h, c);
    }
  }

  lemma {:induction false} FlushAllWritesRun(h: Endian, c: R.Client)
    requires Good(c) && c.mode == R.Flushing
    ensures Good(FlushAll(h, c).0)
    ensures Flushed(RB.Contents(c.buffer), c.expected, c.highest, c.file, FlushAll(h, c).0, FlushAll(h, c).1)
    decreases c.highest - c.expected
  {
    hide RB.Contents, RB.WellPlaced, RB.IsLeast, R.FlushStep, P.ClientInv, Good, Flushed, FlushAll;
    FlushBound(c);
    if c.expected == c.highest || c.expected !in RB.Contents(c.buffer) {
      FlushEndWritesRun(h, c);
    } else {
      FlushMoreStep(h, c);
      FlushAllWritesRun(h, R.FlushStep(h, c).next);
      FlushOnWritesRun(h, c);
    }
  }
}
