// The whole system over bytes: server, client, their error libraries and the two
// channels.  It refines the protocol over packet numbers, and so the client's file is
// always the prefix of the server's file that its expected number stands for.
module EndToEnd {
  import opened Bytes
  import opened Checksum
  import opened Pdu
  import R = Rcopy
  import RB = ReorderBuffer
  import WB = WindowBuffer
  import S = Server
  import P = Protocol
  import E = ErrorChannel
  import CR = ClientRefinement
  import L = ServerLoop

  // A quotient rounded up counts the multiples below n.
  lemma Ceiling(n: nat, c: nat, p: nat)
    requires c > 0
    ensures p * c < n <==> p < (n + c - 1) / c
  {
    var q, r := (n + c - 1) / c, (n + c - 1) % c;
    assert n + c - 1 == c * q + r;
    Apart(c, q, p);
    Apart(c, p, q);
  }

  lemma Apart(c: nat, a: nat, b: nat)
    ensures c * a == c * b + c * (a - b)
    ensures a > b ==> c * (a - b) >= c
    ensures a >= b ==> c * a >= c * b
  {
    Scaled(c, a - b);
  }

  // Byte orders of the two hosts, the file, the chunk size, the window size, and whether
  // acknowledgements may be damaged.
  datatype Config = Config(server: Endian, client: Endian, file: seq<byte>, chunk: nat, window: nat, noisy: bool) {
    // Numbers stay clear of the sentinel and of the 32-bit wrap.
    ghost predicate Valid() {
      && 0 < chunk <= S.MAX_PAYLOAD && 0 < window <= 0x7FFF_FFFF
      && Total() + window < RB.SENTINEL
    }

    // How many chunks the file has.
    function Total(): nat
      requires chunk > 0
    {
      (|file| + chunk - 1) / chunk
    }

    // Where chunk p starts.
    function Pos(p: nat): (r: nat)
      ensures r <= |file|
    {
      if p * chunk <= |file| then p * chunk else |file|
    }

    lemma PosNext(p: nat)
      ensures Pos(p) <= Pos(p + 1)
      ensures Pos(p + 1) == if Pos(p) + chunk <= |file| then Pos(p) + chunk else |file|
    {
    }

    lemma BeforeEnd(p: nat)
      requires chunk > 0
      ensures Pos(p) < |file| <==> p < Total()
    {
      Ceiling(|file|, chunk, p);
    }

    function Chunk(p: nat): seq<byte> {
      PosNext(p);
      file[Pos(p)..Pos(p + 1)]
    }

    function Prefix(p: nat): seq<byte> {
      file[..Pos(p)]
    }

    lemma PrefixNext(p: nat)
      ensures Prefix(p) + Chunk(p) == Prefix(p + 1)
    {
    }

    lemma {:induction false} PosMonotone(p: nat, q: nat)
      requires p <= q
      ensures Pos(p) <= Pos(q) && Prefix(p) <= Prefix(q)
      decreases q
    {
      if p < q {
        PosMonotone(p, q - 1);
        PosNext(q - 1);
      }
    }

    // Whether the last chunk is a full one.
    predicate Even()
      requires chunk > 0
    {
      |file| % chunk == 0
    }

    // A read is short at the end of the file only: for a last chunk that is not full, or
    // after the last one.
    lemma ReadIsShort(p: nat)
      requires chunk > 0 && p <= Total()
      ensures |S.Read(file, Pos(p), chunk)| < chunk <==> p == Total() || (p + 1 == Total() && !Even())
    {
      hide S.Read;
      ReadIsChunk(p);
      PosNext(p);
      BeforeEnd(p);
      BeforeEnd(p + 1);
      if p + 1 == Total() {
        assert Pos(p) == chunk * p;
        Multiples(|file|, p);
      }
    }

    // With n in the last chunk's range, n is a multiple exactly when it is its end.
    lemma Multiples(n: nat, p: nat)
      requires chunk > 0 && chunk * p < n <= chunk * p + chunk
      ensures n % chunk == 0 <==> n == chunk * p + chunk
    {
      var q := n / chunk;
      assert n == chunk * q + n % chunk;
      Scaled(chunk, q - p);
      Scaled(chunk, q - p - 1);
      assert chunk * q == chunk * p + chunk * (q - p) == chunk * p + chunk + chunk * (q - p - 1);
    }

    lemma ReadIsChunk(p: nat)
      requires chunk > 0
      ensures S.Read(file, Pos(p), chunk) == Chunk(p)
      ensures Chunk(p) == [] <==> p >= Total()
      ensures |Chunk(p)| <= chunk && Pos(p + 1) == Pos(p) + |Chunk(p)|
    {
      PosNext(p);
      BeforeEnd(p);
    }
  }

  // The PDU that carries chunk p.
  function DataPdu(k: Config, p: u32, flag: byte): (q: seq<byte>) {
    Build(k.server, k.Chunk(p), Htonl(k.server, p), flag)
  }

  lemma DataPduFacts(k: Config, p: u32, flag: byte)
    requires k.Valid()
    ensures var q := DataPdu(k, p, flag);
      && HEADER <= |q| <= MAX_PDU && q[6] == flag && q[HEADER..] == k.Chunk(p)
      && Cksum(k.client, q) == 0 && PacketNum(k.client, q) == p && PacketNum(k.server, q) == p
  {
    k.ReadIsChunk(p);
    SelfVerifies(k.server, k.client, k.Chunk(p), Htonl(k.server, p), flag);
    NumberRoundTrip(k.server, k.client, k.Chunk(p), p, flag);
    NumberRoundTrip(k.server, k.server, k.Chunk(p), p, flag);
  }

  // The number a server of byte order h reads from an acknowledgement.
  function AckNumber(h: Endian, q: seq<byte>): u32
    requires |q| == 11
  {
    Htonl(h, Load32(h, q[HEADER..]))
  }

  lemma AckPduFacts(k: Config, a: Ack)
    requires a.n < 0x1_0000_0000
    ensures var q := AckPdu(k.client, a);
      Cksum(k.server, q) == 0 && q[6] == a.Flag() && AckNumber(k.server, q) == a.n
    ensures var q := AckPdu(k.client, a);
      && q[..4] == [0, 0, 0, 0] && q[7..] == Be32(a.n)
      && q[6] == match a { case Rr(_) => 5 case Srej(_) => 6 case EofAck(_) => 34 }
  {
    var data := Mem32(k.client, Htonl(k.client, a.n));
    SelfVerifies(k.client, k.server, data, 0, a.Flag());
    NetworkImage(k.client, a.n);
    NetworkLoad(k.server, data);
    Be32Inverse(a.n);
  }

  // ---------------------------------------------------------------------------
  // Channels.
  // ---------------------------------------------------------------------------

  function Num(h: Endian, q: seq<byte>): nat {
    if |q| >= 4 then PacketNum(h, q) else 0
  }

  function AckOf(h: Endian, q: seq<byte>): Ack {
    if |q| != 11 then Rr(0)
    else if q[6] == SREJ then Srej(AckNumber(h, q))
    else Rr(AckNumber(h, q))
  }

  // What a host of byte order h makes of a packet; None: it discards it.
  function NumOf(h: Endian, q: seq<byte>): Option<nat> {
    if Cksum(h, q) == 0 then Some(Num(h, q)) else None
  }

  function AckSeen(h: Endian, q: seq<byte>): Option<Ack> {
    if Cksum(h, q) == 0 then Some(AckOf(h, q)) else None
  }

  function Nums(h: Endian, ch: seq<seq<byte>>): seq<Option<nat>> {
    seq(|ch|, i requires 0 <= i < |ch| => NumOf(h, ch[i]))
  }

  function Acks(h: Endian, ch: seq<seq<byte>>): seq<Option<Ack>> {
    seq(|ch|, i requires 0 <= i < |ch| => AckSeen(h, ch[i]))
  }

  // ---------------------------------------------------------------------------
  // The system and its steps.
  // ---------------------------------------------------------------------------

  datatype World = World(
    server: S.Server, eof: bool, at: L.At, client: R.Client,
    toClient: seq<seq<byte>>, toServer: seq<seq<byte>>,
    serverErrors: E.Manager, clientErrors: E.Manager) {

    predicate Valid() { server.Valid() && client.Valid() }

    function Loop(): L.Loop { L.Loop(server, eof, at) }
  }

  // A step, with the random draws of its sends; the network may also lose any packet, or
  // damage it to q so that it does not verify.
  datatype Label =
    | SendNext(ds: seq<E.Draws>)
    | Timeout(ds: seq<E.Draws>)
    | RecvAck(ds: seq<E.Draws>)
    | Proceed
    | RecvData(ds: seq<E.Draws>)
    | Flush(ds: seq<E.Draws>)
    | LoseData(i: nat)
    | LoseAck(i: nat)
    | DamageData(i: nat, q: Packet)
    | DamageAck(i: nat, q: Packet)

  // The server's loop took turn t, and what it sent went through sendtoErr.
  ghost predicate ServerTurn(k: Config, w: World, t: L.Turn, ds: seq<E.Draws>, toServer: seq<seq<byte>>, w': World)
    requires k.chunk <= S.MAX_PAYLOAD && w.Valid()
  {
    L.Allowed(w.Loop(), t) && ServerSends(w, L.Take(k.server, k.file, k.chunk, w.Loop(), t), ds, toServer, w')
  }

  ghost predicate ServerSends(w: World, st: L.Step, ds: seq<E.Draws>, toServer: seq<seq<byte>>, w': World) {
    && E.Drawn(w.serverErrors, st.sent, ds)
    && w' == w.(server := st.next.server, eof := st.next.eof, at := st.next.at, toServer := toServer,
                serverErrors := E.SendRun(w.serverErrors, st.sent, ds).0,
                toClient := w.toClient + E.SendRun(w.serverErrors, st.sent, ds).1)
  }

  ghost predicate ClientSends(k: Config, w: World, st: R.Step, ds: seq<E.Draws>, toClient: seq<seq<byte>>, w': World) {
    && Fit(st.sent)
    && E.Drawn(w.clientErrors, AckPdus(k.client, st.sent), ds)
    && w' == w.(client := st.next, toClient := toClient,
                clientErrors := E.SendRun(w.clientErrors, AckPdus(k.client, st.sent), ds).0,
                toServer := w.toServer + E.SendRun(w.clientErrors, AckPdus(k.client, st.sent), ds).1)
  }

  ghost predicate Next(k: Config, w: World, l: Label, w': World)
    requires k.chunk <= S.MAX_PAYLOAD && w.Valid()
  {
    match l
    case SendNext(ds) => ServerTurn(k, w, L.Send, ds, w.toServer, w')
    case Timeout(ds) => ServerTurn(k, w, L.Resend, ds, w.toServer, w')
    case Proceed => ServerTurn(k, w, L.Proceed, [], w.toServer, w')
    case RecvAck(ds) =>
      && w.toServer != [] && |w.toServer[0]| <= MAX_PDU
      && ServerTurn(k, w, L.Handle(w.toServer[0]), ds, w.toServer[1..], w')
    case RecvData(ds) =>
      && w.client.mode != R.Flushing
      && w.toClient != [] && HEADER <= |w.toClient[0]| <= MAX_PDU
      && ClientSends(k, w, R.Receive(k.client, w.client, w.toClient[0]), ds, w.toClient[1..], w')
    case Flush(ds) =>
      && w.client.mode == R.Flushing && w.toClient != []
      && ClientSends(k, w, R.FlushStep(k.client, w.client), ds, w.toClient, w')
    case LoseData(i) =>
      && i < |w.toClient|
      && w' == w.(toClient := w.toClient[..i] + w.toClient[i + 1..])
    case LoseAck(i) =>
      && i < |w.toServer|
      && w' == w.(toServer := w.toServer[..i] + w.toServer[i + 1..])
    case DamageData(i, q) =>
      && i < |w.toClient| && |q| == |w.toClient[i]| && Cksum(k.client, q) != 0
      && w' == w.(toClient := w.toClient[..i] + [q] + w.toClient[i + 1..])
    case DamageAck(i, q) =>
      && k.noisy && i < |w.toServer| && |q| == |w.toServer[i]| && Cksum(k.server, q) != 0
      && w' == w.(toServer := w.toServer[..i] + [q] + w.toServer[i + 1..])
  }

  // Both error libraries may be set up in any way that has no standard flip; the client's has
  // no flip at all when acknowledgements may not be damaged.
  predicate Initial(k: Config, w: World)
    requires k.Valid()
  {
    && w.server == S.Start(k.window) && !w.eof && w.at == L.Top && w.client == R.Start(k.window)
    && w.toClient == [] && w.toServer == []
    && E.FlipBits !in w.serverErrors.standard && E.FlipBits !in w.clientErrors.standard
    && (k.noisy || E.FlipBits !in w.clientErrors.chance)
  }

  // ---------------------------------------------------------------------------
  // The invariant over bytes, and the protocol state a world stands for.
  // ---------------------------------------------------------------------------

  // The packets the server has sent and not seen acknowledged.
  function Outstanding(k: Config, lowest: u32, current: u32): map<nat, Packet>
    requires k.Valid()
  {
    map p: u32 | lowest <= p < current :: Stored(k, p)
  }

  function Stored(k: Config, p: u32): Packet
    requires k.Valid()
  {
    DataPduFacts(k, p, DATA);
    DataPdu(k, p, DATA)
  }

  ghost predicate ServerWF(k: Config, s: S.Server)
    requires k.Valid()
  {
    && s.Valid() && |s.window.slots| == k.window && s.window.current <= k.Total()
    && WB.Holds(s.window, Outstanding(k, s.window.lowest, s.window.current))
    && s.pos == k.Pos(s.window.current)
    && s.pdu == if s.window.current == 0 then [] else Stored(k, s.window.current - 1)
  }

  // A PDU carrying chunk n, first sent or resent.
  predicate Carries(k: Config, q: seq<byte>, n: nat) {
    n < 0x1_0000_0000 && (q == DataPdu(k, n, DATA) || q == DataPdu(k, n, RESENT))
  }

  ghost predicate ClientWF(k: Config, c: R.Client)
    requires k.Valid()
  {
    && RB.Consistent(c.buffer) && |c.buffer.slots| == k.window
    && c.file == k.Prefix(c.expected)
    && forall n :: n in RB.Contents(c.buffer) ==> n < k.Total() && Carries(k, RB.Contents(c.buffer)[n], n)
  }

  // What may be in flight: damaged packets that do not verify, and genuine ones.
  predicate DataInFlight(k: Config, q: seq<byte>)
    requires k.Valid()
  {
    && HEADER <= |q| <= MAX_PDU
    && (Cksum(k.client, q) == 0 ==> Num(k.client, q) < k.Total() && Carries(k, q, Num(k.client, q)))
  }

  predicate AckInFlight(k: Config, q: seq<byte>) {
    && |q| == 11
    && (Cksum(k.server, q) == 0 ==> AckOf(k.server, q).n < 0x1_0000_0000 && q == AckPdu(k.client, AckOf(k.server, q)))
  }

  // No acknowledgement is damaged, and none will be.
  predicate Unspoilt(k: Config, toServer: seq<seq<byte>>, m: E.Manager) {
    E.FlipBits !in m.chance && forall q :: q in toServer ==> Cksum(k.server, q) == 0
  }

  ghost predicate WF(k: Config, w: World)
    requires k.Valid()
  {
    && ServerWF(k, w.server) && ClientWF(k, w.client)
    && (forall q :: q in w.toClient ==> DataInFlight(k, q))
    && (forall q :: q in w.toServer ==> AckInFlight(k, q))
    && E.FlipBits !in w.serverErrors.standard && E.FlipBits !in w.clientErrors.standard
    && (k.noisy || Unspoilt(k, w.toServer, w.clientErrors))
  }

  ghost function Abs(k: Config, w: World): P.State
    requires RB.WellPlaced(w.client.buffer)
  {
    P.State(w.server.window.lowest, w.server.window.current, CR.Abs(w.client),
            Nums(k.client, w.toClient), Acks(k.server, w.toServer), w.at, w.eof)
  }

  function Params(k: Config): P.Params
    requires k.Valid()
  {
    P.Params(k.Total(), k.window, k.Even(), k.noisy)
  }

  // ---------------------------------------------------------------------------
  // What a send puts into a channel.
  // ---------------------------------------------------------------------------

  // A packet more that was handed over.
  lemma {:induction false} HandedMore<T>(ch: seq<Option<T>>, mid: seq<Option<T>>, ch': seq<Option<T>>, out: seq<T>,
                                         a: T)
    requires P.Handed(ch, mid, out) && (ch' == mid || ch' == mid + [Some(a)] || ch' == mid + [None])
    ensures P.Handed(ch, ch', out + [a])
    decreases |out|
  {
    if out == [] {
      assert [] + [a] == [a];
      P.HandedOne(ch, ch', [a]);
    } else {
      assert (out + [a])[1..] == out[1..] + [a];
      if P.Handed(ch, mid, out[1..]) {
        HandedMore(ch, mid, ch', out[1..], a);
      } else if P.Handed(ch + [Some(out[0])], mid, out[1..]) {
        HandedMore(ch + [Some(out[0])], mid, ch', out[1..], a);
      } else {
        HandedMore(ch + [None], mid, ch', out[1..], a);
      }
    }
  }

  lemma {:induction false} NumsOfWire(h: Endian, ch: seq<seq<byte>>, ps: seq<seq<byte>>, wire: seq<seq<byte>>,
                                      out: seq<nat>)
    requires E.Delivered(h, ps, wire) && |out| == |ps|
    requires forall i :: 0 <= i < |ps| ==> Cksum(h, ps[i]) == 0 && Num(h, ps[i]) == out[i]
    ensures P.Handed(Nums(h, ch), Nums(h, ch + wire), out)
    decreases |ps|
  {
    hide Num, Cksum;
    if ps == [] {
      assert ch + wire == ch;
    } else {
      var k, n := |ps| - 1, |wire| - 1;
      assert out == out[..k] + [out[k]];
      if E.Delivered(h, ps[..k], wire) {
        NumsOfWire(h, ch, ps[..k], wire, out[..k]);
        HandedMore(Nums(h, ch), Nums(h, ch + wire), Nums(h, ch + wire), out[..k], out[k]);
      } else {
        NumsOfWire(h, ch, ps[..k], wire[..n], out[..k]);
        assert Nums(h, ch + wire) == Nums(h, ch + wire[..n]) + [NumOf(h, wire[n])];
        HandedMore(Nums(h, ch), Nums(h, ch + wire[..n]), Nums(h, ch + wire), out[..k], out[k]);
      }
    }
  }

  lemma {:induction false} AcksOfWire(h: Endian, ch: seq<seq<byte>>, ps: seq<seq<byte>>, wire: seq<seq<byte>>,
                                      out: seq<Ack>)
    requires E.Delivered(h, ps, wire) && |out| == |ps|
    requires forall i :: 0 <= i < |ps| ==> Cksum(h, ps[i]) == 0 && AckOf(h, ps[i]) == out[i]
    ensures P.Handed(Acks(h, ch), Acks(h, ch + wire), out)
    decreases |ps|
  {
    hide AckOf, Cksum;
    if ps == [] {
      assert ch + wire == ch;
    } else {
      var k, n := |ps| - 1, |wire| - 1;
      assert out == out[..k] + [out[k]];
      if E.Delivered(h, ps[..k], wire) {
        AcksOfWire(h, ch, ps[..k], wire, out[..k]);
        HandedMore(Acks(h, ch), Acks(h, ch + wire), Acks(h, ch + wire), out[..k], out[k]);
      } else {
        AcksOfWire(h, ch, ps[..k], wire[..n], out[..k]);
        assert Acks(h, ch + wire) == Acks(h, ch + wire[..n]) + [AckSeen(h, wire[n])];
        HandedMore(Acks(h, ch), Acks(h, ch + wire[..n]), Acks(h, ch + wire), out[..k], out[k]);
      }
    }
  }

  lemma CarriedFacts(k: Config, q: seq<byte>, n: nat)
    requires k.Valid() && Carries(k, q, n)
    ensures Cksum(k.client, q) == 0 && HEADER <= |q| <= MAX_PDU && Num(k.client, q) == n
    ensures q[HEADER..] == k.Chunk(n) && q[6] in {DATA, RESENT}
  {
    DataPduFacts(k, n, DATA);
    DataPduFacts(k, n, RESENT);
  }

  lemma StoredCarries(k: Config, p: u32)
    requires k.Valid()
    ensures Carries(k, Stored(k, p), p)
  {
  }

  // The numbers that the server's PDUs carry.
  predicate AllCarry(k: Config, ps: seq<seq<byte>>, out: seq<nat>)
    requires k.chunk > 0
  {
    |ps| == |out| && forall i :: 0 <= i < |ps| ==> out[i] < k.Total() && Carries(k, ps[i], out[i])
  }

  lemma DataSent(k: Config, m: E.Manager, ps: seq<seq<byte>>, ds: seq<E.Draws>, out: seq<nat>, ch: seq<seq<byte>>)
    requires k.Valid() && E.Drawn(m, ps, ds) && E.FlipBits !in m.standard && AllCarry(k, ps, out)
    ensures forall q :: q in E.SendRun(m, ps, ds).1 ==> DataInFlight(k, q)
    ensures P.Handed(Nums(k.client, ch), Nums(k.client, ch + E.SendRun(m, ps, ds).1), out)
  {
    hide DataPdu, Cksum, PacketNum, Num, Carries;
    forall i | 0 <= i < |ps|
      ensures Cksum(k.client, ps[i]) == 0 && Num(k.client, ps[i]) == out[i] && DataInFlight(k, ps[i])
    {
      CarriedFacts(k, ps[i], out[i]);
    }
    E.RunRefinement(k.client, m, ps, ds);
    var wire := E.SendRun(m, ps, ds).1;
    E.DeliveredFacts(k.client, ps, wire);
    NumsOfWire(k.client, ch, ps, wire, out);
  }

  lemma AcksSent(k: Config, m: E.Manager, acks: seq<Ack>, ds: seq<E.Draws>, ch: seq<seq<byte>>)
    requires Fit(acks) && E.Drawn(m, AckPdus(k.client, acks), ds) && E.FlipBits !in m.standard
    requires forall a :: a in acks ==> !a.EofAck?
    ensures forall q :: q in E.SendRun(m, AckPdus(k.client, acks), ds).1 ==> AckInFlight(k, q)
    ensures P.Handed(Acks(k.server, ch), Acks(k.server, ch + E.SendRun(m, AckPdus(k.client, acks), ds).1), acks)
    ensures E.FlipBits !in m.chance ==>
      forall q :: q in E.SendRun(m, AckPdus(k.client, acks), ds).1 ==> Cksum(k.server, q) == 0
  {
    hide AckPdu, Cksum, E.SendRun;
    if E.FlipBits !in m.chance {
      E.RunKeepsBytes(m, AckPdus(k.client, acks), ds);
    }
    var ps := AckPdus(k.client, acks);
    forall i | 0 <= i < |ps|
      ensures Cksum(k.server, ps[i]) == 0 && |ps[i]| == 11 && AckInFlight(k, ps[i]) && AckOf(k.server, ps[i]) == acks[i]
    {
      AckPduFacts(k, acks[i]);
    }
    E.RunRefinement(k.server, m, ps, ds);
    var wire := E.SendRun(m, ps, ds).1;
    E.DeliveredFacts(k.server, ps, wire);
    AcksOfWire(k.server, ch, ps, wire, acks);
  }

  // ---------------------------------------------------------------------------
  // The server's branches.
  // ---------------------------------------------------------------------------

  lemma OutstandingMore(k: Config, lowest: u32, current: u32)
    requires k.Valid() && lowest <= current < RB.SENTINEL
    ensures Outstanding(k, lowest, current + 1) == Outstanding(k, lowest, current)[current := Stored(k, current)]
  {
  }

  lemma OutstandingSlides(k: Config, lowest: u32, n: u32, current: u32)
    requires k.Valid() && lowest <= n
    ensures var m := Outstanding(k, lowest, current);
      Outstanding(k, n, current) == map p | p in m && p >= n :: m[p]
  {
  }

  lemma Cursors(k: Config, s: S.Server)
    requires k.Valid() && ServerWF(k, s)
    ensures s.window.lowest <= s.window.current <= s.window.highest == s.window.lowest + k.window
  {
  }

  lemma SendNextStep(k: Config, s: S.Server)
    requires k.Valid() && s.Valid() && s.window.current < k.Total() && s.pos == k.Pos(s.window.current)
    ensures var n := s.window.current;
      S.SendNext(k.server, k.file, k.chunk, s) ==
      S.Step(s.(window := WB.Store(k.server, s.window, Stored(k, n)), pos := k.Pos(n + 1), pdu := Stored(k, n)),
             [Stored(k, n)])
  {
    hide WB.Store;
    k.ReadIsChunk(s.window.current);
  }

  lemma SendNextFresh(k: Config, s: S.Server)
    requires k.Valid() && ServerWF(k, s) && !s.window.IsClosed() && s.window.current < k.Total()
    ensures var st, n := S.SendNext(k.server, k.file, k.chunk, s), s.window.current;
      && ServerWF(k, st.next) && st.sent == [Stored(k, n)]
      && st.next.window.lowest == s.window.lowest && st.next.window.current == n + 1
  {
    hide S.SendNext, WB.Store, WB.Holds, Outstanding, Stored;
    SendNextStep(k, s);
    StoreKeepsWF(k, s);
  }

  lemma StoreKeepsWF(k: Config, s: S.Server)
    requires k.Valid() && ServerWF(k, s) && !s.window.IsClosed() && s.window.current < k.Total()
    ensures var n, w' := s.window.current, WB.Store(k.server, s.window, Stored(k, s.window.current));
      && ServerWF(k, s.(window := w', pos := k.Pos(n + 1), pdu := Stored(k, n)))
      && w'.lowest == s.window.lowest && w'.current == n + 1
  {
    hide Outstanding, DataPdu, PacketNum, WB.Store;
    var w, n := s.window, s.window.current;
    DataPduFacts(k, n, DATA);
    OutstandingMore(k, w.lowest, n);
    WB.StoreRefinesMap(k.server, w, Outstanding(k, w.lowest, n), Stored(k, n));
  }

  // At the end of the file the newest packet goes out again.
  lemma SendNextStale(k: Config, s: S.Server)
    requires k.Valid() && ServerWF(k, s) && s.window.current == k.Total()
    ensures var st, n := S.SendNext(k.server, k.file, k.chunk, s), s.window.current;
      st.next == s && st.sent == if n == 0 then [] else [Stored(k, n - 1)]
  {
    hide DataPdu, WB.Holds;
    k.ReadIsChunk(s.window.current);
    if s.window.current > 0 {
      DataPduFacts(k, s.window.current - 1, DATA);
    }
  }

  lemma ResendLowestStep(k: Config, s: S.Server)
    requires k.Valid() && ServerWF(k, s) && s.window.IsClosed()
    ensures var st := S.ResendLowest(s);
      st.sent == [Stored(k, s.window.lowest)] && st.next == s.(dest := st.next.dest)
  {
    hide DataPdu, Cksum;
    var n := s.window.lowest;
    DataPduFacts(k, n, DATA);
    WB.RetrieveOutstanding(s.window, Outstanding(k, n, s.window.current), n, s.dest);
  }

  lemma ResendsLowest(k: Config, s: S.Server)
    requires k.Valid() && ServerWF(k, s) && s.window.IsClosed()
    ensures var st := S.ResendLowest(s);
      ServerWF(k, st.next) && st.next.window == s.window && st.sent == [Stored(k, s.window.lowest)]
  {
    hide WB.Holds, Outstanding, Stored, S.ResendLowest;
    ResendLowestStep(k, s);
  }

  lemma ReceivedAck(k: Config, q: seq<byte>)
    requires |q| == 11
    ensures S.Received(q)[6] == q[6] && Load32(k.server, S.Received(q)[HEADER..]) == Load32(k.server, q[HEADER..])
  {
  }

  lemma AckedRrStep(k: Config, s: S.Server, q: seq<byte>)
    requires k.Valid() && ServerWF(k, s) && AckInFlight(k, q) && Cksum(k.server, q) == 0 && AckOf(k.server, q).Rr?
    ensures S.ProcessAck(k.server, s, q) == S.Step(s.(window := WB.Slide(s.window, AckOf(k.server, q).n)), [])
  {
    hide WB.Slide, WB.Holds, AckPdu, Outstanding, Stored, S.Received, Cksum, Htonl, Load32;
    ReceivedAck(k, q);
    AckPduFacts(k, AckOf(k.server, q));
  }

  lemma AckedRr(k: Config, s: S.Server, q: seq<byte>)
    requires k.Valid() && ServerWF(k, s) && AckInFlight(k, q) && Cksum(k.server, q) == 0
    requires AckOf(k.server, q).Rr? && s.window.lowest <= AckOf(k.server, q).n <= s.window.current
    ensures var st := S.ProcessAck(k.server, s, q);
      && ServerWF(k, st.next) && st.sent == []
      && st.next.window.lowest == AckOf(k.server, q).n && st.next.window.current == s.window.current
  {
    hide S.ProcessAck, AckOf, Cksum, WB.Slide, WB.Holds, Outstanding, Stored, AckInFlight;
    AckedRrStep(k, s, q);
    SlideKeepsWF(k, s, AckOf(k.server, q).n);
  }

  lemma SlideKeepsWF(k: Config, s: S.Server, n: u32)
    requires k.Valid() && ServerWF(k, s) && s.window.lowest <= n <= s.window.current
    ensures var w := WB.Slide(s.window, n);
      ServerWF(k, s.(window := w)) && w.lowest == n && w.current == s.window.current
  {
    hide Outstanding, Stored, WB.Slide, WB.Holds;
    var w := s.window;
    OutstandingSlides(k, w.lowest, n, w.current);
    WB.SlideRefinesMap(w, Outstanding(k, w.lowest, w.current), n);
  }

  lemma SrejRetrieves(k: Config, s: S.Server, n: u32)
    requires k.Valid() && ServerWF(k, s) && s.window.lowest <= n < s.window.current
    ensures var out := WB.Retrieve(s.window, n, S.Zeros(MAX_PDU));
      out.1 >= HEADER && Build(k.server, out.0[HEADER..out.1], Htonl(k.server, n), RESENT) == DataPdu(k, n, RESENT)
  {
    hide Cksum, PacketNum;
    DataPduFacts(k, n, DATA);
    WB.RetrieveOutstanding(s.window, Outstanding(k, s.window.lowest, s.window.current), n, S.Zeros(MAX_PDU));
    var out := WB.Retrieve(s.window, n, S.Zeros(MAX_PDU));
    assert out.0[HEADER..out.1] == out.0[..out.1][HEADER..];
  }

  // A rejected number is still in the window, and its chunk is sent again.
  lemma AckedSrej(k: Config, s: S.Server, q: seq<byte>)
    requires k.Valid() && ServerWF(k, s) && AckInFlight(k, q) && Cksum(k.server, q) == 0
    requires AckOf(k.server, q).Srej? && s.window.lowest <= AckOf(k.server, q).n < s.window.current
    ensures S.ProcessAck(k.server, s, q) == S.Step(s, [DataPdu(k, AckOf(k.server, q).n, RESENT)])
  {
    hide AckPdu, S.Received, Cksum, Htonl, Load32, DataPdu, WB.Holds, Build, Outstanding, WB.Retrieve;
    var n := AckOf(k.server, q).n;
    ReceivedAck(k, q);
    AckPduFacts(k, AckOf(k.server, q));
    SrejRetrieves(k, s, n);
  }

  // ---------------------------------------------------------------------------
  // The client's branches.
  // ---------------------------------------------------------------------------

  lemma ClientIsGood(k: Config, w: World)
    requires k.Valid() && WF(k, w) && P.Inv(Params(k), Abs(k, w))
    ensures CR.Good(w.client)
  {
    hide DataPdu, RB.WellPlaced, RB.Contents, RB.IsLeast, P.DataInv, P.AcksInv, ServerWF;
    forall n | n in RB.Contents(w.client.buffer)
      ensures CR.IsData(RB.Contents(w.client.buffer)[n])
    {
      CarriedFacts(k, RB.Contents(w.client.buffer)[n], n);
    }
  }

  lemma ClientWFAfter(k: Config, c: R.Client, c': R.Client, bytes: seq<byte>)
    requires k.Valid() && ClientWF(k, c) && RB.Consistent(c'.buffer) && |c'.buffer.slots| == |c.buffer.slots|
    requires var m := RB.Contents(c'.buffer); forall n :: n in m ==> n < k.Total() && Carries(k, m[n], n)
    requires c'.file == c.file + bytes
    requires || (c'.expected == c.expected && bytes == [])
             || (c'.expected == c.expected + 1 && bytes == k.Chunk(c.expected))
    ensures ClientWF(k, c')
  {
    hide DataPdu, RB.Contents, RB.WellPlaced, RB.IsLeast;
    k.PrefixNext(c.expected);
  }

  lemma ReceiveKeepsWF(k: Config, c: R.Client, q: Packet)
    requires k.Valid() && ClientWF(k, c) && CR.Good(c) && c.mode != R.Flushing
    requires DataInFlight(k, q) && Cksum(k.client, q) == 0 && Num(k.client, q) < c.expected + k.window
    ensures ClientWF(k, R.Receive(k.client, c, q).next)
  {
    hide RB.Contents, RB.WellPlaced, RB.IsLeast, R.Receive, DataPdu, P.ClientInv, Cksum, PacketNum;
    var n, m, c' := Num(k.client, q), RB.Contents(c.buffer), R.Receive(k.client, c, q).next;
    CarriedFacts(k, q, n);
    CR.ReceiveRefines(k.client, c, q);
    ClientWFAfter(k, c, c', if n == c.expected then q[HEADER..] else []);
  }

  lemma FlushKeepsWF(k: Config, c: R.Client)
    requires k.Valid() && ClientWF(k, c) && CR.Good(c) && c.mode == R.Flushing
    ensures ClientWF(k, R.FlushStep(k.client, c).next)
  {
    hide RB.Contents, RB.WellPlaced, RB.IsLeast, R.FlushStep, DataPdu;
    var e, m, c' := c.expected, RB.Contents(c.buffer), R.FlushStep(k.client, c).next;
    CR.FlushRefines(k.client, c);
    if e in m {
      CarriedFacts(k, m[e], e);
    }
    ClientWFAfter(k, c, c', if e in m then m[e][HEADER..] else []);
  }

  lemma HeadNums(h: Endian, ch: seq<seq<byte>>)
    requires ch != []
    ensures Nums(h, ch) != [] && Nums(h, ch)[0] == NumOf(h, ch[0]) && Nums(h, ch)[1..] == Nums(h, ch[1..])
  {
  }

  lemma HeadAcks(h: Endian, ch: seq<seq<byte>>)
    requires ch != []
    ensures Acks(h, ch) != [] && Acks(h, ch)[0] == AckSeen(h, ch[0]) && Acks(h, ch)[1..] == Acks(h, ch[1..])
  {
  }

  // ---------------------------------------------------------------------------
  // Every step of the system is a step of the protocol, or none.
  // ---------------------------------------------------------------------------

  ghost predicate Simulates(k: Config, w: World, w': World)
    requires k.Valid() && RB.WellPlaced(w.client.buffer)
  {
    && WF(k, w')
    && P.Next(Params(k), Abs(k, w), Abs(k, w'))
  }

  // The server sends PDUs: the rest of the world keeps its invariant and the data channel
  // is handed their numbers.
  lemma ServerSendsData(k: Config, w: World, st: L.Step, ds: seq<E.Draws>, toServer: seq<seq<byte>>, w': World,
                        out: seq<nat>)
    requires k.Valid() && WF(k, w) && ServerSends(w, st, ds, toServer, w') && ServerWF(k, st.next.server)
    requires AllCarry(k, st.sent, out)
    requires forall q :: q in toServer ==> q in w.toServer
    ensures WF(k, w')
    ensures P.Handed(Nums(k.client, w.toClient), Nums(k.client, w'.toClient), out)
  {
    hide DataInFlight, AckInFlight, ServerWF, ClientWF, Carries, Num, Cksum, AllCarry, Nums, P.Handed;
    DataSent(k, w.serverErrors, st.sent, ds, out, w.toClient);
  }

  lemma SimSendNext(k: Config, w: World, ds: seq<E.Draws>, w': World)
    requires k.Valid() && WF(k, w) && Next(k, w, SendNext(ds), w')
    ensures Simulates(k, w, w')
  {
    hide S.SendNext, WB.Holds, Nums, Acks, Stored, Carries, DataInFlight, AckInFlight, Outstanding, CR.Abs,
      RB.Contents, RB.WellPlaced, RB.IsLeast, E.SendRun, E.Drawn, P.Handed, S.Read;
    var s := w.server;
    var st, n := L.Take(k.server, k.file, k.chunk, w.Loop(), L.Send), s.window.current;
    Cursors(k, s);
    k.ReadIsShort(n);
    if n < k.Total() {
      SendNextFresh(k, s);
      StoredCarries(k, n);
      ServerSendsData(k, w, st, ds, w.toServer, w', [n]);
      assert P.SendNew(Params(k), Abs(k, w), Abs(k, w'));
    } else {
      SendNextStale(k, s);
      if n > 0 {
        StoredCarries(k, n - 1);
      }
      ServerSendsData(k, w, st, ds, w.toServer, w', if n > 0 then [n - 1] else []);
      assert P.SendStale(Params(k), Abs(k, w), Abs(k, w'));
    }
  }

  lemma SimTimeout(k: Config, w: World, ds: seq<E.Draws>, w': World)
    requires k.Valid() && WF(k, w) && P.Inv(Params(k), Abs(k, w)) && Next(k, w, Timeout(ds), w')
    ensures Simulates(k, w, w')
  {
    hide S.ResendLowest, WB.Holds, Nums, Acks, Stored, Carries, DataInFlight, AckInFlight, Outstanding, CR.Abs,
      RB.Contents, RB.WellPlaced, RB.IsLeast, E.SendRun, E.Drawn, P.Handed, P.ClientInv, P.DataInv, P.AcksInv;
    var s := w.server;
    Cursors(k, s);
    ResendsLowest(k, s);
    StoredCarries(k, s.window.lowest);
    ServerSendsData(k, w, L.Take(k.server, k.file, k.chunk, w.Loop(), L.Resend), ds, w.toServer, w', [s.window.lowest]);
    assert P.Timeout(Abs(k, w), Abs(k, w'));
  }

  lemma SimProceed(k: Config, w: World, w': World)
    requires k.Valid() && WF(k, w) && Next(k, w, Proceed, w')
    ensures Simulates(k, w, w')
  {
    hide WB.Holds, Nums, Acks, Stored, Carries, DataInFlight, AckInFlight, Outstanding, CR.Abs,
      RB.Contents, RB.WellPlaced, RB.IsLeast;
    Cursors(k, w.server);
    assert w.toClient + [] == w.toClient && E.SendRun(w.serverErrors, [], []) == (w.serverErrors, []);
    assert P.GoOn(Params(k), Abs(k, w), Abs(k, w'));
  }

  lemma RestIn<T>(ch: seq<T>)
    requires ch != []
    ensures forall q :: q in ch[1..] ==> q in ch
  {
  }

  // A damaged acknowledgement is ignored.
  lemma SimAckDamaged(k: Config, w: World, ds: seq<E.Draws>, w': World)
    requires w.toServer != [] && Cksum(k.server, w.toServer[0]) != 0
    requires k.Valid() && WF(k, w) && Next(k, w, RecvAck(ds), w')
    ensures Simulates(k, w, w')
  {
    hide WB.Holds, Nums, Acks, Carries, DataInFlight, AckInFlight, Outstanding, CR.Abs, AckOf, E.SendRun, E.Drawn,
      P.Handed, RB.Contents, RB.WellPlaced, RB.IsLeast, Cksum, Htonl, Load32, S.Received;
    var st := L.Take(k.server, k.file, k.chunk, w.Loop(), L.Handle(w.toServer[0]));
    assert S.ProcessAck(k.server, w.server, w.toServer[0]) == S.Step(w.server, []);
    HeadAcks(k.server, w.toServer);
    RestIn(w.toServer);
    ServerSendsData(k, w, st, ds, w.toServer[1..], w', []);
    assert P.ServerAck(Abs(k, w), Abs(k, w'));
  }

  lemma AckBounds(k: Config, w: World)
    requires k.Valid() && WF(k, w) && P.Inv(Params(k), Abs(k, w))
    requires w.toServer != [] && Cksum(k.server, w.toServer[0]) == 0
    ensures var a, s := AckOf(k.server, w.toServer[0]), Abs(k, w);
      && s.acks != [] && s.acks[0] == Some(a) && s.acks[1..] == Acks(k.server, w.toServer[1..])
      && s.lowest <= a.n <= s.client.expected <= s.current && (a.Srej? ==> a.n < s.current) && !a.EofAck?
  {
    hide ServerWF, DataInFlight, AckInFlight, CR.Abs, Nums, Acks, RB.WellPlaced, RB.Contents, Cksum, AckNumber,
      Carries, P.ClientInv, P.DataInv;
    HeadAcks(k.server, w.toServer);
    P.AckIsAnswerable(Params(k), Abs(k, w));
  }

  lemma SimAckRr(k: Config, w: World, ds: seq<E.Draws>, w': World)
    requires w.toServer != [] && Cksum(k.server, w.toServer[0]) == 0 && AckOf(k.server, w.toServer[0]).Rr?
    requires k.Valid() && WF(k, w) && P.Inv(Params(k), Abs(k, w)) && Next(k, w, RecvAck(ds), w')
    ensures Simulates(k, w, w')
  {
    hide S.ProcessAck, WB.Holds, Nums, Acks, Stored, Carries, DataInFlight, AckInFlight, AckOf, Outstanding, CR.Abs,
      RB.Contents, RB.WellPlaced, RB.IsLeast, E.SendRun, E.Drawn, P.Handed, P.Inv, Cksum;
    var q := w.toServer[0];
    AckBounds(k, w);
    AckedRr(k, w.server, q);
    RestIn(w.toServer);
    ServerSendsData(k, w, L.Take(k.server, k.file, k.chunk, w.Loop(), L.Handle(q)), ds, w.toServer[1..], w', []);
    assert P.ServerAck(Abs(k, w), Abs(k, w'));
  }

  lemma SimAckSrej(k: Config, w: World, ds: seq<E.Draws>, w': World)
    requires w.toServer != [] && Cksum(k.server, w.toServer[0]) == 0 && AckOf(k.server, w.toServer[0]).Srej?
    requires k.Valid() && WF(k, w) && P.Inv(Params(k), Abs(k, w)) && Next(k, w, RecvAck(ds), w')
    ensures Simulates(k, w, w')
  {
    hide S.ProcessAck, WB.Holds, Nums, Acks, Stored, DataPdu, DataInFlight, AckInFlight, AckOf, Outstanding, CR.Abs,
      RB.Contents, RB.WellPlaced, RB.IsLeast, E.SendRun, E.Drawn, P.Handed, P.Inv, Cksum;
    var q := w.toServer[0];
    AckBounds(k, w);
    AckedSrej(k, w.server, q);
    RestIn(w.toServer);
    var st := L.Take(k.server, k.file, k.chunk, w.Loop(), L.Handle(q));
    ServerSendsData(k, w, st, ds, w.toServer[1..], w', [AckOf(k.server, q).n]);
    assert P.ServerAck(Abs(k, w), Abs(k, w'));
  }

  // ---- client steps

  lemma ClientSendsAcks(k: Config, w: World, st: R.Step, ds: seq<E.Draws>, toClient: seq<seq<byte>>, w': World)
    requires k.Valid() && WF(k, w) && ClientSends(k, w, st, ds, toClient, w') && ClientWF(k, st.next)
    requires forall a :: a in st.sent ==> !a.EofAck?
    requires forall q :: q in toClient ==> q in w.toClient
    ensures WF(k, w')
    ensures P.Handed(Acks(k.server, w.toServer), Acks(k.server, w'.toServer), st.sent)
  {
    hide DataInFlight, AckInFlight, ServerWF, ClientWF, Cksum, AckOf, Acks, P.Handed;
    AcksSent(k, w.clientErrors, st.sent, ds, w.toServer);
  }

  lemma SimDataDamaged(k: Config, w: World, ds: seq<E.Draws>, w': World)
    requires w.toClient != [] && Cksum(k.client, w.toClient[0]) != 0
    requires k.Valid() && WF(k, w) && Next(k, w, RecvData(ds), w')
    ensures Simulates(k, w, w')
  {
    hide Nums, Acks, Carries, DataInFlight, AckInFlight, ServerWF, P.Receive, Num, E.SendRun, E.Drawn, P.Handed,
      RB.Contents, RB.WellPlaced, RB.IsLeast, RB.Store, Cksum, PacketNum;
    var st := R.Receive(k.client, w.client, w.toClient[0]);
    assert st == R.Step(w.client, [], false);
    HeadNums(k.client, w.toClient);
    RestIn(w.toClient);
    ClientSendsAcks(k, w, st, ds, w.toClient[1..], w');
    assert P.ClientReceive(Abs(k, w), Abs(k, w'));
  }

  lemma DataBounds(k: Config, w: World)
    requires k.Valid() && WF(k, w) && P.Inv(Params(k), Abs(k, w))
    requires w.toClient != [] && Cksum(k.client, w.toClient[0]) == 0
    ensures var n, s := Num(k.client, w.toClient[0]), Abs(k, w);
      && s.data != [] && s.data[0] == Some(n) && s.data[1..] == Nums(k.client, w.toClient[1..])
      && n < w.client.expected + k.window
  {
    hide ServerWF, DataInFlight, AckInFlight, Nums, Acks, RB.WellPlaced, RB.Contents, Cksum, Num, Carries, P.ClientInv,
      P.AcksInv;
    HeadNums(k.client, w.toClient);
    P.ArrivalFits(Params(k), Abs(k, w));
  }

  lemma SimDataIntact(k: Config, w: World, ds: seq<E.Draws>, w': World)
    requires w.toClient != [] && Cksum(k.client, w.toClient[0]) == 0
    requires k.Valid() && WF(k, w) && P.Inv(Params(k), Abs(k, w)) && Next(k, w, RecvData(ds), w')
    ensures Simulates(k, w, w')
  {
    hide Nums, Acks, Carries, DataPdu, DataInFlight, AckInFlight, ServerWF, R.Receive,
      RB.Contents, RB.WellPlaced, RB.IsLeast, E.SendRun, E.Drawn, P.Handed, P.Inv, Cksum, PacketNum;
    var q := w.toClient[0];
    var st := R.Receive(k.client, w.client, q);
    ClientIsGood(k, w);
    DataBounds(k, w);
    ReceiveShows(k, w.client, q);
    ReceiveKeepsWF(k, w.client, q);
    RestIn(w.toClient);
    ClientSendsAcks(k, w, st, ds, w.toClient[1..], w');
    assert P.ClientReceive(Abs(k, w), Abs(k, w'));
  }

  lemma ReceiveShows(k: Config, c: R.Client, q: Packet)
    requires k.Valid() && CR.Good(c) && |c.buffer.slots| == k.window && c.mode != R.Flushing
    requires DataInFlight(k, q) && Cksum(k.client, q) == 0 && Num(k.client, q) < c.expected + k.window
    ensures var st, out := R.Receive(k.client, c, q), P.Receive(CR.Abs(c), Num(k.client, q));
      && RB.WellPlaced(st.next.buffer) && CR.Abs(st.next) == out.0 && st.sent == out.1
      && forall a :: a in st.sent ==> !a.EofAck?
  {
    hide RB.Contents, RB.WellPlaced, RB.IsLeast, R.Receive, DataPdu, P.ClientInv, Cksum, PacketNum, CR.Abs;
    CarriedFacts(k, q, Num(k.client, q));
    CR.ReceiveRefines(k.client, c, q);
  }

  lemma SimFlush(k: Config, w: World, ds: seq<E.Draws>, w': World)
    requires k.Valid() && WF(k, w) && P.Inv(Params(k), Abs(k, w)) && Next(k, w, Flush(ds), w')
    ensures Simulates(k, w, w')
  {
    hide Nums, Acks, Carries, DataPdu, DataInFlight, AckInFlight, ServerWF, R.FlushStep,
      RB.Contents, RB.WellPlaced, RB.IsLeast, E.SendRun, E.Drawn, P.Handed, P.Inv;
    var st := R.FlushStep(k.client, w.client);
    ClientIsGood(k, w);
    CR.FlushRefines(k.client, w.client);
    FlushKeepsWF(k, w.client);
    ClientSendsAcks(k, w, st, ds, w.toClient, w');
    HeadNums(k.client, w.toClient);
    assert P.ClientFlush(Abs(k, w), Abs(k, w'));
  }

  lemma NumsSuffer(h: Endian, ch: seq<seq<byte>>, i: nat, q: Packet)
    requires i < |ch|
    ensures P.Suffers(Nums(h, ch), Nums(h, ch[..i] + ch[i + 1..]))
    ensures Cksum(h, q) != 0 ==> P.Suffers(Nums(h, ch), Nums(h, ch[..i] + [q] + ch[i + 1..]))
  {
    hide Num, Cksum;
    var s := Nums(h, ch);
    assert Nums(h, ch[..i] + ch[i + 1..]) == s[..i] + s[i + 1..];
    assert Cksum(h, q) != 0 ==> Nums(h, ch[..i] + [q] + ch[i + 1..]) == s[..i] + [None] + s[i + 1..];
  }

  lemma AcksSuffer(h: Endian, ch: seq<seq<byte>>, i: nat, q: Packet)
    requires i < |ch|
    ensures P.Suffers(Acks(h, ch), Acks(h, ch[..i] + ch[i + 1..]))
    ensures Cksum(h, q) != 0 ==> P.Suffers(Acks(h, ch), Acks(h, ch[..i] + [q] + ch[i + 1..]))
  {
    hide AckOf, Cksum;
    var s := Acks(h, ch);
    assert Acks(h, ch[..i] + ch[i + 1..]) == s[..i] + s[i + 1..];
    assert Cksum(h, q) != 0 ==> Acks(h, ch[..i] + [q] + ch[i + 1..]) == s[..i] + [None] + s[i + 1..];
  }

  predicate Network(l: Label) {
    l.LoseData? || l.LoseAck? || l.DamageData? || l.DamageAck?
  }

  lemma LeftOver(ch: seq<seq<byte>>, i: nat, q: Packet)
    requires i < |ch|
    ensures forall p :: p in ch[..i] + ch[i + 1..] ==> p in ch
    ensures forall p :: p in ch[..i] + [q] + ch[i + 1..] ==> p in ch || p == q
    ensures ch[i] in ch
  {
  }

  lemma SimDataNetwork(k: Config, w: World, l: Label, w': World)
    requires k.Valid() && WF(k, w) && (l.LoseData? || l.DamageData?) && Next(k, w, l, w')
    ensures Simulates(k, w, w')
  {
    hide WF, Abs, P.Suffers, Nums, Acks, Cksum, ServerTurn, ClientSends, R.Receive, R.FlushStep;
    var q := if l.DamageData? then l.q else [];
    NumsSuffer(k.client, w.toClient, l.i, q);
    LeftOver(w.toClient, l.i, q);
    SimDataSuffers(k, w, w');
  }

  lemma SimAckNetwork(k: Config, w: World, l: Label, w': World)
    requires k.Valid() && WF(k, w) && (l.LoseAck? || l.DamageAck?) && Next(k, w, l, w')
    ensures Simulates(k, w, w')
  {
    hide WF, Abs, P.Suffers, Nums, Acks, Cksum, ServerTurn, ClientSends, R.Receive, R.FlushStep;
    var q := if l.DamageAck? then l.q else [];
    AcksSuffer(k.server, w.toServer, l.i, q);
    LeftOver(w.toServer, l.i, q);
    SimAcksSuffer(k, w, w');
  }

  lemma SimNetwork(k: Config, w: World, l: Label, w': World)
    requires k.Valid() && WF(k, w) && Network(l) && Next(k, w, l, w')
    ensures Simulates(k, w, w')
  {
    hide WF, Next, Simulates;
    if l.LoseData? || l.DamageData? {
      SimDataNetwork(k, w, l, w');
    } else {
      SimAckNetwork(k, w, l, w');
    }
  }

  lemma SimDataSuffers(k: Config, w: World, w': World)
    requires k.Valid() && WF(k, w) && w' == w.(toClient := w'.toClient)
    requires forall q :: q in w'.toClient ==>
      q in w.toClient || (Cksum(k.client, q) != 0 && exists p :: p in w.toClient && |p| == |q|)
    requires P.Suffers(Nums(k.client, w.toClient), Nums(k.client, w'.toClient))
    ensures Simulates(k, w, w')
  {
    hide Carries, DataPdu, ServerWF, AckInFlight, RB.Contents, RB.WellPlaced, RB.IsLeast, Cksum, CR.Abs, Nums, Acks,
      P.Suffers;
    assert P.Suffer(Abs(k, w), Abs(k, w'));
  }

  lemma SimAcksSuffer(k: Config, w: World, w': World)
    requires k.Valid() && WF(k, w) && w' == w.(toServer := w'.toServer)
    requires forall q :: q in w'.toServer ==>
      q in w.toServer || (k.noisy && Cksum(k.server, q) != 0 && exists p :: p in w.toServer && |p| == |q|)
    requires P.Suffers(Acks(k.server, w.toServer), Acks(k.server, w'.toServer))
    ensures Simulates(k, w, w')
  {
    hide Carries, DataPdu, ServerWF, DataInFlight, AckOf, AckPdu, RB.Contents, RB.WellPlaced, RB.IsLeast, Cksum,
      CR.Abs, Nums, Acks, P.Suffers;
    assert P.Suffer(Abs(k, w), Abs(k, w'));
  }

  // ---------------------------------------------------------------------------
  // Runs.
  // ---------------------------------------------------------------------------

  lemma EmptyTotal(k: Config)
    requires k.chunk > 0
    ensures k.Total() == 0 <==> k.file == []
    ensures k.Total() == 0 ==> k.Even()
  {
    k.BeforeEnd(0);
  }

  lemma InitialHolds(k: Config, w: World)
    requires k.Valid() && Initial(k, w)
    ensures WF(k, w) && Abs(k, w) == P.Init() && P.Inv(Params(k), Abs(k, w))
  {
    RB.EmptyConsistent(k.window);
    WB.EmptyHolds(k.window);
    assert Outstanding(k, 0, 0) == map[];
    assert k.Pos(0) == 0;
    EmptyTotal(k);
    P.InitInv(Params(k));
  }

  lemma StepSimulates(k: Config, w: World, l: Label, w': World)
    requires k.Valid() && WF(k, w) && P.Inv(Params(k), Abs(k, w)) && Next(k, w, l, w')
    ensures Simulates(k, w, w')
  {
    hide WF, Abs, P.Inv, Simulates, ServerSends, ClientSends, AckOf, Cksum, S.ProcessAck, S.SendNext, R.Receive,
      R.FlushStep;
    match l
    case SendNext(ds) => SimSendNext(k, w, ds, w');
    case Timeout(ds) => SimTimeout(k, w, ds, w');
    case Proceed => SimProceed(k, w, w');
    case RecvAck(ds) =>
      if Cksum(k.server, w.toServer[0]) != 0 {
        SimAckDamaged(k, w, ds, w');
      } else {
        AckBounds(k, w);
        if AckOf(k.server, w.toServer[0]).Rr? {
          SimAckRr(k, w, ds, w');
        } else {
          SimAckSrej(k, w, ds, w');
        }
      }
    case RecvData(ds) =>
      if Cksum(k.client, w.toClient[0]) != 0 {
        SimDataDamaged(k, w, ds, w');
      } else {
        SimDataIntact(k, w, ds, w');
      }
    case Flush(ds) => SimFlush(k, w, ds, w');
    case _ => SimNetwork(k, w, l, w');
  }

  // One step keeps everything and moves every cursor forward.
  lemma StepKeeps(k: Config, w: World, l: Label, w': World)
    requires k.Valid() && WF(k, w) && P.Inv(Params(k), Abs(k, w)) && Next(k, w, l, w')
    ensures WF(k, w') && P.Inv(Params(k), Abs(k, w'))
    ensures w'.client.highest >= w.client.highest && w'.client.expected >= w.client.expected
    ensures w'.server.window.lowest >= w.server.window.lowest && w'.server.window.current >= w.server.window.current
  {
    hide WF, P.Inv, P.Next, Next, CR.Abs, Nums, Acks;
    StepSimulates(k, w, l, w');
    SimulatedMoves(k, w, w');
  }

  lemma SimulatedMoves(k: Config, w: World, w': World)
    requires k.Valid() && WF(k, w) && P.Inv(Params(k), Abs(k, w)) && Simulates(k, w, w')
    ensures P.Inv(Params(k), Abs(k, w'))
    ensures w'.client.highest >= w.client.highest && w'.client.expected >= w.client.expected
    ensures w'.server.window.lowest >= w.server.window.lowest && w'.server.window.current >= w.server.window.current
  {
    hide P.Inv, P.Next, Next, Nums, Acks, ServerWF, RB.Contents, RB.WellPlaced, Carries, DataInFlight, AckInFlight;
    P.NextKeepsInv(Params(k), Abs(k, w), Abs(k, w'));
  }

  ghost predicate IsRun(k: Config, ws: seq<World>, ls: seq<Label>)
    requires k.Valid()
  {
    && |ws| == |ls| + 1 && Initial(k, ws[0])
    && forall i :: 0 <= i < |ls| ==> ws[i].Valid() && Next(k, ws[i], ls[i], ws[i + 1])
  }

  // Some run ends in w.
  ghost predicate Reached(k: Config, w: World)
    requires k.Valid()
  {
    exists ws, ls :: IsRun(k, ws, ls) && ws[|ls|] == w
  }

  lemma {:induction false} RunHolds(k: Config, ws: seq<World>, ls: seq<Label>, i: nat)
    requires k.Valid() && IsRun(k, ws, ls) && i <= |ls|
    ensures WF(k, ws[i]) && P.Inv(Params(k), Abs(k, ws[i]))
  {
    hide WF, P.Inv, Initial, Next, Abs;
    if i == 0 {
      InitialHolds(k, ws[0]);
    } else {
      RunHolds(k, ws, ls, i - 1);
      StepKeeps(k, ws[i - 1], ls[i - 1], ws[i]);
    }
  }

  lemma WFValid(k: Config, w: World)
    requires k.Valid() && WF(k, w)
    ensures w.Valid() && RB.WellPlaced(w.client.buffer) && |w.client.buffer.slots| == k.window
    ensures ServerWF(k, w.server) && ClientWF(k, w.client)
  {
    hide RB.Contents, RB.WellPlaced, RB.IsLeast, WB.Holds, Carries, DataInFlight, AckInFlight;
  }

  lemma ReachedHolds(k: Config, w: World)
    requires k.Valid() && Reached(k, w)
    ensures WF(k, w) && P.Inv(Params(k), Abs(k, w)) && CR.Good(w.client)
  {
    hide WF, P.Inv, Initial, Next, Abs, CR.Good;
    var ws, ls :| IsRun(k, ws, ls) && ws[|ls|] == w;
    RunHolds(k, ws, ls, |ls|);
    ClientIsGood(k, w);
  }

  // ---------------------------------------------------------------------------
  // The main results, for every reachable state.
  // ---------------------------------------------------------------------------

  // The client has written exactly the chunks below expected, each once and in order;
  // the file is complete exactly when every chunk has been accepted.
  lemma EndToEndSafety(k: Config, w: World)
    requires k.Valid() && Reached(k, w)
    ensures var e := w.client.expected;
      && w.client.file == k.file[..if e * k.chunk <= |k.file| then e * k.chunk else |k.file|]
      && e <= w.server.window.current <= k.Total()
      && (w.client.file == k.file <==> e == k.Total())
  {
    hide P.DataInv, P.AcksInv, P.ClientInv, ServerWF, CR.Good, DataInFlight, AckInFlight;
    ReachedHolds(k, w);
    k.BeforeEnd(w.client.expected);
  }

  lemma WindowSlots(k: Config, s: S.Server)
    requires k.Valid() && ServerWF(k, s)
    ensures |s.window.slots| == k.window
    ensures s.window.lowest <= s.window.current <= s.window.highest == s.window.lowest + k.window
    ensures forall p: u32 :: s.window.lowest <= p < s.window.current ==>
      s.window.slots[p % k.window] == WB.Slot(Stored(k, p), p)
  {
    hide Stored;
    forall p: u32 | s.window.lowest <= p < s.window.current
      ensures s.window.slots[p % k.window] == WB.Slot(Stored(k, p), p)
    {
      assert p in Outstanding(k, s.window.lowest, s.window.current);
    }
  }

  // The server's window: cursors in order, every outstanding packet in its slot with the
  // bytes of its chunk, and closed exactly when the window is full.
  lemma ServerWindowHolds(k: Config, w: World)
    requires k.Valid() && Reached(k, w)
    ensures |w.server.window.slots| == k.window
    ensures var s := w.server.window;
      && s.lowest <= w.client.expected <= s.current <= s.highest == s.lowest + k.window
      && (s.IsClosed() <==> s.current - s.lowest == k.window)
      && forall p: u32 :: s.lowest <= p < s.current ==> s.slots[p % k.window] == WB.Slot(Stored(k, p), p)
  {
    hide WF, P.DataInv, P.AcksInv, P.ClientInv, CR.Good, ServerWF, Stored, RB.Contents, RB.WellPlaced, Nums, Acks;
    ReachedHolds(k, w);
    WFValid(k, w);
    WindowSlots(k, w.server);
  }

  // Both ends agree with everything in flight: acknowledgements that will verify carry
  // numbers from lowest to expected in nondecreasing order, none of them rejected twice and
  // expected only by a client that waits for it; data that will verify is within a window of
  // expected, and beyond expected it comes in nondecreasing order.
  lemma WindowAgreement(k: Config, w: World)
    requires k.Valid() && Reached(k, w)
    ensures var a, e := Acks(k.server, w.toServer), w.client.expected;
      && (forall i :: 0 <= i < |a| && a[i].Some? ==>
            && w.server.window.lowest <= a[i].value.n <= e
            && (a[i].value == Srej(e) ==> w.client.mode == R.Buffering))
      && (forall i, j :: 0 <= i < j < |a| && a[i].Some? && a[j].Some? ==>
            && a[i].value.n <= a[j].value.n
            && (a[i].value.Srej? ==> a[j] != a[i]))
    ensures var d, e := Nums(k.client, w.toClient), w.client.expected;
      && (forall i :: 0 <= i < |d| && d[i].Some? ==>
            d[i].value < w.server.window.current <= w.server.window.lowest + k.window <= e + k.window)
      && (forall i, j :: 0 <= i < j < |d| && d[i].Some? && d[j].Some? ==>
            d[j].value <= e || d[i].value <= d[j].value)
  {
    hide WF, P.ClientInv, CR.Good, ServerWF, RB.Contents, RB.WellPlaced, Nums, Acks;
    ReachedHolds(k, w);
    WFValid(k, w);
  }

  // Every SREJ that verifies names an outstanding number, and is answered with a resent
  // data PDU of exactly that chunk; every RR that verifies moves the window forward to a
  // number no larger than expected.
  lemma AcksAreAnswerable(k: Config, w: World)
    requires k.Valid() && Reached(k, w) && w.toServer != [] && Cksum(k.server, w.toServer[0]) == 0
    ensures w.Valid() && |w.toServer[0]| == 11
    ensures var a, s := AckOf(k.server, w.toServer[0]), w.server.window;
      var st := S.ProcessAck(k.server, w.server, w.toServer[0]);
      && s.lowest <= a.n <= w.client.expected
      && (a.Rr? ==> st.sent == [] && st.next.window.lowest == a.n && st.next.window.current == s.current)
      && (a.Srej? ==> a.n < s.current && st == S.Step(w.server, [DataPdu(k, a.n, RESENT)]))
  {
    hide WF, P.Inv, ServerWF, ClientWF, CR.Good, Abs, S.ProcessAck, DataPdu, Cksum, AckOf, RB.WellPlaced, AckInFlight;
    ReachedHolds(k, w);
    WFValid(k, w);
    HeadAck(k, w);
    if AckOf(k.server, w.toServer[0]).Rr? {
      AckedRr(k, w.server, w.toServer[0]);
    } else {
      AckedSrej(k, w.server, w.toServer[0]);
    }
  }

  // And a timeout of a closed window resends the lowest chunk's PDU, as it was stored.
  lemma TimeoutsAreAnswerable(k: Config, w: World)
    requires k.Valid() && Reached(k, w)
    ensures w.Valid() && (w.at.Waiting? ==> w.server.window.IsClosed())
    ensures w.server.window.IsClosed() ==>
      var n, st := w.server.window.lowest, S.ResendLowest(w.server);
      n <= w.client.expected && n < k.Total() && st.sent == [Stored(k, n)] && st.next.window == w.server.window
  {
    hide WF, P.ClientInv, P.DataInv, P.AcksInv, CR.Good, ServerWF, ClientWF, Stored, RB.Contents, RB.WellPlaced, Nums,
      Acks,
      S.ResendLowest;
    ReachedHolds(k, w);
    WFValid(k, w);
    Cursors(k, w.server);
    if w.server.window.IsClosed() {
      ResendsLowest(k, w.server);
    }
  }

  lemma HeadAck(k: Config, w: World)
    requires k.Valid() && WF(k, w) && P.Inv(Params(k), Abs(k, w))
    requires w.toServer != [] && Cksum(k.server, w.toServer[0]) == 0
    ensures var a, s := AckOf(k.server, w.toServer[0]), w.server.window;
      && |w.toServer[0]| == 11 && AckInFlight(k, w.toServer[0]) && !a.EofAck?
      && s.lowest <= a.n <= w.client.expected <= s.current && (a.Srej? ==> a.n < s.current)
  {
    hide P.DataInv, P.ClientInv, P.AcksInv, ServerWF, ClientWF, CR.Good, DataInFlight, AckInFlight, Nums, Acks, Cksum,
      AckOf, RB.WellPlaced;
    AckBounds(k, w);
    InFlightAck(k, w);
  }

  lemma InFlightAck(k: Config, w: World)
    requires k.Valid() && WF(k, w) && w.toServer != []
    ensures |w.toServer[0]| == 11 && AckInFlight(k, w.toServer[0])
  {
    hide ServerWF, ClientWF, DataInFlight, Cksum, AckOf, AckPdu;
    assert w.toServer[0] in w.toServer;
  }

  lemma HeadData(k: Config, w: World)
    requires k.Valid() && WF(k, w) && w.toClient != [] && Cksum(k.client, w.toClient[0]) == 0
    ensures var q := w.toClient[0];
      HEADER <= |q| <= MAX_PDU && Num(k.client, q) < k.Total() && Carries(k, q, Num(k.client, q))
  {
    hide ServerWF, ClientWF, AckInFlight, Carries, Num, Cksum;
    assert DataInFlight(k, w.toClient[0]);
  }

  // Whatever verifies on arrival is a PDU of the server's for a chunk that fits in the
  // window, and storing it keeps every packet that is already buffered.
  lemma ArrivalsKeepBuffered(k: Config, w: World)
    requires k.Valid() && Reached(k, w) && w.client.mode != R.Flushing
    requires w.toClient != [] && Cksum(k.client, w.toClient[0]) == 0
    ensures w.Valid() && RB.WellPlaced(w.client.buffer)
    ensures var q := w.toClient[0]; HEADER <= |q| <= MAX_PDU && Carries(k, q, Num(k.client, q))
    ensures RB.WellPlaced(R.Receive(k.client, w.client, w.toClient[0]).next.buffer)
    ensures var m, c := RB.Contents(w.client.buffer), R.Receive(k.client, w.client, w.toClient[0]).next;
      var n := Num(k.client, w.toClient[0]);
      && n < w.client.expected + k.window
      && RB.Contents(c.buffer) == if n > w.client.expected then m[n := w.toClient[0]] else m
  {
    hide WF, P.Inv, ServerWF, ClientWF, CR.Good, Abs, DataPdu, Cksum, R.Receive, RB.WellPlaced, RB.Contents,
      RB.IsLeast, PacketNum,
      Carries, DataInFlight, CR.Abs, P.Receive;
    ReachedHolds(k, w);
    WFValid(k, w);
    DataBounds(k, w);
    HeadData(k, w);
    CarriedFacts(k, w.toClient[0], Num(k.client, w.toClient[0]));
    CR.ReceiveRefines(k.client, w.client, w.toClient[0]);
  }

  // No step takes a cursor back: not the window's, not expected, and not highest, which
  // the client assigns without comparing.
  lemma CursorsAdvance(k: Config, w: World, l: Label, w': World)
    requires k.Valid() && Reached(k, w) && w.Valid() && Next(k, w, l, w')
    ensures w.client.highest <= w'.client.highest && w.client.expected <= w'.client.expected
    ensures w.server.window.lowest <= w'.server.window.lowest && w.server.window.current <= w'.server.window.current
    ensures w.client.file <= w'.client.file
  {
    hide P.Inv, ServerWF, Next, CR.Good, RB.Contents, DataInFlight, AckInFlight, Abs;
    ReachedHolds(k, w);
    StepKeeps(k, w, l, w');
    k.PosMonotone(w.client.expected, w'.client.expected);
  }

  // The state machine's invariant holds in every reachable state, so isPacketValid is
  // right about expected and a flush step always has something to do.
  lemma MachineInvariant(k: Config, w: World)
    requires k.Valid() && Reached(k, w)
    ensures w.client.Valid() && RB.WellPlaced(w.client.buffer)
    ensures var c, m := w.client, RB.Contents(w.client.buffer);
      && match c.mode
         case InOrder => m == map[] && (c.expected == c.highest + 1 || c.expected == c.highest == 0)
         case Buffering =>
           && c.expected < c.highest && c.highest in m
           && forall n :: n in m ==> c.expected < n <= c.highest
         case Flushing =>
           && c.expected <= c.highest && c.highest in m && (forall n :: n in m ==> c.expected <= n <= c.highest)
           && R.FlushStep(k.client, c).next != c
    ensures w.client.buffer.IsPacketValid(w.client.expected) <==> w.client.expected in RB.Contents(w.client.buffer)
  {
    hide P.Inv, WF, ServerWF, ClientWF, Abs, RB.Contents, RB.WellPlaced, RB.IsLeast, R.FlushStep;
    ReachedHolds(k, w);
    WFValid(k, w);
    CR.ValidFlagMeansBuffered(w.client);
    if w.client.mode == R.Flushing {
      CR.FlushKeepsGood(k.client, w.client);
    }
  }
}
