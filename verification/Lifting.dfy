// Every single move of the protocol can be made by the system, when its error libraries are
// set up so that they can let the next packets through.
module Lifting {
  import opened Bytes
  import opened Checksum
  import opened Pdu
  import opened EndToEnd
  import R = Rcopy
  import RB = ReorderBuffer
  import WB = WindowBuffer
  import S = Server
  import P = Protocol
  import PR = Progress
  import ST = Settled
  import E = ErrorChannel
  import CR = ClientRefinement
  import L = ServerLoop
  import LR = LoopRuns
  import opened Continuation

  // ---------------------------------------------------------------------------
  // Channels.
  // ---------------------------------------------------------------------------

  lemma NumsMore(h: Endian, ch: seq<seq<byte>>, q: seq<byte>)
    requires Cksum(h, q) == 0
    ensures Nums(h, ch + [q]) == Nums(h, ch) + [Some(Num(h, q))]
  {
  }

  lemma AcksMore(k: Config, ch: seq<seq<byte>>, acks: seq<Ack>)
    requires Fit(acks) && forall a :: a in acks ==> !a.EofAck?
    ensures Acks(k.server, ch + AckPdus(k.client, acks)) == Acks(k.server, ch) + ST.Verifying(acks)
  {
    hide AckPdu, Cksum, AckOf;
    var ps := AckPdus(k.client, acks);
    forall i | 0 <= i < |ps|
      ensures AckSeen(k.server, ps[i]) == Some(acks[i])
    {
      AckReadBack(k, acks[i]);
    }
  }

  lemma AckReadBack(k: Config, a: Ack)
    requires a.n < 0x1_0000_0000 && !a.EofAck?
    ensures Cksum(k.server, AckPdu(k.client, a)) == 0 && AckOf(k.server, AckPdu(k.client, a)) == a
  {
    AckPduFacts(k, a);
  }

  // A packet of the same length that does not verify.
  lemma Spoilt(h: Endian, q: seq<byte>) returns (r: seq<byte>)
    requires |q| > 0 && Cksum(h, q) == 0
    ensures |r| == |q| && Cksum(h, r) != 0
  {
    ByteChangeDetected(h, q, 0, 0xFF - q[0]);
    r := q[0 := 0xFF - q[0]];
  }

  // ---------------------------------------------------------------------------
  // Every move of a protocol run can be made by the system.
  // ---------------------------------------------------------------------------

  // No move sends more than two packets.
  const MOST := 2

  ghost predicate Clear(w: World, n: nat) {
    E.ClearFor(w.serverErrors, n) && E.ClearFor(w.clientErrors, n)
  }

  // The server takes turn t, and everything it sends gets through.
  lemma TurnPasses(k: Config, w: World, t: L.Turn, n: nat) returns (l: Label, w': World)
    requires k.Valid() && w.Valid() && L.Allowed(w.Loop(), t) && Clear(w, n + MOST)
    requires t.Handle? ==> w.toServer != [] && t.packet == w.toServer[0]
    requires var out := L.Take(k.server, k.file, k.chunk, w.Loop(), t).sent;
      |out| <= 1 && forall q :: q in out ==> |q| > 0
    ensures Next(k, w, l, w') && Clear(w', n)
    ensures var st := L.Take(k.server, k.file, k.chunk, w.Loop(), t);
      w' == w.(server := st.next.server, eof := st.next.eof, at := st.next.at, serverErrors := w'.serverErrors,
               toClient := w.toClient + st.sent, toServer := if t.Handle? then w.toServer[1..] else w.toServer)
  {
    hide L.Take, L.Allowed, E.ClearFor, E.Send;
    var st := L.Take(k.server, k.file, k.chunk, w.Loop(), t);
    var ds := E.RunPasses(w.serverErrors, st.sent, n + MOST);
    if t.Proceed? {
      ProceedSendsNothing(k, w);
      assert E.SendRun(w.serverErrors, [], []) == (w.serverErrors, []) && E.Drawn(w.serverErrors, [], []);
    }
    var m := E.SendRun(w.serverErrors, st.sent, if t.Proceed? then [] else ds).0;
    l := LR.LabelOf(LR.Turn(t, ds));
    w' := w.(server := st.next.server, eof := st.next.eof, at := st.next.at, serverErrors := m,
             toClient := w.toClient + st.sent, toServer := if t.Handle? then w.toServer[1..] else w.toServer);
    LR.ActIsStep(k, w, LR.Turn(t, ds), w');
    E.ClearForLess(w.clientErrors, n + MOST, n);
    E.ClearForLess(m, n + MOST - |st.sent|, n);
  }

  lemma ProceedSendsNothing(k: Config, w: World)
    requires k.Valid() && w.Valid() && L.Allowed(w.Loop(), L.Proceed)
    ensures L.Take(k.server, k.file, k.chunk, w.Loop(), L.Proceed).sent == []
  {
  }

  lemma AckPdusCount(k: Config, acks: seq<Ack>)
    requires Fit(acks)
    ensures |AckPdus(k.client, acks)| == |acks| && forall p :: p in AckPdus(k.client, acks) ==> |p| > 0
  {
  }

  // The client takes step st, and its acknowledgements get through.
  lemma ClientPasses(k: Config, w: World, st: R.Step, toClient: seq<seq<byte>>, n: nat)
    returns (ds: seq<E.Draws>, w': World)
    requires Fit(st.sent) && |st.sent| <= MOST && Clear(w, n + MOST)
    ensures ClientSends(k, w, st, ds, toClient, w') && Clear(w', n)
    ensures w' == w.(client := st.next, toClient := toClient, clientErrors := w'.clientErrors,
                     toServer := w.toServer + AckPdus(k.client, st.sent))
  {
    hide E.ClearFor, E.Send, E.SendRun, E.Drawn, AckPdus, AckPdu;
    AckPdusCount(k, st.sent);
    ds := E.RunPasses(w.clientErrors, AckPdus(k.client, st.sent), n + MOST);
    var m := E.SendRun(w.clientErrors, AckPdus(k.client, st.sent), ds).0;
    w' := w.(client := st.next, toClient := toClient, clientErrors := m,
             toServer := w.toServer + AckPdus(k.client, st.sent));
    E.ClearForLess(w.serverErrors, n + MOST, n);
    E.ClearForLess(m, n + MOST - |st.sent|, n);
  }

  // World w, to which some continuation leads from w0, stands for protocol state s, and its
  // libraries can let the next n packets of each side through.
  ghost predicate Stands(k: Config, w0: World, w: World, s: P.State, n: nat)
    requires k.Valid()
  {
    && Leads(k, w0, w) && Reached(k, w) && RB.WellPlaced(w.client.buffer)
    && Clear(w, n) && s == Abs(k, w)
  }

  lemma StandsNext(k: Config, w0: World, w: World, s: P.State, n: nat, l: Label, w': World)
    requires k.Valid() && Stands(k, w0, w, s, n) && w.Valid() && Next(k, w, l, w')
    ensures Leads(k, w0, w') && Reached(k, w') && RB.WellPlaced(w'.client.buffer)
  {
    hide Next, Leads, Reached, WF, Abs, P.Inv, ServerWF, ClientWF, CR.Good, E.ClearFor;
    LeadsOn(k, w0, w, l, w');
    ReachedNext(k, w, l, w');
    Facts(k, w');
  }

  // Later sends ask for less.
  lemma ClearLess(w: World, n: nat, less: nat)
    requires Clear(w, n) && less <= n
    ensures Clear(w, less)
  {
    hide E.ClearFor;
    E.ClearForLess(w.serverErrors, n, less);
    E.ClearForLess(w.clientErrors, n, less);
  }

  // What the loop's turn at its head sends, and where it leaves the server.
  lemma SendTurn(k: Config, w: World)
    requires k.Valid() && w.Valid() && ServerWF(k, w.server) && L.Allowed(w.Loop(), L.Send)
    requires 0 < k.Total() && w.server.window.current <= k.Total()
    ensures var st, n := L.Take(k.server, k.file, k.chunk, w.Loop(), L.Send), w.server.window.current;
      && st.next.at == L.Draining && st.next.server.window.lowest == w.server.window.lowest
      && if n < k.Total()
         then
           && st.next.server.window.current == n + 1 && st.sent == [Stored(k, n)]
           && st.next.eof == (n + 1 == k.Total() && !k.Even())
         else st.next.server.window.current == n && st.sent == [Stored(k, n - 1)] && st.next.eof
  {
    hide ServerWF, Stored, S.SendNext, S.Read;
    var n := w.server.window.current;
    SendPosition(k, w.server);
    k.ReadIsShort(n);
    if n < k.Total() {
      SendNextFresh(k, w.server);
    } else {
      SendNextStale(k, w.server);
    }
  }

  lemma SendPosition(k: Config, s: S.Server)
    requires k.Valid() && ServerWF(k, s)
    ensures s.pos == k.Pos(s.window.current)
  {
    hide WB.Holds, Stored;
  }

  lemma LiftSend(k: Config, w0: World, w: World, s: P.State, n: nat) returns (w': World)
    requires k.Valid() && Stands(k, w0, w, s, n + MOST) && PR.Can(Params(k), s, PR.SendOne)
    ensures Stands(k, w0, w', PR.Do(Params(k), s, PR.SendOne), n)
  {
    hide Next, Leads, Reached, ServerWF, ClientWF, CR.Good, E.ClearFor, Stored, L.Take, Nums, Acks,
      CR.Abs, RB.WellPlaced, P.Inv, WF;
    Facts(k, w);
    Cursors(k, w.server);
    SendTurn(k, w);
    var p := PR.Sent(Params(k), s);
    StoredReads(k, p);
    var l;
    l, w' := TurnPasses(k, w, L.Send, n);
    StandsNext(k, w0, w, s, n + MOST, l, w');
    NumsMore(k.client, w.toClient, Stored(k, p));
  }

  lemma StoredReads(k: Config, p: u32)
    requires k.Valid()
    ensures |Stored(k, p)| > 0 && Cksum(k.client, Stored(k, p)) == 0 && Num(k.client, Stored(k, p)) == p
  {
    DataPduFacts(k, p, DATA);
  }

  lemma LiftResend(k: Config, w0: World, w: World, s: P.State, n: nat) returns (w': World)
    requires k.Valid() && Stands(k, w0, w, s, n + MOST) && PR.Can(Params(k), s, PR.ResendOne)
    ensures Stands(k, w0, w', PR.Do(Params(k), s, PR.ResendOne), n)
  {
    hide Next, Leads, Reached, ServerWF, ClientWF, CR.Good, E.ClearFor, Stored, S.ResendLowest, Nums, Acks,
      CR.Abs, RB.WellPlaced, WF, P.ClientInv, P.DataInv, P.AcksInv;
    Facts(k, w);
    Cursors(k, w.server);
    ResendsLowest(k, w.server);
    var p := w.server.window.lowest;
    StoredReads(k, p);
    var l;
    l, w' := TurnPasses(k, w, L.Resend, n);
    StandsNext(k, w0, w, s, n + MOST, l, w');
    NumsMore(k.client, w.toClient, Stored(k, p));
  }

  lemma LiftPlace(k: Config, w0: World, w: World, s: P.State, n: nat) returns (w': World)
    requires k.Valid() && Stands(k, w0, w, s, n + MOST) && PR.Can(Params(k), s, PR.NextPlace)
    ensures Stands(k, w0, w', PR.Do(Params(k), s, PR.NextPlace), n)
  {
    hide Next, Leads, Reached, ServerWF, ClientWF, CR.Good, E.ClearFor, Nums, Acks, CR.Abs, RB.WellPlaced, WF, P.Inv;
    Facts(k, w);
    Cursors(k, w.server);
    var l;
    l, w' := TurnPasses(k, w, L.Proceed, n);
    StandsNext(k, w0, w, s, n + MOST, l, w');
    assert w.toClient + [] == w.toClient;
  }

  // What the network does to the oldest packet on its way to the client.
  lemma LiftDropData(k: Config, w0: World, w: World, s: P.State, n: nat) returns (w': World)
    requires k.Valid() && Stands(k, w0, w, s, n + MOST) && PR.Can(Params(k), s, PR.DropData)
    ensures Stands(k, w0, w', PR.Do(Params(k), s, PR.DropData), n)
  {
    hide Leads, Reached, Acks, Nums, CR.Abs, RB.WellPlaced, Cksum, WF, ServerWF, ClientWF, CR.Good, P.Inv, E.ClearFor;
    Facts(k, w);
    DataSeen(k, w, s);
    w' := w.(toClient := w.toClient[..0] + w.toClient[0 + 1..]);
    assert w'.toClient == w.toClient[1..];
    StandsNext(k, w0, w, s, n + MOST, LoseData(0), w');
    ClearLess(w, n + MOST, n);
  }

  lemma DataSeen(k: Config, w: World, s: P.State)
    requires k.Valid() && RB.WellPlaced(w.client.buffer) && s == Abs(k, w) && s.data != []
    ensures w.toClient != [] && s.data[0] == NumOf(k.client, w.toClient[0])
    ensures s.data[1..] == Nums(k.client, w.toClient[1..])
  {
    hide CR.Abs, RB.WellPlaced, Acks, NumOf;
    HeadNums(k.client, w.toClient);
  }

  lemma AcksFirst(h: Endian, q: seq<byte>, ch: seq<seq<byte>>)
    requires Cksum(h, q) != 0
    ensures Acks(h, [q] + ch) == [None] + Acks(h, ch)
  {
    hide Cksum;
  }

  lemma AckSeenFirst(k: Config, w: World, s: P.State)
    requires k.Valid() && RB.WellPlaced(w.client.buffer) && s == Abs(k, w) && s.acks != []
    ensures w.toServer != [] && s.acks[0] == AckSeen(k.server, w.toServer[0])
    ensures s.acks[1..] == Acks(k.server, w.toServer[1..])
  {
    hide CR.Abs, RB.WellPlaced, Nums, AckSeen;
    HeadAcks(k.server, w.toServer);
  }

  lemma LiftDropAck(k: Config, w0: World, w: World, s: P.State, n: nat) returns (w': World)
    requires k.Valid() && Stands(k, w0, w, s, n + MOST) && PR.Can(Params(k), s, PR.DropAck)
    ensures Stands(k, w0, w', PR.Do(Params(k), s, PR.DropAck), n)
  {
    hide Leads, Reached, Acks, Nums, CR.Abs, RB.WellPlaced, Cksum, WF, ServerWF, ClientWF, CR.Good, P.Inv, E.ClearFor;
    Facts(k, w);
    AckSeenFirst(k, w, s);
    w' := w.(toServer := w.toServer[..0] + w.toServer[0 + 1..]);
    assert w'.toServer == w.toServer[1..];
    StandsNext(k, w0, w, s, n + MOST, LoseAck(0), w');
    ClearLess(w, n + MOST, n);
  }

  lemma LiftDamageAck(k: Config, w0: World, w: World, s: P.State, n: nat) returns (w': World)
    requires k.Valid() && Stands(k, w0, w, s, n + MOST) && PR.Can(Params(k), s, PR.DamageAck)
    ensures Stands(k, w0, w', PR.Do(Params(k), s, PR.DamageAck), n)
  {
    hide Leads, Reached, Acks, Nums, CR.Abs, RB.WellPlaced, Cksum, WF, ServerWF, ClientWF, CR.Good, P.Inv, AckInFlight,
      E.ClearFor;
    Facts(k, w);
    AckSeenFirst(k, w, s);
    InFlightAck(k, w);
    var q := Spoilt(k.server, w.toServer[0]);
    w' := w.(toServer := w.toServer[..0] + [q] + w.toServer[0 + 1..]);
    assert w'.toServer == [q] + w.toServer[1..];
    AcksFirst(k.server, q, w.toServer[1..]);
    StandsNext(k, w0, w, s, n + MOST, DamageAck(0, q), w');
    ClearLess(w, n + MOST, n);
  }

  lemma LiftRead(k: Config, w0: World, w: World, s: P.State, n: nat) returns (w': World)
    requires k.Valid() && Stands(k, w0, w, s, n + MOST) && PR.Can(Params(k), s, PR.ReadAck)
    ensures Stands(k, w0, w', PR.Do(Params(k), s, PR.ReadAck), n)
  {
    hide Stands, PR.Do, Cksum, Params;
    CanRead(k, w0, w, s, n);
    if Cksum(k.server, w.toServer[0]) == 0 {
      w' := LiftReadIntact(k, w0, w, s, n);
    } else {
      w' := LiftReadDamaged(k, w0, w, s, n);
    }
  }

  lemma CanRead(k: Config, w0: World, w: World, s: P.State, n: nat)
    requires k.Valid() && Stands(k, w0, w, s, n + MOST) && PR.Can(Params(k), s, PR.ReadAck)
    ensures w.toServer != []
  {
    hide Leads, Reached, RB.WellPlaced, CR.Abs, Nums, E.ClearFor;
    AckSeenFirst(k, w, s);
  }

  lemma LiftReadIntact(k: Config, w0: World, w: World, s: P.State, n: nat) returns (w': World)
    requires k.Valid() && Stands(k, w0, w, s, n + MOST) && PR.Can(Params(k), s, PR.ReadAck)
    requires w.toServer != [] && Cksum(k.server, w.toServer[0]) == 0
    ensures Stands(k, w0, w', PR.Do(Params(k), s, PR.ReadAck), n)
  {
    hide Next, Leads, Reached, ServerWF, ClientWF, CR.Good, E.ClearFor, S.ProcessAck, Nums, Acks, AckOf, Cksum,
      CR.Abs, RB.WellPlaced, WF, P.Inv, DataPdu, AckInFlight;
    Facts(k, w);
    AckBounds(k, w);
    var q := w.toServer[0];
    var a := AckOf(k.server, q);
    InFlightAck(k, w);
    if a.Rr? {
      AckedRr(k, w.server, q);
    } else {
      AckedSrej(k, w.server, q);
      ResentReads(k, a.n);
      NumsMore(k.client, w.toClient, DataPdu(k, a.n, RESENT));
    }
    var l;
    l, w' := TurnPasses(k, w, L.Handle(q), n);
    StandsNext(k, w0, w, s, n + MOST, l, w');
    assert w.toClient + [] == w.toClient;
    assert Nums(k.client, w.toClient) + [] == Nums(k.client, w.toClient);
  }

  lemma ResentReads(k: Config, p: u32)
    requires k.Valid()
    ensures |DataPdu(k, p, RESENT)| > 0 && Cksum(k.client, DataPdu(k, p, RESENT)) == 0
    ensures Num(k.client, DataPdu(k, p, RESENT)) == p
  {
    DataPduFacts(k, p, RESENT);
  }

  lemma LiftReadDamaged(k: Config, w0: World, w: World, s: P.State, n: nat) returns (w': World)
    requires k.Valid() && Stands(k, w0, w, s, n + MOST) && PR.Can(Params(k), s, PR.ReadAck)
    requires w.toServer != [] && Cksum(k.server, w.toServer[0]) != 0
    ensures Stands(k, w0, w', PR.Do(Params(k), s, PR.ReadAck), n)
  {
    hide Next, Leads, Reached, ServerWF, ClientWF, CR.Good, E.ClearFor, Nums, Acks, AckOf, Cksum, AckInFlight,
      CR.Abs, RB.WellPlaced, WF, P.Inv, S.Received, Htonl, Load32;
    Facts(k, w);
    HeadAcks(k.server, w.toServer);
    InFlightAck(k, w);
    var q := w.toServer[0];
    assert S.ProcessAck(k.server, w.server, q) == S.Step(w.server, []);
    var l;
    l, w' := TurnPasses(k, w, L.Handle(q), n);
    StandsNext(k, w0, w, s, n + MOST, l, w');
    assert w.toClient + [] == w.toClient;
    assert Nums(k.client, w.toClient) + [] == Nums(k.client, w.toClient);
  }

  lemma LiftDeliver(k: Config, w0: World, w: World, s: P.State, n: nat) returns (w': World)
    requires k.Valid() && Stands(k, w0, w, s, n + MOST) && PR.Can(Params(k), s, PR.Deliver)
    ensures Stands(k, w0, w', PR.Do(Params(k), s, PR.Deliver), n)
  {
    hide Leads, Reached, ServerWF, ClientWF, CR.Good, E.ClearFor, Nums, Acks, Num, Cksum, DataInFlight,
      RB.WellPlaced, RB.Contents, WF, P.Inv, R.Receive, ClientSends, AckPdus, P.Receive;
    Facts(k, w);
    DataSeen(k, w, s);
    var q := w.toClient[0];
    InFlightData(k, w);
    ReceivesAs(k, w, q);
    var st := R.Receive(k.client, w.client, q);
    FitSent(k, w.client, q);
    var ds;
    ds, w' := ClientPasses(k, w, st, w.toClient[1..], n);
    StandsNext(k, w0, w, s, n + MOST, RecvData(ds), w');
    AcksMore(k, w.toServer, st.sent);
  }

  lemma ReceivesAs(k: Config, w: World, q: Packet)
    requires k.Valid() && WF(k, w) && P.Inv(Params(k), Abs(k, w)) && CR.Good(w.client)
    requires |w.client.buffer.slots| == k.window
    requires w.client.mode != R.Flushing && w.toClient != [] && q == w.toClient[0] && HEADER <= |q| <= MAX_PDU
    ensures var st, out := R.Receive(k.client, w.client, q), P.Arrive(CR.Abs(w.client), NumOf(k.client, q));
      && RB.WellPlaced(st.next.buffer) && CR.Abs(st.next) == out.0 && st.sent == out.1
      && |st.sent| <= 1 && forall a :: a in st.sent ==> !a.EofAck?
  {
    hide ServerWF, ClientWF, Nums, Acks, Num, Cksum, DataInFlight, AckInFlight, RB.WellPlaced, RB.Contents, R.Receive,
      P.Inv, WF, CR.Good;
    WFValid(k, w);
    if Cksum(k.client, q) == 0 {
      DataBounds(k, w);
      InFlightData(k, w);
      ReceiveShows(k, w.client, q);
    } else {
      DamagedIgnored(k, w.client, q);
    }
  }

  lemma DamagedIgnored(k: Config, c: R.Client, q: Packet)
    requires c.Valid() && c.mode != R.Flushing && |q| >= HEADER && Cksum(k.client, q) != 0
    ensures R.Receive(k.client, c, q) == R.Step(c, [], false)
  {
    hide Cksum, PacketNum, RB.Store;
  }

  lemma FitSent(k: Config, c: R.Client, q: Packet)
    requires c.Valid() && c.mode != R.Flushing && |q| >= HEADER
    ensures Fit(R.Receive(k.client, c, q).sent)
  {
    hide Cksum, PacketNum, RB.Store;
  }

  lemma InFlightData(k: Config, w: World)
    requires k.Valid() && WF(k, w) && w.toClient != []
    ensures DataInFlight(k, w.toClient[0]) && HEADER <= |w.toClient[0]| <= MAX_PDU
  {
    hide ServerWF, ClientWF, AckInFlight, Cksum, Num, Carries;
    assert w.toClient[0] in w.toClient;
  }

  lemma LiftFlush(k: Config, w0: World, w: World, s: P.State, n: nat) returns (w': World)
    requires k.Valid() && Stands(k, w0, w, s, n + MOST) && PR.Can(Params(k), s, PR.FlushOne)
    ensures Stands(k, w0, w', PR.Do(Params(k), s, PR.FlushOne), n)
  {
    hide Leads, Reached, ServerWF, ClientWF, CR.Good, E.ClearFor, Nums, Acks,
      RB.WellPlaced, RB.Contents, WF, P.Inv, R.FlushStep, ClientSends, AckPdus;
    Facts(k, w);
    DataSeen(k, w, s);
    CR.FlushRefines(k.client, w.client);
    var st := R.FlushStep(k.client, w.client);
    var ds;
    ds, w' := ClientPasses(k, w, st, w.toClient, n);
    StandsNext(k, w0, w, s, n + MOST, Flush(ds), w');
    AcksMore(k, w.toServer, st.sent);
  }

  lemma LiftMove(k: Config, w0: World, w: World, s: P.State, m: PR.Move, n: nat) returns (w': World)
    requires k.Valid() && Stands(k, w0, w, s, n + MOST) && PR.Can(Params(k), s, m)
    ensures Stands(k, w0, w', PR.Do(Params(k), s, m), n)
  {
    hide Stands, PR.Can, PR.Do, Params;
    match m
    case Deliver => w' := LiftDeliver(k, w0, w, s, n);
    case FlushOne => w' := LiftFlush(k, w0, w, s, n);
    case DropData => w' := LiftDropData(k, w0, w, s, n);
    case DropAck => w' := LiftDropAck(k, w0, w, s, n);
    case DamageAck => w' := LiftDamageAck(k, w0, w, s, n);
    case SendOne => w' := LiftSend(k, w0, w, s, n);
    case NextPlace => w' := LiftPlace(k, w0, w, s, n);
    case ResendOne => w' := LiftResend(k, w0, w, s, n);
    case ReadAck => w' := LiftRead(k, w0, w, s, n);
  }

  lemma {:induction false} LiftAll(k: Config, w0: World, w: World, s: P.State, ms: seq<PR.Move>) returns (w': World)
    requires k.Valid() && Stands(k, w0, w, s, MOST * |ms|) && PR.CanAll(Params(k), s, ms)
    ensures Stands(k, w0, w', PR.DoAll(Params(k), s, ms), 0)
    decreases |ms|
  {
    hide Stands, PR.Can, PR.Do, Params;
    if ms == [] {
      w' := w;
    } else {
      var a := LiftMove(k, w0, w, s, ms[0], MOST * |ms[1..]|);
      w' := LiftAll(k, w0, a, PR.Do(Params(k), s, ms[0]), ms[1..]);
    }
  }

  lemma StandsForOwn(k: Config, w: World, n: nat)
    requires k.Valid() && Reached(k, w) && RB.WellPlaced(w.client.buffer) && Clear(w, n)
    ensures Stands(k, w, w, Abs(k, w), n)
  {
    hide Leads, Reached, Nums, Acks, CR.Abs, RB.WellPlaced, E.ClearFor;
    LeadsSame(k, w);
  }

  // A run of single moves from the protocol state of w is one that the system can make, if
  // its libraries can let as many packets through as there are in it.
  lemma RunLifts(k: Config, w: World, ms: seq<PR.Move>) returns (w': World)
    requires k.Valid() && Reached(k, w) && RB.WellPlaced(w.client.buffer) && Clear(w, MOST * |ms|)
    requires PR.CanAll(Params(k), Abs(k, w), ms)
    ensures Stands(k, w, w', PR.DoAll(Params(k), Abs(k, w), ms), 0)
  {
    hide Leads, Reached, RB.WellPlaced, Abs, PR.CanAll, PR.DoAll, E.ClearFor;
    StandsForOwn(k, w, MOST * |ms|);
    w' := LiftAll(k, w, w, Abs(k, w), ms);
  }
}
