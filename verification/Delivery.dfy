// What runs of the whole system can still achieve.  When the error libraries are set up so
// that they can let every packet through, a reachable state can still get the client
// another chunk exactly when its protocol state moves, and can still complete the transfer
// exactly when its protocol state is alive.
module Delivery {
  import opened Bytes
  import opened Checksum
  import opened Pdu
  import opened EndToEnd
  import R = Rcopy
  import RB = ReorderBuffer
  import WB = WindowBuffer
  import S = Server
  import P = Protocol
  import F = Fate
  import M = Middle
  import A = Advance
  import LS = Losses
  import PR = Progress
  import ST = Settled
  import E = ErrorChannel
  import CR = ClientRefinement
  import L = ServerLoop
  import opened Continuation
  import opened Lifting

  // ---------------------------------------------------------------------------
  // The main results.
  // ---------------------------------------------------------------------------

  lemma Complete(k: Config, w: World)
    requires k.Valid() && Reached(k, w)
    ensures w.client.file == k.file <==> w.client.expected == k.Total()
  {
    hide Reached;
    EndToEndSafety(k, w);
  }

  // Whatever the error libraries do: what is not alive is never completed, and what does
  // not move gets nothing more.
  lemma Lost(k: Config, w: World, w': World)
    requires k.Valid() && Reached(k, w) && RB.WellPlaced(w.client.buffer) && Leads(k, w, w')
    ensures !Alive(k, w) ==> w'.client.file != k.file
    ensures !Moves(k, w) ==> w'.client.expected == w.client.expected && w'.client.file == w.client.file
  {
    hide Reached, Next, Alive, Moves, RB.WellPlaced;
    var ws, ls :| Continues(k, ws, ls) && ws[0] == w && ws[|ls|] == w';
    ContinuationRevivesNothing(k, ws, ls, |ls|);
    Complete(k, w');
    if w'.client.file == k.file {
      CompleteIsAlive(k, w');
    }
    EndToEndSafety(k, w);
    EndToEndSafety(k, w');
  }

  // A run of single moves that completes the transfer, as the protocol state gives it.
  ghost function Finish(k: P.Params, s: P.State): (ms: seq<PR.Move>)
    requires P.Inv(k, s) && F.Alive(k, s)
    ensures PR.CanAll(k, s, ms) && PR.DoAll(k, s, ms).client.expected == k.total
  {
    SomeFinish(k, s);
    var ms :| PR.CanAll(k, s, ms) && PR.DoAll(k, s, ms).client.expected == k.total;
    ms
  }

  lemma SomeFinish(k: P.Params, s: P.State)
    requires P.Inv(k, s) && F.Alive(k, s)
    ensures exists ms :: PR.CanAll(k, s, ms) && PR.DoAll(k, s, ms).client.expected == k.total
  {
    hide P.Inv, F.Alive, PR.CanAll, PR.DoAll;
    var t := M.AliveCompletes(k, s);
    var ms :| PR.CanAll(k, s, ms) && PR.DoAll(k, s, ms) == t;
  }

  // How many packets of each side it is enough to let through.
  ghost function Budget(k: Config, w: World): nat
    requires k.Valid() && RB.WellPlaced(w.client.buffer) && Alive(k, w)
  {
    MOST * |Finish(Params(k), Abs(k, w))|
  }

  // A live transfer can be completed when the libraries can let so many packets through.
  lemma CompletesWithin(k: Config, w: World)
    requires k.Valid() && Reached(k, w) && RB.WellPlaced(w.client.buffer) && Alive(k, w) && Clear(w, Budget(k, w))
    ensures exists w' :: Leads(k, w, w') && w'.client.file == k.file
  {
    hide Reached, Leads, P.Inv, RB.WellPlaced, F.Alive, Abs, PR.CanAll, PR.DoAll, E.ClearFor;
    var ms := Finish(Params(k), Abs(k, w));
    var w' := RunLifts(k, w, ms);
    StandsExpected(k, w, w', PR.DoAll(Params(k), Abs(k, w), ms));
    Complete(k, w');
  }

  // So it can with drop lists whose numbers the libraries have passed, before they come
  // round again.
  lemma CompletesPastLists(k: Config, w: World)
    requires k.Valid() && Reached(k, w) && RB.WellPlaced(w.client.buffer) && Alive(k, w)
    requires forall m :: m in {w.serverErrors, w.clientErrors} ==>
      && E.OnlyLists(m.standard) && (m.chance == [] || m.rate < 1.0)
      && (forall i :: 0 <= i < |E.Listed(m.standard)| ==> E.Listed(m.standard)[i] <= m.msgNo)
      && m.msgNo + Budget(k, w) < 0x1_0000_0000
    ensures exists w' :: Leads(k, w, w') && w'.client.file == k.file
  {
    hide Reached, Leads, P.Inv, RB.WellPlaced, Alive, Abs, E.OnlyLists, E.Listed, E.ClearFor;
    E.PassedListIsClear(w.serverErrors, Budget(k, w));
    E.PassedListIsClear(w.clientErrors, Budget(k, w));
    CompletesWithin(k, w);
  }

  lemma AllClear(w: World, n: nat)
    requires E.Delivers(w.serverErrors) && E.Delivers(w.clientErrors)
    ensures Clear(w, n)
  {
    hide E.Delivers, E.ClearFor;
    E.DeliversIsClear(w.serverErrors, n);
    E.DeliversIsClear(w.clientErrors, n);
  }

  // A reachable state can still complete the transfer exactly when it is alive.
  lemma CanComplete(k: Config, w: World)
    requires k.Valid() && Reached(k, w) && E.Delivers(w.serverErrors) && E.Delivers(w.clientErrors)
    ensures RB.WellPlaced(w.client.buffer)
    ensures (exists w' :: Leads(k, w, w') && w'.client.file == k.file) <==> Alive(k, w)
  {
    hide Reached, Leads, P.Inv, RB.WellPlaced, Alive, Abs, E.Delivers, Clear, WF, ServerWF, ClientWF, CR.Good;
    Facts(k, w);
    if Alive(k, w) {
      AllClear(w, Budget(k, w));
      CompletesWithin(k, w);
    }
    forall w' | Leads(k, w, w') && w'.client.file == k.file
      ensures Alive(k, w)
    {
      Lost(k, w, w');
    }
  }

  // And it can still get the client another chunk exactly when it moves.
  lemma CanAdvance(k: Config, w: World)
    requires k.Valid() && Reached(k, w) && E.Delivers(w.serverErrors) && E.Delivers(w.clientErrors)
    ensures RB.WellPlaced(w.client.buffer)
    ensures (exists w' :: Leads(k, w, w') && w'.client.expected > w.client.expected) <==> Moves(k, w)
  {
    hide Reached, Leads, P.Inv, RB.WellPlaced, Moves, E.Delivers, Clear, WF, ServerWF, ClientWF, CR.Good;
    Facts(k, w);
    if Moves(k, w) {
      Advances(k, w);
    }
    forall w' | Leads(k, w, w') && w'.client.expected > w.client.expected
      ensures Moves(k, w)
    {
      Lost(k, w, w');
    }
  }

  lemma Advances(k: Config, w: World)
    requires k.Valid() && Reached(k, w) && RB.WellPlaced(w.client.buffer) && Moves(k, w)
    requires E.Delivers(w.serverErrors) && E.Delivers(w.clientErrors)
    ensures exists w' :: Leads(k, w, w') && w'.client.expected > w.client.expected
  {
    hide Reached, Leads, P.Inv, RB.WellPlaced, F.Moves, E.Delivers, Clear, PR.CanAll, PR.DoAll, Nums, Acks;
    var s := Abs(k, w);
    var t := A.MovesAdvance(Params(k), s);
    var ms :| PR.CanAll(Params(k), s, ms) && PR.DoAll(Params(k), s, ms) == t;
    AllClear(w, MOST * |ms|);
    var w' := RunLifts(k, w, ms);
    StandsExpected(k, w, w', t);
  }

  lemma StandsExpected(k: Config, w0: World, w: World, s: P.State)
    requires k.Valid() && Stands(k, w0, w, s, 0)
    ensures Leads(k, w0, w) && Reached(k, w) && RB.WellPlaced(w.client.buffer)
    ensures w.client.expected == s.client.expected && w.client.mode == s.client.mode
    ensures w.client.highest == s.client.highest
    ensures w.server.window.lowest == s.lowest && w.server.window.current == s.current && w.at == s.at && w.eof == s.eof
    ensures |w.toClient| == |s.data| && |w.toServer| == |s.acks|
  {
    hide Leads, Reached, Clear;
  }

  // ---------------------------------------------------------------------------
  // From the start.
  // ---------------------------------------------------------------------------

  lemma InitialReached(k: Config, w: World)
    requires k.Valid() && Initial(k, w)
    ensures Reached(k, w) && RB.WellPlaced(w.client.buffer) && Abs(k, w) == P.Init()
  {
    hide WF, P.Inv;
    InitialHolds(k, w);
    assert IsRun(k, [w], []) && [w][0] == w;
    WFValid(k, w);
  }

  // Whatever the sizes and byte orders, a transfer can be completed.
  lemma EveryTransferCanComplete(k: Config, w: World)
    requires k.Valid() && Initial(k, w) && E.Delivers(w.serverErrors) && E.Delivers(w.clientErrors)
    ensures exists w' :: Leads(k, w, w') && w'.client.file == k.file
  {
    hide Reached, Leads, E.Delivers, Abs, RB.WellPlaced;
    InitialReached(k, w);
    CanComplete(k, w);
    EmptyTotal(k);
    InitAlive(k, w);
  }

  lemma InitAlive(k: Config, w: World)
    requires k.Valid() && RB.WellPlaced(w.client.buffer) && Abs(k, w) == P.Init()
    ensures Alive(k, w)
  {
    hide Abs, RB.WellPlaced, P.Inv, F.Alive;
    EmptyTotal(k);
    LS.InitAlive(Params(k));
  }

  const CALM: E.Manager := E.Manager([], [], 0.0, 0)

  // A run of the system to a state that stands for what the protocol gets to from its start.
  lemma FromStart(k: Config, s: P.State) returns (w: World)
    requires k.Valid() && PR.Gets(Params(k), P.Init(), s)
    ensures Reached(k, w) && w.Valid() && RB.WellPlaced(w.client.buffer) && s == Abs(k, w) && P.Inv(Params(k), s)
    ensures w.client.expected == s.client.expected && w.client.mode == s.client.mode
    ensures w.client.highest == s.client.highest
    ensures w.server.window.lowest == s.lowest && w.server.window.current == s.current && w.at == s.at && w.eof == s.eof
    ensures |w.toClient| == |s.data| && |w.toServer| == |s.acks|
  {
    hide Reached, PR.CanAll, PR.DoAll, WF, ServerWF, ClientWF, CR.Good, P.Inv, RB.WellPlaced, Nums, Acks, Leads, Next,
      E.Delivers, Clear;
    var w0 := World(S.Start(k.window), false, L.Top, R.Start(k.window), [], [], CALM, CALM);
    InitialReached(k, w0);
    CalmDelivers();
    var ms :| PR.CanAll(Params(k), P.Init(), ms) && PR.DoAll(Params(k), P.Init(), ms) == s;
    AllClear(w0, MOST * |ms|);
    w := RunLifts(k, w0, ms);
    StandsExpected(k, w0, w, s);
    StandsFor(k, w0, w, s);
    Facts(k, w);
  }

  lemma StandsFor(k: Config, w0: World, w: World, s: P.State)
    requires k.Valid() && Stands(k, w0, w, s, 0)
    ensures s == Abs(k, w)
  {
    hide Leads, Reached, Abs, Clear;
  }

  lemma CalmDelivers()
    ensures E.Delivers(CALM)
  {
  }

  // Every configuration has a run after which the client has the whole file and the
  // server has every chunk acknowledged.
  lemma TransferCompletes(k: Config)
    requires k.Valid()
    ensures exists w :: Reached(k, w) && w.client.file == k.file && w.server.window.lowest == k.Total()
  {
    hide Reached, Abs, RB.WellPlaced;
    EmptyTotal(k);
    LS.AllSent(Params(k), k.Total());
    var w := FromStart(k, LS.Acknowledged(Params(k), k.Total()));
    Complete(k, w);
  }

  // The first chunk lost and its SREJ answered, the client flushes when it is woken.
  lemma FlushReachable(k: Config)
    requires k.Valid() && 2 <= k.Total() && 2 <= k.window
    ensures exists w :: Reached(k, w) && w.client.mode == R.Flushing && w.client.expected == w.client.highest == 1
  {
    hide Reached, Abs, RB.WellPlaced;
    EmptyTotal(k);
    var s := LS.Asleep(Params(k), 0);
    var w := FromStart(k, s);
  }

  ghost predicate Doomed(k: Config, w: World)
    requires k.Valid()
  {
    Reached(k, w) && RB.WellPlaced(w.client.buffer) && !Alive(k, w) && !Moves(k, w)
  }

  lemma QuietDoomed(k: Config, w: World, s: P.State)
    requires k.Valid() && Reached(k, w) && RB.WellPlaced(w.client.buffer) && s == Abs(k, w) && s.data == []
    requires !F.QuietAlive(Params(k), s)
    ensures !Alive(k, w)
    ensures !F.QuietMoves(Params(k), s) ==> Doomed(k, w)
  {
    hide Reached, Abs, RB.WellPlaced, F.QuietAlive, F.QuietMoves, P.Inv;
  }

  // Every chunk of the window lost, and every resend: the server blocks in its read and the
  // client has nothing to send.
  lemma ResendsRunOut(k: Config)
    requires k.Valid() && k.window <= k.Total()
    ensures exists w ::
      && Doomed(k, w) && w.at == L.Waiting(L.RESENDS)
      && w.client.expected == 0 && w.server.window.current == k.window
  {
    hide Reached, Abs, RB.WellPlaced, F.QuietAlive, F.QuietMoves;
    var s := LS.ResendsLost(Params(k));
    var w := FromStart(k, s);
    QuietDoomed(k, w, s);
  }

  // A file shorter than the window: the loop ends without ever waiting.
  lemma FileEndsEarly(k: Config)
    requires k.Valid() && 0 < k.Total() < k.window
    ensures exists w :: Doomed(k, w) && w.at == L.Top && w.eof && w.client.expected == 0
  {
    hide Reached, Abs, RB.WellPlaced, F.QuietAlive, F.QuietMoves;
    var s := LS.FileLost(Params(k));
    var w := FromStart(k, s);
    QuietDoomed(k, w, s);
  }

  // Nothing the server has sent is missing.
  ghost predicate HasAll(w: World)
    requires RB.WellPlaced(w.client.buffer)
  {
    forall p: nat :: w.client.expected <= p < w.server.window.current ==> p in RB.Contents(w.client.buffer)
  }

  lemma NoneMissing(k: Config, w: World, s: P.State)
    requires k.Valid() && RB.WellPlaced(w.client.buffer) && s == Abs(k, w) && ST.Missing(s) == {}
    ensures HasAll(w)
  {
    hide RB.Contents, RB.WellPlaced, Nums, Acks;
    forall p: nat | w.client.expected <= p < w.server.window.current
      ensures p in RB.Contents(w.client.buffer)
    {
      assert p !in ST.Missing(s);
    }
  }

  // A gap filled and every resend after that lost: the client has all that was sent, but it
  // flushes only when another packet comes, and the server waits for one.  No step at all is
  // possible.
  lemma FlushNeverRuns(k: Config)
    requires k.Valid() && k.window == 2 && (k.Total() >= 3 || (k.Total() == 2 && k.Even()))
    ensures exists w ::
      && Doomed(k, w) && w.Valid() && HasAll(w) && w.at == L.Waiting(L.RESENDS)
      && w.client.mode == R.Flushing && w.client.expected == 1 && w.toClient == [] && w.toServer == []
      && forall l, w' :: !Next(k, w, l, w')
  {
    hide Reached, Abs, RB.WellPlaced, F.QuietAlive, F.QuietMoves;
    EmptyTotal(k);
    var s := LS.AsleepAtWindow(Params(k));
    var w := FromStart(k, s);
    QuietDoomed(k, w, s);
    NoneMissing(k, w, s);
    forall l, w'
      ensures !Next(k, w, l, w')
    {
      Nowhere(k, w, l, w');
    }
  }

  lemma Nowhere(k: Config, w: World, l: Label, w': World)
    requires k.Valid() && w.Valid() && w.at == L.Waiting(L.RESENDS) && w.client.mode == R.Flushing
    requires w.toClient == [] && w.toServer == []
    ensures !Next(k, w, l, w')
  {
    hide L.Take;
  }

  // A gap filled and the loop at its end: the client has all of the file, but not all of it
  // written.
  lemma LoopLeavesFlush(k: Config)
    requires k.Valid() && k.window >= 3 && k.Total() >= 2 && !k.Even()
    ensures exists w ::
      && Doomed(k, w) && HasAll(w) && w.at == L.Top && w.eof
      && w.client.mode == R.Flushing && w.client.expected == k.Total() - 1 && w.toClient == [] && w.toServer == []
  {
    hide Reached, Abs, RB.WellPlaced, F.QuietAlive, F.QuietMoves;
    EmptyTotal(k);
    var s := LS.AsleepAtEnd(Params(k));
    var w := FromStart(k, s);
    QuietDoomed(k, w, s);
    NoneMissing(k, w, s);
  }

  // A transfer can be lost for good exactly when there is anything to transfer.
  lemma DoomedReachable(k: Config)
    requires k.Valid()
    ensures (exists w :: Doomed(k, w)) <==> k.file != []
  {
    hide Doomed;
    EmptyTotal(k);
    if k.file != [] {
      if k.window <= k.Total() {
        ResendsRunOut(k);
      } else {
        FileEndsEarly(k);
      }
    }
    forall w | Doomed(k, w)
      ensures k.file != []
    {
      DoomedNotComplete(k, w);
    }
  }

  // Lost for good although the server's loop neither has ended nor waits.
  ghost predicate LostRunning(k: Config, w: World)
    requires k.Valid()
  {
    Reached(k, w) && RB.WellPlaced(w.client.buffer) && !Alive(k, w) && !w.eof && !w.at.Waiting?
  }

  // That takes two chunks and a window of three.
  lemma LostRunningReachable(k: Config)
    requires k.Valid()
    ensures (exists w :: LostRunning(k, w)) <==> k.Total() >= 2 && k.window >= 3
  {
    hide Reached, Abs, RB.WellPlaced, F.QuietAlive, Alive;
    EmptyTotal(k);
    if k.Total() >= 2 && k.window >= 3 {
      var s := LS.LostEarly(Params(k));
      var w := FromStart(k, s);
      QuietDoomed(k, w, s);
      assert LostRunning(k, w);
    }
    forall w | LostRunning(k, w)
      ensures k.Total() >= 2 && k.window >= 3
    {
      LostRunningNeeds(k, w);
    }
  }

  lemma LostRunningNeeds(k: Config, w: World)
    requires k.Valid() && LostRunning(k, w)
    ensures k.Total() >= 2 && k.window >= 3
  {
    hide Reached, RB.WellPlaced, P.Inv, F.Alive, WF, ServerWF, ClientWF, CR.Good, CR.Abs, Nums, Acks;
    Facts(k, w);
    if k.Total() < 2 || k.window < 3 {
      LS.StillAlive(Params(k), Abs(k, w));
    }
  }

  lemma DoomedNotComplete(k: Config, w: World)
    requires k.Valid() && Doomed(k, w)
    ensures k.Total() > 0
  {
    hide Reached, Alive, Moves, RB.WellPlaced;
    EndToEndSafety(k, w);
    if k.Total() == 0 {
      CompleteIsAlive(k, w);
    }
  }

  // ---------------------------------------------------------------------------
  // A server whose error library lets nothing through.
  // ---------------------------------------------------------------------------

  // Everything that a turn of the loop sends verifies.
  lemma TurnVerifies(k: Config, w: World, t: L.Turn)
    requires k.Valid() && WF(k, w) && P.Inv(Params(k), Abs(k, w)) && w.Valid() && L.Allowed(w.Loop(), t)
    requires t.Handle? ==> w.toServer != [] && t.packet == w.toServer[0]
    ensures forall q :: q in L.Take(k.server, k.file, k.chunk, w.Loop(), t).sent ==> Cksum(k.client, q) == 0
  {
    hide S.SendNext, S.ResendLowest, S.ProcessAck, S.Read, Stored, DataPdu, ServerWF, ClientWF, Cksum, WF, P.Inv, Abs,
      AckInFlight, AckOf;
    match t
    case Send => SendVerifies(k, w);
    case Resend => ResendVerifies(k, w);
    case Handle(q) => HandleVerifies(k, w);
    case Proceed =>
  }

  lemma SendVerifies(k: Config, w: World)
    requires k.Valid() && WF(k, w) && w.Valid() && L.Allowed(w.Loop(), L.Send)
    ensures forall q :: q in S.SendNext(k.server, k.file, k.chunk, w.server).sent ==> Cksum(k.client, q) == 0
  {
    hide S.SendNext, Stored, ClientWF, Cksum, DataInFlight, AckInFlight, WB.Holds;
    var n := w.server.window.current;
    Cursors(k, w.server);
    if n < k.Total() {
      SendNextFresh(k, w.server);
      StoredReads(k, n);
    } else {
      SendNextStale(k, w.server);
      if n > 0 {
        StoredReads(k, n - 1);
      }
    }
  }

  lemma ResendVerifies(k: Config, w: World)
    requires k.Valid() && WF(k, w) && P.Inv(Params(k), Abs(k, w)) && w.Valid() && L.Allowed(w.Loop(), L.Resend)
    ensures forall q :: q in S.ResendLowest(w.server).sent ==> Cksum(k.client, q) == 0
  {
    hide S.ResendLowest, Stored, ClientWF, Cksum, DataInFlight, AckInFlight, WB.Holds, P.ClientInv, P.DataInv,
      P.AcksInv,
      CR.Abs, Nums, Acks, RB.WellPlaced;
    Cursors(k, w.server);
    ResendsLowest(k, w.server);
    StoredReads(k, w.server.window.lowest);
  }

  lemma HandleVerifies(k: Config, w: World)
    requires k.Valid() && WF(k, w) && P.Inv(Params(k), Abs(k, w)) && w.Valid() && w.toServer != []
    ensures |w.toServer[0]| == 11
    ensures forall q :: q in S.ProcessAck(k.server, w.server, w.toServer[0]).sent ==> Cksum(k.client, q) == 0
  {
    hide ServerWF, ClientWF, Cksum, P.Inv, Abs, AckInFlight, AckOf, DataPdu, S.Received, Htonl, Load32, WF, Build,
      WB.Retrieve;
    InFlightAck(k, w);
    if Cksum(k.server, w.toServer[0]) == 0 {
      HandledIntact(k, w);
    }
  }

  lemma HandledIntact(k: Config, w: World)
    requires k.Valid() && WF(k, w) && P.Inv(Params(k), Abs(k, w)) && w.Valid() && w.toServer != []
    requires Cksum(k.server, w.toServer[0]) == 0
    ensures |w.toServer[0]| == 11
    ensures forall q :: q in S.ProcessAck(k.server, w.server, w.toServer[0]).sent ==> Cksum(k.client, q) == 0
  {
    hide ServerWF, ClientWF, Cksum, P.Inv, AckInFlight, AckOf, DataPdu, S.ProcessAck, WF, Nums, Acks, CR.Abs,
      RB.WellPlaced;
    WFValid(k, w);
    InFlightAck(k, w);
    AckBounds(k, w);
    var a := AckOf(k.server, w.toServer[0]);
    if a.Rr? {
      AckedRr(k, w.server, w.toServer[0]);
    } else {
      AckedSrej(k, w.server, w.toServer[0]);
      ResentReads(k, a.n);
    }
  }

  lemma StillMute(m: E.Manager, m': E.Manager)
    requires E.SameSetUp(m, m')
    ensures E.Mute(m) ==> E.Mute(m')
  {
    forall n: u32
      ensures E.CanPass(m', n) <==> E.CanPass(m, n)
    {
    }
  }

  // Nothing that verifies is on its way to the client, which is where it started.
  ghost predicate Unheard(k: Config, w: World)
    requires k.Valid()
  {
    && E.Mute(w.serverErrors) && w.client == R.Start(k.window)
    && forall q :: q in w.toClient ==> Cksum(k.client, q) != 0
  }

  lemma ServerUnheard(k: Config, w: World, t: L.Turn, ds: seq<E.Draws>, toServer: seq<seq<byte>>, w': World)
    requires k.Valid() && WF(k, w) && P.Inv(Params(k), Abs(k, w)) && w.Valid() && Unheard(k, w)
    requires t.Handle? ==> w.toServer != [] && t.packet == w.toServer[0]
    requires ServerTurn(k, w, t, ds, toServer, w')
    ensures Unheard(k, w')
  {
    hide L.Take, L.Allowed, WF, P.Inv, Cksum, E.Mute, Abs, R.Start;
    TurnVerifies(k, w, t);
    SetUpKept(k, w);
    E.MuteRun(k.client, w.serverErrors, L.Take(k.server, k.file, k.chunk, w.Loop(), t).sent, ds);
    StillMute(w.serverErrors, w'.serverErrors);
  }

  lemma SetUpKept(k: Config, w: World)
    requires k.Valid() && WF(k, w)
    ensures E.FlipBits !in w.serverErrors.standard
  {
    hide ServerWF, ClientWF, DataInFlight, AckInFlight;
  }

  lemma StepUnheard(k: Config, w: World, l: Label, w': World)
    requires k.Valid() && Reached(k, w) && w.Valid() && Unheard(k, w) && Next(k, w, l, w')
    ensures Unheard(k, w')
  {
    hide WF, P.Inv, Cksum, E.Mute, Abs, ServerWF, ClientWF, CR.Good, Reached, ServerTurn, RB.WellPlaced;
    Facts(k, w);
    match l
    case SendNext(ds) => ServerUnheard(k, w, L.Send, ds, w.toServer, w');
    case Timeout(ds) => ServerUnheard(k, w, L.Resend, ds, w.toServer, w');
    case Proceed => ServerUnheard(k, w, L.Proceed, [], w.toServer, w');
    case RecvAck(ds) => ServerUnheard(k, w, L.Handle(w.toServer[0]), ds, w.toServer[1..], w');
    case RecvData(_) => DamagedReceived(k, w);
    case _ =>
  }

  lemma DamagedReceived(k: Config, w: World)
    requires k.Valid() && w.Valid() && Unheard(k, w) && w.toClient != [] && HEADER <= |w.toClient[0]| <= MAX_PDU
    ensures R.Receive(k.client, w.client, w.toClient[0]) == R.Step(w.client, [], false)
  {
    hide Cksum, PacketNum;
    assert w.toClient[0] in w.toClient;
  }

  // With the server's error library set up so that no message gets through, no run ever
  // gets the client a byte.
  lemma {:induction false} MuteServer(k: Config, ws: seq<World>, ls: seq<Label>, i: nat)
    requires k.Valid() && IsRun(k, ws, ls) && E.Mute(ws[0].serverErrors) && i <= |ls|
    ensures ws[i].client.file == [] && ws[i].client.expected == 0 && Unheard(k, ws[i]) && Reached(k, ws[i])
  {
    hide Next, E.Mute, Cksum, Reached, Unheard, R.Start;
    if i == 0 {
      InitialReached(k, ws[0]);
      InitialUnheard(k, ws[0]);
    } else {
      MuteServer(k, ws, ls, i - 1);
      ReachedNext(k, ws[i - 1], ls[i - 1], ws[i]);
      StepUnheard(k, ws[i - 1], ls[i - 1], ws[i]);
    }
    UnheardFile(k, ws[i]);
  }

  lemma InitialUnheard(k: Config, w: World)
    requires k.Valid() && Initial(k, w) && E.Mute(w.serverErrors)
    ensures Unheard(k, w)
  {
    hide E.Mute, R.Start, S.Start;
  }

  lemma UnheardFile(k: Config, w: World)
    requires k.Valid() && Unheard(k, w)
    ensures w.client.file == [] && w.client.expected == 0
  {
  }
}
