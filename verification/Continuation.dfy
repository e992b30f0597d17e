// Continuations of runs of the whole system, and what they cannot bring back.
module Continuation {
  import opened EndToEnd
  import RB = ReorderBuffer
  import P = Protocol
  import F = Fate
  import D = Doom
  import CR = ClientRefinement
  import opened Checksum

  // ---------------------------------------------------------------------------
  // Continuations of runs.
  // ---------------------------------------------------------------------------

  ghost predicate Continues(k: Config, ws: seq<World>, ls: seq<Label>)
    requires k.Valid()
  {
    && |ws| == |ls| + 1
    && forall i :: 0 <= i < |ls| ==> ws[i].Valid() && Next(k, ws[i], ls[i], ws[i + 1])
  }

  // Some continuation leads from w to w'.
  ghost predicate Leads(k: Config, w: World, w': World)
    requires k.Valid()
  {
    exists ws, ls :: Continues(k, ws, ls) && ws[0] == w && ws[|ls|] == w'
  }

  lemma LeadsSame(k: Config, w: World)
    requires k.Valid()
    ensures Leads(k, w, w)
  {
    assert Continues(k, [w], []) && [w][0] == w;
  }

  lemma LeadsOn(k: Config, w0: World, w: World, l: Label, w': World)
    requires k.Valid() && Leads(k, w0, w) && w.Valid() && Next(k, w, l, w')
    ensures Leads(k, w0, w')
  {
    hide Next;
    var ws, ls :| Continues(k, ws, ls) && ws[0] == w0 && ws[|ls|] == w;
    var ws', ls' := ws + [w'], ls + [l];
    forall i | 0 <= i < |ls'|
      ensures ws'[i].Valid() && Next(k, ws'[i], ls'[i], ws'[i + 1])
    {
      if i < |ls| {
        assert ls'[i] == ls[i] && ws'[i] == ws[i] && ws'[i + 1] == ws[i + 1];
      } else {
        assert ls'[i] == l && ws'[i] == w && ws'[i + 1] == w';
      }
    }
    assert Continues(k, ws', ls') && ws'[0] == w0 && ws'[|ls'|] == w';
  }

  lemma ReachedByLeads(k: Config, w: World)
    requires k.Valid()
    ensures Reached(k, w) <==> exists w0 :: Initial(k, w0) && Leads(k, w0, w)
  {
    hide Next, Initial;
    if Reached(k, w) {
      var ws, ls :| IsRun(k, ws, ls) && ws[|ls|] == w;
      assert Continues(k, ws, ls);
      assert Initial(k, ws[0]) && Leads(k, ws[0], w);
    }
    if w0 :| Initial(k, w0) && Leads(k, w0, w) {
      var ws, ls :| Continues(k, ws, ls) && ws[0] == w0 && ws[|ls|] == w;
      assert IsRun(k, ws, ls);
    }
  }

  lemma ReachedNext(k: Config, w: World, l: Label, w': World)
    requires k.Valid() && Reached(k, w) && w.Valid() && Next(k, w, l, w')
    ensures Reached(k, w')
  {
    hide Next, Initial, Leads, Reached;
    ReachedByLeads(k, w);
    var w0 :| Initial(k, w0) && Leads(k, w0, w);
    LeadsOn(k, w0, w, l, w');
    ReachedByLeads(k, w');
  }

  lemma Facts(k: Config, w: World)
    requires k.Valid() && Reached(k, w)
    ensures w.Valid() && ServerWF(k, w.server) && ClientWF(k, w.client) && CR.Good(w.client) && WF(k, w)
    ensures |w.client.buffer.slots| == k.window && RB.WellPlaced(w.client.buffer)
    ensures P.Inv(Params(k), Abs(k, w))
  {
    hide WF, P.Inv, CR.Good, ServerWF, ClientWF, Abs;
    ReachedHolds(k, w);
    WFValid(k, w);
  }

  // ---------------------------------------------------------------------------
  // What cannot move never does.
  // ---------------------------------------------------------------------------

  // The protocol state can still move, or can still complete the transfer.
  ghost predicate Moves(k: Config, w: World)
    requires k.Valid() && RB.WellPlaced(w.client.buffer)
  {
    P.Inv(Params(k), Abs(k, w)) && F.Moves(Params(k), Abs(k, w))
  }

  ghost predicate Alive(k: Config, w: World)
    requires k.Valid() && RB.WellPlaced(w.client.buffer)
  {
    P.Inv(Params(k), Abs(k, w)) && F.Alive(Params(k), Abs(k, w))
  }

  lemma StepRevivesNothing(k: Config, w: World, l: Label, w': World)
    requires k.Valid() && Reached(k, w) && RB.WellPlaced(w.client.buffer) && w.Valid() && Next(k, w, l, w')
    ensures Reached(k, w') && w'.Valid() && RB.WellPlaced(w'.client.buffer)
    ensures !Alive(k, w) ==> !Alive(k, w')
    ensures !Moves(k, w) ==> !Moves(k, w') && w'.client.expected == w.client.expected
  {
    hide Reached, Next, F.Alive, F.Moves, P.Inv, WF, P.Next, CR.Good, RB.WellPlaced, ServerWF, ClientWF, CR.Abs;
    Facts(k, w);
    StepSimulates(k, w, l, w');
    ReachedNext(k, w, l, w');
    Facts(k, w');
    AcksUnspoilt(k, w');
    if !Alive(k, w) {
      D.NeverRevived(Params(k), Abs(k, w), Abs(k, w'));
    }
    if !Moves(k, w) {
      D.NeverMoves(Params(k), Abs(k, w), Abs(k, w'));
      SameExpected(k, w, w');
    }
  }

  lemma AcksUnspoilt(k: Config, w: World)
    requires k.Valid() && WF(k, w) && RB.WellPlaced(w.client.buffer)
    ensures D.Unspoilt(Params(k), Abs(k, w))
  {
    hide ServerWF, ClientWF, DataInFlight, AckInFlight, Nums, CR.Abs, Cksum, AckOf, RB.WellPlaced;
    if !k.noisy {
      forall i | 0 <= i < |w.toServer|
        ensures AckSeen(k.server, w.toServer[i]).Some?
      {
        assert w.toServer[i] in w.toServer;
      }
    }
  }

  lemma SameExpected(k: Config, w: World, w': World)
    requires RB.WellPlaced(w.client.buffer) && RB.WellPlaced(w'.client.buffer) && k.Valid()
    requires Abs(k, w').client.expected == Abs(k, w).client.expected
    ensures w'.client.expected == w.client.expected
  {
  }

  lemma {:induction false} ContinuationRevivesNothing(k: Config, ws: seq<World>, ls: seq<Label>, i: nat)
    requires k.Valid() && Continues(k, ws, ls) && Reached(k, ws[0]) && RB.WellPlaced(ws[0].client.buffer) && i <= |ls|
    ensures Reached(k, ws[i]) && RB.WellPlaced(ws[i].client.buffer)
    ensures !Alive(k, ws[0]) ==> !Alive(k, ws[i])
    ensures !Moves(k, ws[0]) ==> !Moves(k, ws[i]) && ws[i].client.expected == ws[0].client.expected
  {
    hide Reached, Next, Alive, Moves, RB.WellPlaced;
    if i > 0 {
      ContinuationRevivesNothing(k, ws, ls, i - 1);
      StepRevivesNothing(k, ws[i - 1], ls[i - 1], ws[i]);
    }
  }

  lemma CompleteIsAlive(k: Config, w: World)
    requires k.Valid() && Reached(k, w) && RB.WellPlaced(w.client.buffer) && w.client.expected == k.Total()
    ensures Alive(k, w)
  {
    hide Reached, RB.Contents, Nums, Acks, WF, ServerWF, ClientWF, CR.Good, P.Inv, F.QuietAlive;
    Facts(k, w);
    D.CompleteIsAlive(Params(k), Abs(k, w));
  }
}
