// Runs of the server's loop inside runs of the system: the loop's turns, interleaved in any
// way with what the client does and what the network loses or damages, are a run of the system, and
// every run of the system is one of those.
module LoopRuns {
  import opened Pdu
  import opened EndToEnd
  import E = ErrorChannel
  import L = ServerLoop

  datatype Action = Turn(t: L.Turn, ds: seq<E.Draws>) | Other(l: Label)

  // A turn hands the loop the packet that has been in the channel longest.
  ghost predicate Acts(k: Config, w: World, a: Action, w': World)
    requires k.Valid() && w.Valid()
  {
    match a
    case Turn(t, ds) =>
      && (t.Handle? ==> w.toServer != [] && t.packet == w.toServer[0])
      && ServerTurn(k, w, t, if t.Proceed? then [] else ds, if t.Handle? then w.toServer[1..] else w.toServer, w')
    case Other(l) => (l.RecvData? || l.Flush? || Network(l)) && Next(k, w, l, w')
  }

  function LabelOf(a: Action): Label {
    match a
    case Turn(Send, ds) => SendNext(ds)
    case Turn(Resend, ds) => Timeout(ds)
    case Turn(Handle(_), ds) => RecvAck(ds)
    case Turn(Proceed, _) => Label.Proceed
    case Other(l) => l
  }

  function Labels(acts: seq<Action>): (ls: seq<Label>)
    ensures |ls| == |acts| && forall i :: 0 <= i < |acts| ==> ls[i] == LabelOf(acts[i])
  {
    seq(|acts|, i requires 0 <= i < |acts| => LabelOf(acts[i]))
  }

  // The loop's own turns among the actions.
  function Turns(acts: seq<Action>): seq<L.Turn> {
    if acts == [] then []
    else Turns(acts[..|acts| - 1]) + if acts[|acts| - 1].Turn? then [acts[|acts| - 1].t] else []
  }

  ghost predicate Schedule(k: Config, ws: seq<World>, acts: seq<Action>)
    requires k.Valid()
  {
    && |ws| == |acts| + 1 && Initial(k, ws[0])
    && forall i :: 0 <= i < |acts| ==> ws[i].Valid() && Acts(k, ws[i], acts[i], ws[i + 1])
  }

  lemma ActIsStep(k: Config, w: World, a: Action, w': World)
    requires k.Valid() && w.Valid() && Acts(k, w, a, w')
    ensures Next(k, w, LabelOf(a), w')
  {
    hide ServerTurn;
  }

  lemma StepIsAct(k: Config, w: World, l: Label, w': World) returns (a: Action)
    requires k.Valid() && w.Valid() && Next(k, w, l, w')
    ensures Acts(k, w, a, w') && LabelOf(a) == l
  {
    hide ServerTurn;
    match l
    case SendNext(ds) => a := Turn(L.Send, ds);
    case Timeout(ds) => a := Turn(L.Resend, ds);
    case Proceed => a := Turn(L.Proceed, []);
    case RecvAck(ds) => a := Turn(L.Handle(w.toServer[0]), ds);
    case _ => a := Other(l);
  }

  // A schedule is a run of the system, so the results about reached states hold along it.
  lemma ScheduleIsRun(k: Config, ws: seq<World>, acts: seq<Action>)
    requires k.Valid() && Schedule(k, ws, acts)
    ensures IsRun(k, ws, Labels(acts))
    ensures forall i :: 0 <= i <= |acts| ==> Reached(k, ws[i])
  {
    hide Acts, Next, Initial, LabelOf;
    var ls := Labels(acts);
    forall i | 0 <= i < |ls|
      ensures Next(k, ws[i], ls[i], ws[i + 1])
    {
      ActIsStep(k, ws[i], acts[i], ws[i + 1]);
    }
    forall i | 0 <= i <= |acts|
      ensures Reached(k, ws[i])
    {
      assert IsRun(k, ws[..i + 1], ls[..i]) && ws[..i + 1][i] == ws[i];
    }
  }

  lemma {:induction false} RunIsSchedule(k: Config, ws: seq<World>, ls: seq<Label>) returns (acts: seq<Action>)
    requires k.Valid() && IsRun(k, ws, ls)
    ensures Schedule(k, ws, acts) && Labels(acts) == ls
    decreases |ls|
  {
    hide Acts, Next, Initial, LabelOf;
    if ls == [] {
      acts := [];
    } else {
      var n := |ls| - 1;
      var front := RunIsSchedule(k, ws[..n + 1], ls[..n]);
      var a := StepIsAct(k, ws[n], ls[n], ws[n + 1]);
      acts := front + [a];
      forall i | 0 <= i < |acts|
        ensures Acts(k, ws[i], acts[i], ws[i + 1])
      {
        if i < n {
          assert ws[..n + 1][i] == ws[i] && ws[..n + 1][i + 1] == ws[i + 1];
        }
      }
      forall i | 0 <= i < |acts|
        ensures Labels(acts)[i] == ls[i]
      {
        if i < n {
          assert ls[..n][i] == Labels(front)[i] == LabelOf(front[i]);
        }
      }
    }
  }

  // In it the server does what its loop does in these turns: no other step touches it.
  lemma {:induction false} ScheduleRunsLoop(k: Config, ws: seq<World>, acts: seq<Action>, n: nat)
    requires k.Valid() && Schedule(k, ws, acts) && n <= |acts|
    ensures ws[0].Valid() && L.Legal(k.server, k.file, k.chunk, ws[0].Loop(), Turns(acts[..n]))
    ensures L.Run(k.server, k.file, k.chunk, ws[0].Loop(), Turns(acts[..n])).next == ws[n].Loop()
  {
    hide Acts, Next, Initial, L.Take, L.Allowed;
    if n == 0 {
      StartValid(k, ws[0]);
      assert acts[..0] == [];
    } else {
      ScheduleRunsLoop(k, ws, acts, n - 1);
      assert acts[..n][..n - 1] == acts[..n - 1];
      var i := n - 1;
      var a := acts[i];
      assert Acts(k, ws[i], acts[i], ws[i + 1]);
      if a.Turn? {
        TurnMoves(k, ws[i], a, ws[i + 1]);
        L.RunSnoc(k.server, k.file, k.chunk, ws[0].Loop(), Turns(acts[..n - 1]), a.t);
      } else {
        OthersLeaveServer(k, ws[i], a, ws[i + 1]);
        assert Turns(acts[..n]) == Turns(acts[..n - 1]);
      }
    }
  }

  lemma TurnMoves(k: Config, w: World, a: Action, w': World)
    requires k.Valid() && w.Valid() && a.Turn? && Acts(k, w, a, w')
    ensures L.Allowed(w.Loop(), a.t) && w'.Loop() == L.Take(k.server, k.file, k.chunk, w.Loop(), a.t).next
  {
    hide L.Take, L.Allowed;
  }

  lemma StartValid(k: Config, w: World)
    requires k.Valid() && Initial(k, w)
    ensures w.Valid() && w.server.pos == 0
  {
  }

  lemma OthersLeaveServer(k: Config, w: World, a: Action, w': World)
    requires k.Valid() && w.Valid() && a.Other? && Acts(k, w, a, w')
    ensures w'.Loop() == w.Loop()
  {
  }

  // So an execution of serverWindowControl, on any poll results and on the packets that the
  // channel hands it, ends in a state of the system that some run reaches.
  lemma ExecutionIsReached(k: Config, ws: seq<World>, acts: seq<Action>, polls: seq<bool>, inbox: seq<Packet>)
    requires k.Valid() && Schedule(k, ws, acts)
    requires Turns(acts) == L.Trace(k.server, k.file, k.chunk, polls, inbox, L.Machine(ws[0].Loop(), 0, 0, []))
    ensures Reached(k, ws[|acts|])
    ensures ws[|acts|].Loop() == L.Exec(k.server, k.file, k.chunk, polls, inbox, L.Machine(ws[0].Loop(), 0, 0, [])).loop
  {
    hide Acts, Next, Initial, L.Trace, L.Exec, Reached, L.Legal, L.Run;
    StartValid(k, ws[0]);
    ScheduleIsRun(k, ws, acts);
    assert acts[..|acts|] == acts;
    ScheduleRunsLoop(k, ws, acts, |acts|);
    L.ExecIsRun(k.server, k.file, k.chunk, polls, inbox, L.Machine(ws[0].Loop(), 0, 0, []));
  }
}
