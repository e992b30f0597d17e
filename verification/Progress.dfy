// Runs of single moves, in which a packet arrives or is lost, or an acknowledgement damaged.
// What may become of the packets on their way to the client, they can bring about.
module Progress {
  import opened Bytes
  import opened Pdu
  import opened ServerLoop
  import opened Protocol
  import opened Settled
  import opened Fate
  import R = Rcopy

  // Steps without a choice: a send arrives, or the oldest packet of a channel is lost, or the
  // oldest acknowledgement damaged.
  datatype Move =
    | Deliver | FlushOne | DropData | DropAck | DamageAck | SendOne | NextPlace | ResendOne | ReadAck

  predicate Can(k: Params, s: State, m: Move) {
    match m
    case Deliver => s.client.mode != R.Flushing && s.data != []
    case FlushOne => s.client.mode == R.Flushing && s.data != []
    case DropData => s.data != []
    case DropAck => s.acks != []
    case DamageAck => k.noisy && s.acks != [] && s.acks[0].Some?
    case SendOne => s.at.Top? && !s.eof && s.current < s.lowest + k.window && 0 < k.total && s.current <= k.total
    case NextPlace => s.at.Draining? || (s.at.Top? && !s.eof && Closed(k, s))
    case ResendOne => s.at.Waiting? && s.at.count < RESENDS
    case ReadAck => !s.at.Top? && s.acks != []
  }

  function Intact(out: seq<nat>): seq<Option<nat>> {
    if out == [] then [] else [Some(out[0])]
  }

  function Do(k: Params, s: State, m: Move): State
    requires Can(k, s, m)
  {
    match m
    case Deliver => Read(s.(data := s.data[1..]), s.data[0])
    case FlushOne => Flushed(s)
    case DropData => s.(data := s.data[1..])
    case DropAck => s.(acks := s.acks[1..])
    case DamageAck => s.(acks := [None] + s.acks[1..])
    case SendOne =>
      if s.current < k.total then
        s.(current := s.current + 1, data := s.data + [Some(s.current)], at := Draining,
           eof := s.current + 1 == k.total && !k.even)
      else s.(data := s.data + [Some(k.total - 1)], at := Draining, eof := true)
    case NextPlace => s.(at := if Closed(k, s) then Waiting(0) else Top)
    case ResendOne => s.(data := s.data + [Some(s.lowest)], at := Waiting(s.at.count + 1))
    case ReadAck =>
      s.(lowest := Slid(s.lowest, s.acks[0]), data := s.data + Intact(Answer(s, s.acks[0])), acks := s.acks[1..],
         at := AfterRead(s.at))
  }

  lemma {:induction false} HandedIntact<T>(ch: seq<Option<T>>, p: T)
    ensures Handed(ch, ch + [Some(p)], [p]) && Handed(ch, ch, [])
  {
    HandedOne(ch, ch + [Some(p)], [p]);
  }

  lemma MoveIsStep(k: Params, s: State, m: Move)
    requires Can(k, s, m)
    ensures Next(k, s, Do(k, s, m))
  {
    hide Handed;
    var s' := Do(k, s, m);
    match m
    case DropData => assert s'.data == s.data[..0] + s.data[0 + 1..];
    case DropAck => assert s'.acks == s.acks[..0] + s.acks[0 + 1..];
    case DamageAck => assert s'.acks == s.acks[..0] + [None] + s.acks[0 + 1..];
    case Deliver =>
      HandedAll(s.acks, Arrive(s.client, s.data[0]).1);
      assert ClientReceive(s, s');
    case FlushOne =>
      HandedAll(s.acks, Flush(s.client).1);
      assert ClientFlush(s, s');
    case SendOne =>
      HandedIntact(s.data, s.current);
      HandedIntact<nat>(s.data, k.total - 1);
      assert SendNew(k, s, s') || SendStale(k, s, s');
    case NextPlace => assert GoOn(k, s, s');
    case ResendOne =>
      HandedIntact(s.data, s.lowest);
      assert Timeout(s, s');
    case ReadAck =>
      if Answer(s, s.acks[0]) != [] {
        HandedIntact(s.data, Answer(s, s.acks[0])[0]);
      } else {
        HandedIntact(s.data, 0);
        assert s.data + [] == s.data;
      }
      assert ServerAck(s, s');
  }

  predicate CanAll(k: Params, s: State, ms: seq<Move>)
    decreases |ms|
  {
    ms == [] || (Can(k, s, ms[0]) && CanAll(k, Do(k, s, ms[0]), ms[1..]))
  }

  function DoAll(k: Params, s: State, ms: seq<Move>): State
    requires CanAll(k, s, ms)
    decreases |ms|
  {
    if ms == [] then s else DoAll(k, Do(k, s, ms[0]), ms[1..])
  }

  ghost predicate Gets(k: Params, s: State, s': State) {
    exists ms :: CanAll(k, s, ms) && DoAll(k, s, ms) == s'
  }

  lemma Stay(k: Params, s: State)
    ensures Gets(k, s, s)
  {
    assert CanAll(k, s, []) && DoAll(k, s, []) == s;
  }

  lemma {:induction false} Joined(k: Params, s: State, ms: seq<Move>, ns: seq<Move>)
    requires CanAll(k, s, ms) && CanAll(k, DoAll(k, s, ms), ns)
    ensures CanAll(k, s, ms + ns) && DoAll(k, s, ms + ns) == DoAll(k, DoAll(k, s, ms), ns)
    decreases |ms|
  {
    hide Can, Do;
    if ms == [] {
      assert [] + ns == ns;
    } else {
      assert (ms + ns)[1..] == ms[1..] + ns;
      Joined(k, Do(k, s, ms[0]), ms[1..], ns);
    }
  }

  lemma Then(k: Params, a: State, b: State, c: State)
    requires Gets(k, a, b) && Gets(k, b, c)
    ensures Gets(k, a, c)
  {
    hide Can, Do;
    var ms :| CanAll(k, a, ms) && DoAll(k, a, ms) == b;
    var ns :| CanAll(k, b, ns) && DoAll(k, b, ns) == c;
    Joined(k, a, ms, ns);
  }

  lemma One(k: Params, s: State, m: Move)
    requires Can(k, s, m)
    ensures Gets(k, s, Do(k, s, m))
  {
    hide Can, Do;
    assert [m][1..] == [];
    assert CanAll(k, s, [m]) && DoAll(k, s, [m]) == Do(k, s, m);
  }

  lemma StepKeepsInv(k: Params, s: State, m: Move)
    requires Inv(k, s) && Can(k, s, m)
    ensures Inv(k, Do(k, s, m))
  {
    hide Inv, Can, Do, Next;
    MoveIsStep(k, s, m);
    NextKeepsInv(k, s, Do(k, s, m));
  }

  // ---------------------------------------------------------------------------
  // Between quiet states.
  // ---------------------------------------------------------------------------

  ghost predicate Goes(k: Params, s: State, t: State) {
    Gets(k, s, t) && Inv(k, t) && Quiet(t)
  }

  lemma GoesThen(k: Params, a: State, b: State, c: State)
    requires Goes(k, a, b) && Goes(k, b, c)
    ensures Goes(k, a, c)
  {
    hide Gets, Inv;
    Then(k, a, b, c);
  }

  lemma GoesBy(k: Params, s: State, m: Move)
    requires Inv(k, s) && Can(k, s, m) && Quiet(Do(k, s, m))
    ensures Goes(k, s, Do(k, s, m))
  {
    hide Inv, Can, Do, Gets;
    One(k, s, m);
    StepKeepsInv(k, s, m);
  }

  // With a packet ready, the client flushes as far as it can.
  lemma {:induction false} Flushes(k: Params, s: State)
    requires Inv(k, s) && s.data != []
    ensures Gets(k, s, Wake(s))
    decreases if s.client.mode == R.Flushing then 1 else 0, s.client.highest - s.client.expected
  {
    hide Gets, DataInv, AcksInv, CursorsInv, LoopInv;
    if s.client.mode == R.Flushing {
      FlushKeepsClientInv(s.client);
      WakeFlushed(k, s);
      One(k, s, FlushOne);
      Flushes(k, Flushed(s));
      Then(k, s, Flushed(s), Wake(s));
    } else {
      Awake(s);
      Stay(k, s);
    }
  }

  // What is on its way can arrive, or be lost, or wake the client first and then be lost.
  lemma Arriving(k: Params, s: State)
    requires Inv(k, s) && s.data != []
    ensures Gets(k, s, Behind(s)) && Gets(k, s, After(s, s.data[0])) && Gets(k, s, After(s, None))
  {
    hide Gets, Woken, Arrive, May, AcksInv, DataInv, CursorsInv, LoopInv;
    One(k, s, DropData);
    Arrived(k, s);
    Flushes(k, s);
    One(k, Wake(s), DropData);
    Then(k, s, Wake(s), Do(k, Wake(s), DropData));
    NoneTaken(Behind(s));
  }

  lemma Arrived(k: Params, s: State)
    requires Inv(k, s) && s.data != []
    ensures Gets(k, s, After(s, s.data[0]))
  {
    hide Gets, AcksInv, DataInv, CursorsInv, LoopInv, Woken, Arrive;
    Flushes(k, s);
    One(k, Wake(s), Deliver);
    Then(k, s, Wake(s), Do(k, Wake(s), Deliver));
  }

  // So what may be, can be.
  lemma {:induction false} MayGo(k: Params, g: Goal, s: State) returns (t: State)
    requires Inv(k, s) && May(k, g, s)
    ensures Goes(k, s, t) && Holds(k, g, t) && (Counts(g, s) ==> Counts(g, t))
    decreases |s.data|
  {
    hide Inv, Gets, Holds, Taken;
    if s.data == [] {
      Stay(k, s);
      t := s;
    } else {
      MayOf(k, g, s);
      Arriving(k, s);
      var b :=
        if May(k, g, Behind(s)) then Behind(s)
        else if May(k, g, After(s, None)) then After(s, None)
        else After(s, s.data[0]);
      t := MayGo(k, g, b);
      Then(k, s, b, t);
    }
  }

  // ---------------------------------------------------------------------------
  // Turns of the server from quiet states, with what is sent arriving.
  // ---------------------------------------------------------------------------

  // What a send from the head of the loop puts on its way.
  function Sent(k: Params, s: State): nat
    requires Can(k, s, SendOne)
  {
    if s.current < k.total then s.current else k.total - 1
  }

  function AfterSend(k: Params, s: State): State
    requires Can(k, s, SendOne)
  {
    if s.current < k.total then
      s.(current := s.current + 1, at := Draining, eof := s.current + 1 == k.total && !k.even)
    else s.(at := Draining, eof := true)
  }

  function AfterResend(s: State): State
    requires s.at.Waiting?
  {
    s.(at := Waiting(s.at.count + 1))
  }

  function AfterHead(s: State): State
    requires s.acks != []
  {
    s.(lowest := Slid(s.lowest, s.acks[0]), acks := s.acks[1..], at := AfterRead(s.at))
  }

  lemma OneArrives(k: Params, s: State, m: Move, t: State, p: nat)
    requires Inv(k, s) && Can(k, s, m) && Do(k, s, m) == t.(data := [Some(p)]) && Quiet(t)
    ensures Inv(k, t) && Goes(k, s, Taken(t, Some(p))) && Goes(k, s, t) && Goes(k, s, Wake(t))
  {
    hide Inv, Gets, Can, Do, Taken, May, Wake;
    var b := t.(data := [Some(p)]);
    StepKeepsInv(k, s, m);
    One(k, s, m);
    MayOf(k, Complete, b);
    Arriving(k, b);
    assert Behind(b) == t;
    Then(k, s, b, After(b, Some(p)));
    Then(k, s, b, t);
    Then(k, s, b, After(b, None));
    WakesTo(k, t, After(b, None));
  }

  lemma WakesTo(k: Params, t: State, y: State)
    requires Inv(k, t) && Quiet(t) && y == Taken(t, None)
    ensures y == Wake(t) && Quiet(y) && ClientInv(t.client)
  {
    hide Woken;
    NoneTaken(t);
  }

  lemma Sending(k: Params, s: State)
    requires Inv(k, s) && Quiet(s) && Can(k, s, SendOne)
    ensures Inv(k, AfterSend(k, s)) && Goes(k, s, Taken(AfterSend(k, s), Some(Sent(k, s))))
  {
    hide Inv, Goes, Taken;
    OneArrives(k, s, SendOne, AfterSend(k, s), Sent(k, s));
  }

  lemma Resending(k: Params, s: State)
    requires Inv(k, s) && Quiet(s) && Can(k, s, ResendOne)
    ensures Inv(k, AfterResend(s)) && Goes(k, s, Taken(AfterResend(s), Some(s.lowest)))
  {
    hide Inv, Goes, Taken;
    OneArrives(k, s, ResendOne, AfterResend(s), s.lowest);
  }

  lemma Answering(k: Params, s: State, n: nat)
    requires Inv(k, s) && Quiet(s) && Can(k, s, ReadAck) && s.acks[0] == Some(Srej(n))
    ensures Inv(k, AfterHead(s)) && Goes(k, s, Taken(AfterHead(s), Some(n)))
  {
    hide Goes, Taken;
    OneArrives(k, s, ReadAck, AfterHead(s), n);
  }

  lemma Reading(k: Params, s: State)
    requires Inv(k, s) && Quiet(s) && Can(k, s, ReadAck) && !(s.acks[0].Some? && s.acks[0].value.Srej?)
    ensures Goes(k, s, AfterHead(s))
  {
    hide Inv, Goes;
    GoesBy(k, s, ReadAck);
  }

  lemma {:induction false} DropTo(k: Params, s: State, i: nat)
    requires Inv(k, s) && Quiet(s) && i <= |s.acks|
    ensures Goes(k, s, s.(acks := s.acks[i..]))
    decreases i
  {
    hide Inv, Gets;
    if i == 0 {
      Stay(k, s);
    } else {
      GoesBy(k, s, DropAck);
      DropTo(k, Do(k, s, DropAck), i - 1);
      assert s.acks[1..][i - 1..] == s.acks[i..];
      GoesThen(k, s, Do(k, s, DropAck), s.(acks := s.acks[i..]));
    }
  }

  // A damaged packet ends a wait.
  lemma Ending(k: Params, s: State)
    requires k.noisy && Inv(k, s) && Quiet(s) && s.at.Waiting? && s.acks != []
    ensures Goes(k, s, s.(acks := s.acks[1..], at := Top))
  {
    hide Inv, Goes;
    if s.acks[0].Some? {
      GoesBy(k, s, DamageAck);
      var d := Do(k, s, DamageAck);
      GoesInv(k, s, d);
      Reading(k, d);
      GoesThen(k, s, d, AfterHead(d));
    } else {
      Reading(k, s);
    }
  }

  lemma GoesInv(k: Params, s: State, t: State)
    requires Goes(k, s, t)
    ensures Inv(k, t) && Quiet(t)
  {
  }

  // What an acknowledgement can leave the server with, it can be read for.
  lemma ReadGoes(k: Params, s: State, i: nat, y: State)
    requires Inv(k, s) && Quiet(s) && !s.at.Top? && i < |s.acks| && ReadTo(s, i, y)
    ensures Goes(k, s, y)
  {
    hide Gets, Woken, Read, DataInv, CursorsInv, LoopInv;
    DropTo(k, s, i);
    var d := s.(acks := s.acks[i..]);
    GoesInv(k, s, d);
    assert d.acks[1..] == s.acks[i + 1..] && AfterHead(d) == AfterAck(s, i);
    if s.acks[i].Some? && s.acks[i].value.Srej? {
      Answered(k, d, s.acks[i].value.n);
    } else {
      Reading(k, d);
    }
    GoesThen(k, s, d, y);
  }

  // The answer to an SREJ arrives, or wakes the client and is lost, or is lost at once.
  lemma Answered(k: Params, s: State, n: nat)
    requires Inv(k, s) && Quiet(s) && Can(k, s, ReadAck) && s.acks[0] == Some(Srej(n))
    ensures Inv(k, AfterHead(s)) && Goes(k, s, AfterHead(s))
    ensures Goes(k, s, Wake(AfterHead(s))) && Goes(k, s, Taken(AfterHead(s), Some(n)))
  {
    hide Goes, Taken;
    OneArrives(k, s, ReadAck, AfterHead(s), n);
  }
}
