// How transfers get on from the start, and how they are lost for good.
module Losses {
  import opened Bytes
  import opened Pdu
  import opened ServerLoop
  import opened Protocol
  import opened Settled
  import opened Fate
  import opened Progress
  import R = Rcopy

  lemma Further(k: Params, a: State, b: State, m: Move)
    requires Gets(k, a, b) && Can(k, b, m)
    ensures Gets(k, a, Do(k, b, m))
  {
    hide Can, Do, Gets;
    One(k, b, m);
    Then(k, a, b, Do(k, b, m));
  }

  // n chunks transferred and acknowledged, and the loop at its head.
  function Acknowledged(k: Params, n: nat): State {
    State(n, n, Client(R.InOrder, n, if n > 0 then n - 1 else 0, {}), [], [], Top, n == k.total && !k.even)
  }

  lemma {:induction false} AllSent(k: Params, n: nat)
    requires k.Valid() && n <= k.total
    ensures Gets(k, Init(), Acknowledged(k, n))
  {
    hide Gets;
    if n == 0 {
      Stay(k, Init());
    } else {
      AllSent(k, n - 1);
      var a := Acknowledged(k, n - 1);
      Further(k, Init(), a, SendOne);
      var b := Do(k, a, SendOne);
      Further(k, Init(), b, Deliver);
      var c := Do(k, b, Deliver);
      Further(k, Init(), c, ReadAck);
      var d := Do(k, c, ReadAck);
      Further(k, Init(), d, NextPlace);
      assert Do(k, d, NextPlace) == Acknowledged(k, n);
    }
  }

  // A send from the head of the loop that is lost, and the loop goes on.
  lemma SendLost(k: Params, s: State) returns (t: State)
    requires Gets(k, Init(), s) && Can(k, s, SendOne) && Quiet(s)
    ensures Gets(k, Init(), t) && t == AfterSend(k, s)
  {
    hide Gets;
    Further(k, Init(), s, SendOne);
    var b := Do(k, s, SendOne);
    Further(k, Init(), b, DropData);
    t := Do(k, b, DropData);
  }

  lemma GoneOn(k: Params, s: State) returns (t: State)
    requires Gets(k, Init(), s) && Can(k, s, NextPlace)
    ensures Gets(k, Init(), t) && t == s.(at := if Closed(k, s) then Waiting(0) else Top)
  {
    hide Gets;
    Further(k, Init(), s, NextPlace);
    t := Do(k, s, NextPlace);
  }

  // n chunks transferred, then one lost and the next one received: the SREJ is on its way.
  lemma Reordered(k: Params, n: nat) returns (t: State)
    requires k.Valid() && n + 2 <= k.total && 2 <= k.window
    ensures Gets(k, Init(), t)
    ensures t == State(n, n + 2, Client(R.Buffering, n, n + 1, {n + 1}), [], [Some(Srej(n))], Draining,
                       n + 2 == k.total && !k.even)
  {
    hide Gets;
    AllSent(k, n);
    t := SendLost(k, Acknowledged(k, n));
    t := GoneOn(k, t);
    Further(k, Init(), t, SendOne);
    t := Do(k, t, SendOne);
    Further(k, Init(), t, Deliver);
    t := Do(k, t, Deliver);
  }

  // The SREJ is answered and the answer arrives: the client flushes when it is next woken.
  lemma Asleep(k: Params, n: nat) returns (t: State)
    requires k.Valid() && n + 2 <= k.total && 2 <= k.window
    ensures Gets(k, Init(), t)
    ensures t == State(n, n + 2, Client(R.Flushing, n + 1, n + 1, {n + 1}), [], [], Draining,
                       n + 2 == k.total && !k.even)
  {
    hide Gets;
    t := Reordered(k, n);
    Further(k, Init(), t, ReadAck);
    t := Do(k, t, ReadAck);
    Further(k, Init(), t, Deliver);
    t := Do(k, t, Deliver);
  }

  lemma {:induction false} WaitLost(k: Params, s: State, n: nat) returns (t: State)
    requires Gets(k, Init(), s) && s.at == Waiting(0) && Quiet(s) && n <= RESENDS
    ensures Gets(k, Init(), t) && t == s.(at := Waiting(n))
  {
    hide Gets;
    if n == 0 {
      t := s;
    } else {
      t := WaitLost(k, s, n - 1);
      Further(k, Init(), t, ResendOne);
      t := Do(k, t, ResendOne);
      Further(k, Init(), t, DropData);
      t := Do(k, t, DropData);
    }
  }

  // n chunks sent and lost.
  lemma {:induction false} ChunksLost(k: Params, n: nat) returns (t: State)
    requires n < k.total && n < k.window
    ensures Gets(k, Init(), t) && t == Init().(current := n)
  {
    hide Gets;
    if n == 0 {
      Stay(k, Init());
      t := Init();
    } else {
      t := ChunksLost(k, n - 1);
      t := SendLost(k, t);
      t := GoneOn(k, t);
    }
  }

  // The whole window lost, and all resends of its first chunk.
  lemma ResendsLost(k: Params) returns (t: State)
    requires k.window <= k.total
    ensures Gets(k, Init(), t) && Quiet(t) && !QuietAlive(k, t) && !QuietMoves(k, t)
    ensures t.at == Waiting(RESENDS) && t.client.expected == 0 && t.current == k.window
  {
    hide Gets;
    t := ChunksLost(k, k.window - 1);
    t := SendLost(k, t);
    t := GoneOn(k, t);
    t := WaitLost(k, t, RESENDS);
    assert 0 in Missing(t);
  }

  // The whole file lost, before the window is closed.
  lemma FileLost(k: Params) returns (t: State)
    requires 0 < k.total < k.window
    ensures Gets(k, Init(), t) && Quiet(t) && !QuietAlive(k, t) && !QuietMoves(k, t)
    ensures t.at == Top && t.eof && t.client.expected == 0
  {
    hide Gets;
    t := ChunksLost(k, k.total - 1);
    t := SendLost(k, t);
    t := GoneOn(k, t);
    if !t.eof {
      t := SendLost(k, t);
      t := GoneOn(k, t);
    }
  }

  // With the window closed on a client that has everything but sleeps, all resends are lost.
  lemma AsleepAtWindow(k: Params) returns (t: State)
    requires k.Valid() && k.window == 2 && (k.total >= 3 || (k.total == 2 && k.even))
    ensures Gets(k, Init(), t) && Quiet(t) && !QuietAlive(k, t) && !QuietMoves(k, t) && Missing(t) == {}
    ensures t == State(0, 2, Client(R.Flushing, 1, 1, {1}), [], [], Waiting(RESENDS), false)
  {
    hide Gets;
    t := Asleep(k, 0);
    t := GoneOn(k, t);
    t := WaitLost(k, t, RESENDS);
  }

  // With the window open, the loop ends behind a client that has everything but sleeps.
  lemma AsleepAtEnd(k: Params) returns (t: State)
    requires k.Valid() && k.window >= 3 && k.total >= 2 && !k.even
    ensures Gets(k, Init(), t) && Quiet(t) && !QuietAlive(k, t) && !QuietMoves(k, t) && Missing(t) == {}
    ensures t.at == Top && t.eof && t.acks == [] && t.client.mode == R.Flushing && t.client.expected == k.total - 1
  {
    hide Gets;
    t := Asleep(k, k.total - 2);
    t := GoneOn(k, t);
  }

  // Two chunks from the end one is lost, and perhaps the last one too: what the server still
  // sends cannot bring back both it and the client.
  lemma LostEarly(k: Params) returns (t: State)
    requires k.Valid() && 2 <= k.total && 3 <= k.window
    ensures Gets(k, Init(), t) && Quiet(t) && !QuietAlive(k, t) && t.at == Draining && !t.eof
  {
    hide Gets;
    var n := k.total - 2;
    AllSent(k, n);
    t := SendLost(k, Acknowledged(k, n));
    assert Missing(t) == {n};
    if k.even {
      t := GoneOn(k, t);
      t := SendLost(k, t);
      assert Missing(t) - {Newest(k)} == {n};
    }
  }

  // While the loop neither waits nor has ended, that takes two chunks and a window of three.
  lemma RunningAlive(k: Params, s: State)
    requires Inv(k, s) && Quiet(s) && !s.eof && !s.at.Waiting? && (k.total < 2 || k.window < 3)
    ensures QuietAlive(k, s)
  {
    hide Missing;
    MissingFacts(k, s);
  }

  // What is on its way may be lost.
  lemma {:induction false} StillAlive(k: Params, s: State)
    requires Inv(k, s) && !s.eof && !s.at.Waiting? && (k.total < 2 || k.window < 3)
    ensures Alive(k, s)
    decreases |s.data|
  {
    hide Inv, QuietAlive;
    if s.data == [] {
      RunningAlive(k, s);
    } else {
      MayOf(k, Complete, s);
      StillAlive(k, Behind(s));
    }
  }

  lemma InitAlive(k: Params)
    requires k.Valid()
    ensures Inv(k, Init()) && Alive(k, Init())
  {
    hide Enough, MiddleAlive;
    if k.total > 0 {
      if 0 >= LastWindow(k) {
        FirstEnough(k);
      } else {
        FirstMiddle(k);
      }
    }
  }

  lemma FirstEnough(k: Params)
    requires k.total > 0
    ensures Enough(k, Init())
  {
    assert Missing(Init()) == {};
  }

  lemma FirstMiddle(k: Params)
    ensures MiddleAlive(k, Init())
  {
  }
}
