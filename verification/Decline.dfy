// No step of the server makes a quiet state any better: neither one that cannot complete the
// transfer, nor one that cannot get the client another chunk.
module Decline {
  import opened Bytes
  import opened Pdu
  import opened ServerLoop
  import opened Protocol
  import opened Settled
  import opened Fate
  import R = Rcopy

  lemma WakeEnough(k: Params, s: State)
    requires Inv(k, s) && Enough(k, s) && s.client.mode == R.Flushing
    ensures Enough(k, Wake(s))
  {
    hide Missing, Wake;
    WakeFacts(k, s);
  }

  lemma WakeLastWait(k: Params, s: State, n: nat)
    requires Inv(k, s) && LastWait(s, n) && s.client.mode == R.Flushing
    ensures LastWait(Wake(s), n)
  {
    hide Missing, Wake;
    WakeFacts(k, s);
  }

  lemma WakeMiddle(k: Params, s: State)
    requires Inv(k, s) && Quiet(s) && MiddleAlive(k, s) && s.client.mode == R.Flushing
    requires !s.eof && s.lowest < LastWindow(k)
    ensures MiddleAlive(k, Wake(s))
  {
    hide Missing, Wake;
    WakeFacts(k, s);
    var u := Wake(s);
    assert Edge(u) == Edge(s);
    assert forall p :: Inner(u, p) <==> Inner(s, p);
  }

  lemma WakeHelps(k: Params, s: State)
    requires Inv(k, s) && Quiet(s) && QuietAlive(k, s)
    ensures QuietAlive(k, Wake(s))
  {
    hide Enough, LastWait, MiddleAlive, Wake, Missing;
    if s.client.mode == R.Flushing {
      WakeFacts(k, s);
      var e := s.client.expected;
      if e == k.total {
      } else if s.eof {
        if s.at.Draining? {
          WakeEnough(k, s);
        } else {
          WakeLastWait(k, s, s.at.count);
        }
      } else if s.lowest >= LastWindow(k) {
        WakeEnough(k, s);
      } else {
        WakeMiddle(k, s);
      }
    } else {
      Awake(s);
    }
  }

  // ---------------------------------------------------------------------------
  // No step of the server revives a transfer, whatever becomes of what it sends.
  // ---------------------------------------------------------------------------

  lemma TimeoutAtEnd(k: Params, x: State, s: State, y: State)
    requires Inv(k, x) && Quiet(x) && x.eof && Timeout(x, s) && Quiet(s) && Inv(k, s)
    requires Arrives(s, s.lowest, y) && QuietAlive(k, y)
    ensures QuietAlive(k, x)
  {
    hide Missing, Wake, Read, Arrives, LastWait;
    SameMissing(x, s);
    ArrivesHow(k, s, s.lowest, y);
    SameServer(s, s.lowest, y);
    if x.client.mode == R.Flushing {
      WakeFacts(k, s);
      if y != s {
        SameMissing(Wake(s), y);
      }
      AsleepAtEnd(k, x, y);
    } else if y == s || s.lowest < s.client.expected {
      SameMissing(x, y);
      assert forall n :: Some(Srej(n)) in y.acks ==> Some(Srej(n)) in x.acks;
      LessWaits(k, x, y);
    } else {
      ExpectedAtEnd(k, x, s);
    }
  }

  lemma AsleepAtEnd(k: Params, x: State, y: State)
    requires Inv(k, x) && x.eof && x.at.Waiting? && x.at.count < RESENDS && x.client.mode == R.Flushing
    requires Missing(y) == Missing(x) && y == x.(client := y.client, acks := y.acks, at := y.at)
    requires y.at == Waiting(x.at.count + 1) && QuietAlive(k, y)
    ensures QuietAlive(k, x)
  {
    MissingFacts(k, x);
  }

  lemma LessWaits(k: Params, x: State, y: State)
    requires x.eof && x.at.Waiting? && x.at.count < RESENDS
    requires Missing(y) == Missing(x) && y == x.(acks := y.acks, at := Waiting(x.at.count + 1))
    requires forall n :: Some(Srej(n)) in y.acks ==> Some(Srej(n)) in x.acks
    requires QuietAlive(k, y)
    ensures QuietAlive(k, x)
  {
    hide Missing;
  }

  // The lowest chunk is the expected one, and it arrives.
  lemma ExpectedAtEnd(k: Params, x: State, s: State)
    requires Inv(k, x) && Quiet(x) && x.eof && Timeout(x, s) && Quiet(s) && Inv(k, s)
    requires x.client.mode != R.Flushing && x.lowest == x.client.expected && QuietAlive(k, Read(s, Some(x.lowest)))
    ensures QuietAlive(k, x)
  {
    hide Missing, Read;
    SameMissing(x, s);
    MissingFacts(k, x);
    ReadFacts(k, s, x.lowest);
    ReadKeepsInv(k, s, x.lowest);
    MissingFacts(k, Read(s, Some(x.lowest)));
    assert x.lowest in Missing(x);
    assert Missing(x) - {x.lowest} == {} ==> Missing(x) == {x.lowest};
  }

  lemma GoOnAtEnd(k: Params, x: State, y: State)
    requires Inv(k, x) && Quiet(x) && x.eof && GoOn(k, x, y) && QuietAlive(k, y)
    ensures QuietAlive(k, x)
  {
    hide Missing;
    SameMissing(x, y);
    MissingFacts(k, x);
  }

  // Reading an acknowledgement before the next send gives nothing that was not counted.
  lemma ReadEnough(k: Params, x: State, s: State)
    requires Inv(k, x) && x.at.Draining? && ServerAck(x, s) && x.data == s.data && Enough(k, s)
    requires s.lowest + k.window == k.total ==> x.lowest == s.lowest
    ensures Enough(k, x)
  {
    hide Missing;
    SameMissing(x, s);
    assert forall a :: a in s.acks ==> a in x.acks;
  }

  // An answer to an old SREJ, or a damaged one, does no more than wake the client.
  lemma WokenEnough(k: Params, x: State, y: State)
    requires Inv(k, x) && x.client.mode == R.Flushing && x.at.Draining? && AnySrej(x)
    requires y.client == Wake(x).client && y.lowest == x.lowest && y.current == x.current && y.at == x.at
    requires y.eof == x.eof
    requires Enough(k, y)
    ensures Enough(k, x)
  {
    hide Missing, Wake;
    WakeFacts(k, x);
    SameMissing(Wake(x), y);
  }

  lemma OldEnough(k: Params, x: State, y: State)
    requires y.client == x.client && y.lowest == x.lowest && y.current == x.current && y.at == x.at && y.eof == x.eof
    requires forall a :: a in y.acks && a.Some? && a.value.Srej? ==> a in x.acks
    requires Enough(k, y)
    ensures Enough(k, x)
  {
    hide Missing;
    SameMissing(x, y);
  }

  // The expected chunk costs one packet; the SREJ for it was the last.
  lemma ExpectedEnough(k: Params, x: State, y: State)
    requires Inv(k, x) && x.client.mode == R.Buffering && Asked(x) && x.at.Draining?
    requires x.client.expected in Missing(x) && x.client.expected != Newest(k)
    requires Missing(y) == Missing(x) - {x.client.expected} && y.client.mode == R.Flushing && !AnySrej(y)
    requires y.lowest == x.lowest && y.current == x.current && y.at == x.at && y.eof == x.eof
    requires Enough(k, y)
    ensures Enough(k, x)
  {
    hide Missing;
    MissingFacts(k, x);
    var e, z := x.client.expected, if x.eof then {} else {Newest(k)};
    OneLess(Missing(x), Missing(y), z, e);
    assert x.lowest !in Missing(y);
  }

  lemma AnswerEnough(k: Params, x: State, s: State, n: nat, y: State)
    requires Inv(k, x) && Quiet(x) && x.at.Draining? && ServerAck(x, s) && Quiet(s) && x.acks[0] == Some(Srej(n))
    requires Inv(k, s) && Arrives(s, n, y) && Enough(k, y)
    ensures Enough(k, x)
  {
    hide Enough, Woken, Read;
    assert forall a :: a in s.acks ==> a in x.acks;
    if y == s {
      ReadEnough(k, x, s);
    } else if x.client.mode == R.Flushing {
      SameWake(x, s);
      OldRead(k, s, n);
      WokenEnough(k, x, y);
    } else {
      Awake(s);
      AnswerTaken(k, x, s, n, y);
    }
  }

  lemma AnswerTaken(k: Params, x: State, s: State, n: nat, y: State)
    requires Inv(k, x) && Quiet(x) && x.at.Draining? && ServerAck(x, s) && Quiet(s) && x.acks[0] == Some(Srej(n))
    requires Inv(k, s) && y == Read(s, Some(n)) && Enough(k, y) && x.client.mode != R.Flushing
    ensures Enough(k, x)
  {
    hide Enough, Missing, Read;
    SameMissing(x, s);
    MissingFacts(k, x);
    ReadFacts(k, s, n);
    assert forall a :: a in s.acks ==> a in x.acks;
    if n < x.client.expected {
      OldEnough(k, x, y);
    } else {
      assert !AnySrej(y) by {
        assert forall i :: 1 <= i < |x.acks| && x.acks[i].Some? ==> InTurn(x.acks[0].value, x.acks[i].value);
      }
      ExpectedEnough(k, x, y);
    }
  }

  lemma AckAtEnd(k: Params, x: State, s: State, y: State)
    requires Inv(k, x) && Quiet(x) && (x.eof || x.lowest >= LastWindow(k)) && ServerAck(x, s) && Quiet(s) && Inv(k, s)
    requires y == s || (x.acks[0].Some? && x.acks[0].value.Srej? && Arrives(s, x.acks[0].value.n, y))
    requires QuietAlive(k, y)
    ensures QuietAlive(k, x)
  {
    hide Enough, Missing, Wake, Read;
    if y != s {
      SameServer(s, x.acks[0].value.n, y);
    }
    if y.client.expected == k.total {
      if x.client.expected < k.total {
        LastRead(k, x, s, y);
        WaitsEnough(k, x);
      }
    } else if y == s {
      ReadEnough(k, x, s);
    } else {
      AnswerEnough(k, x, s, x.acks[0].value.n, y);
    }
  }

  lemma WaitsEnough(k: Params, s: State)
    requires Inv(k, s) && !s.at.Top? && Missing(s) == {} && s.client.mode == R.Flushing && AnySrej(s)
    ensures s.eof || s.lowest >= LastWindow(k) ==> QuietAlive(k, s)
  {
  }

  // A last read that completes the file woke the client.
  lemma LastRead(k: Params, x: State, s: State, y: State)
    requires Inv(k, x) && Quiet(x) && ServerAck(x, s) && Quiet(s) && Inv(k, s)
    requires y == s || (x.acks[0].Some? && x.acks[0].value.Srej? && Arrives(s, x.acks[0].value.n, y))
    requires x.client.expected < k.total == y.client.expected
    ensures Missing(x) == {} && x.client.mode == R.Flushing && AnySrej(x)
  {
    hide Missing, Woken, Wake, Read;
    var n := x.acks[0].value.n;
    SameMissing(x, s);
    MissingFacts(k, x);
    assert x.acks[0] in x.acks;
    if x.client.mode == R.Flushing {
      OldRead(k, s, n);
      WakeFacts(k, s);
      WakeKeepsInv(k, s);
      MissingFacts(k, Wake(s));
    } else {
      Awake(s);
      ReadFacts(k, s, n);
    }
  }

  // One more send makes up for one packet at most.
  lemma SendNeed(k: Params, x: State, y: State)
    requires x.at.Top? && !x.eof
    requires Missing(x) - {Newest(k)} <= Missing(y) - if y.eof then {} else {Newest(k)}
    ensures Need(k, x) <= Need(k, y) + 1
  {
    hide Missing;
    Fewer(Missing(x) - {Newest(k)}, Missing(y) - if y.eof then {} else {Newest(k)});
    if Missing(y) == {} {
      assert Missing(x) - {Newest(k)} == {};
    }
  }

  lemma SendEnough(k: Params, x: State, y: State)
    requires x.at.Top? && !x.eof && y.lowest == x.lowest && Sends(k, y) == Sends(k, x) - 1 >= 0
    requires Unasked(x) ==> Unasked(y) && Missing(x) != {} && Newest(k) !in Missing(x)
    requires Missing(x) - {Newest(k)} <= Missing(y) - if y.eof then {} else {Newest(k)}
    requires Enough(k, y)
    ensures Enough(k, x)
  {
    hide Missing, Need;
    SendNeed(k, x, y);
    if OnlyLowest(k, y) {
      SendLowest(k, x, y);
    }
  }

  lemma SendLowest(k: Params, x: State, y: State)
    requires x.at.Top? && !x.eof && OnlyLowest(k, y)
    requires Missing(x) - {Newest(k)} <= Missing(y) - if y.eof then {} else {Newest(k)}
    ensures Need(k, x) <= 2
    ensures Missing(x) != {} && Newest(k) !in Missing(x) ==> Missing(x) == {y.lowest}
  {
    hide Missing;
    Fewer(Missing(x) - {Newest(k)}, {y.lowest});
    if Missing(x) != {} && Newest(k) !in Missing(x) {
      var p :| p in Missing(x);
      assert Missing(x) - {Newest(k)} == Missing(x);
      assert Missing(x) == {y.lowest};
    }
  }

  lemma SendAtTail(k: Params, x: State, s: State, p: nat, y: State)
    requires Inv(k, x) && Quiet(x) && (SendNew(k, x, s) || SendStale(k, x, s)) && Quiet(s) && Inv(k, s)
    requires Arrives(s, p, y)
    requires p + 1 == s.current && x.lowest >= LastWindow(k) && QuietAlive(k, y)
    ensures QuietAlive(k, x)
  {
    hide Missing, Wake, Read, Arrives, Need;
    SendFacts(k, x, s, p, y);
    MissingFacts(k, x);
    MissingFacts(k, y);
    SameServer(s, p, y);
    assert Missing(x) - {Newest(k)} <= Missing(y) - if y.eof then {} else {Newest(k)} by {
      assert forall q :: q in Missing(x) && q != p ==> q in Missing(y) - {p};
    }
    if y.client.expected == k.total {
      SendNeed(k, x, y);
      NoNeed(k, y);
    } else {
      SendEnough(k, x, y);
    }
  }

  lemma NoNeed(k: Params, s: State)
    requires Inv(k, s) && s.client.expected == k.total
    ensures Need(k, s) == 0
  {
    NothingMissing(k, s);
  }

  lemma GoOnAtTail(k: Params, x: State, y: State)
    requires Inv(k, x) && Quiet(x) && !x.eof && x.lowest >= LastWindow(k) && GoOn(k, x, y) && QuietAlive(k, y)
    ensures QuietAlive(k, x)
  {
    hide Missing;
    SameMissing(x, y);
    MissingFacts(k, x);
  }

  // ---------------------------------------------------------------------------
  // Before the last window.
  // ---------------------------------------------------------------------------

  lemma SendInMiddle(k: Params, x: State, s: State, p: nat, y: State)
    requires Inv(k, x) && Quiet(x) && (SendNew(k, x, s) || SendStale(k, x, s)) && Quiet(s) && Inv(k, s)
    requires Arrives(s, p, y)
    requires p + 1 == s.current && x.lowest < LastWindow(k) && QuietAlive(k, y)
    ensures QuietAlive(k, x)
  {
    hide Missing, Wake, Read, Arrives, CanOpen;
    SendFacts(k, x, s, p, y);
    MissingFacts(k, x);
    MissingFacts(k, y);
    SameServer(s, p, y);
    if Unasked(x) && Missing(y) == {x.client.expected} {
      assert Missing(x) - {p} == Missing(x) == {x.client.expected};
    }
  }

  lemma GoOnInMiddle(k: Params, x: State, y: State)
    requires Inv(k, x) && Quiet(x) && !x.eof && x.lowest < LastWindow(k) && GoOn(k, x, y) && QuietAlive(k, y)
    ensures QuietAlive(k, x)
  {
    hide Missing;
    SameMissing(x, y);
    assert Edge(y) == Edge(x) && forall p :: Inner(y, p) <==> Inner(x, p);
  }

  // The client cannot give more numbers to slide to than are missing.
  lemma OpensNoMore(k: Params, x: State, s: State, p: nat, y: State)
    requires Inv(k, x) && Inv(k, s) && Quiet(x) && Quiet(s) && !x.eof && Closed(k, x)
    requires s.client == x.client && s.current == x.current && s.lowest == x.lowest && s.eof == x.eof
    requires forall a :: a in s.acks ==> a in x.acks
    requires p < x.client.expected || (p == x.client.expected && (p == x.lowest || x.client.mode == R.Buffering))
    requires Arrives(s, p, y) && Edge(x) < x.current
    ensures Edge(y) == Edge(x)
    ensures forall n :: x.lowest < n && Some(Rr(n)) in y.acks ==> Some(Rr(n)) in x.acks || n in Missing(x)
    ensures forall n :: n in Missing(y) <==> n in Missing(x) && (n != p || y.client.expected == x.client.expected)
  {
    hide Missing, Wake, Read;
    SameMissing(x, s);
    MissingFacts(k, x);
    SameServer(s, p, y);
    if s.client.mode == R.Flushing {
      WakeFacts(k, s);
    } else {
      Awake(s);
    }
    WakeKeepsInv(k, s);
    MissingFacts(k, Wake(s));
    ReadFacts(k, Wake(s), p);
  }

  lemma TimeoutInMiddle(k: Params, x: State, s: State, y: State)
    requires Inv(k, x) && Quiet(x) && !x.eof && x.lowest < LastWindow(k) && Timeout(x, s) && Quiet(s) && Inv(k, s)
    requires Arrives(s, x.lowest, y) && QuietAlive(k, y) && x.client.expected != k.total
    ensures QuietAlive(k, x)
  {
    hide Missing, Wake, Read, Arrives, CanOpen;
    SameMissing(x, s);
    MissingFacts(k, x);
    ArrivalFacts(k, s, x.lowest, y);
    MissingFacts(k, y);
    if Unasked(x) && x.lowest < x.client.expected {
      SameMissing(x, y);
    }
    if Edge(x) < x.current {
      OpensNoMore(k, x, s, x.lowest, y);
      assert Edge(x) in Missing(x) && Edge(x) in Missing(y);
      TimeoutOpens(k, x, s, y);
    }
  }

  lemma TimeoutOpens(k: Params, x: State, s: State, y: State)
    requires Inv(k, x) && Quiet(x) && !x.eof && x.lowest < LastWindow(k) && Timeout(x, s) && Quiet(s) && Inv(k, s)
    requires Arrives(s, x.lowest, y) && Edge(x) < x.current
    ensures CanOpen(k, y) ==> CanOpen(k, x)
  {
    hide Missing, Wake, Read, Arrives;
    SameServer(s, x.lowest, y);
    OpensNoMore(k, x, s, x.lowest, y);
    assert forall n :: x.lowest < n ==> (n in Missing(y) <==> n in Missing(x));
    assert forall n :: Inner(y, n) <==> Inner(x, n);
  }

  // An acknowledgement read in vain.
  lemma VainInMiddle(k: Params, x: State, s: State)
    requires Inv(k, x) && !x.eof && x.lowest < LastWindow(k) && ServerAck(x, s) && s.data == x.data
    requires s.lowest == x.lowest && MiddleAlive(k, s)
    ensures MiddleAlive(k, x)
  {
    hide Missing, CanOpen, DataInv;
    SameMissing(x, s);
    assert forall a :: a in s.acks ==> a in x.acks;
    if Closed(k, x) && Edge(x) < x.current {
      BehindEdge(k, x);
      assert Edge(s) == Edge(x) && Edge(x) in Missing(x);
      VainOpens(k, x, s);
    }
  }

  lemma VainOpens(k: Params, x: State, s: State)
    requires Inv(k, x) && ServerAck(x, s) && s.data == x.data && s.lowest == x.lowest && Edge(x) < x.current
    requires Unasked(s) ==> s.client.expected < LastWindow(k)
    ensures CanOpen(k, s) ==> CanOpen(k, x)
  {
    hide Missing, DataInv, Gap;
    SameMissing(x, s);
    SameGap(x, s);
    assert forall a :: a in s.acks ==> a in x.acks;
    assert forall n :: Inner(s, n) <==> Inner(x, n);
    assert x.acks[0].Some? && x.acks[0].value.Srej? ==>
      forall i :: 1 <= i < |x.acks| && x.acks[i].Some? ==> InTurn(x.acks[0].value, x.acks[i].value);
  }

  // An answered SREJ cannot make a closed window open that could not.
  lemma AnswerOpens(k: Params, x: State, s: State, n: nat, y: State)
    requires Inv(k, x) && Quiet(x) && !x.eof && x.lowest < LastWindow(k) && ServerAck(x, s) && Quiet(s) && Inv(k, s)
    requires x.acks[0] == Some(Srej(n)) && Arrives(s, n, y) && y != s && Closed(k, x) && Edge(x) < x.current
    requires CanOpen(k, y)
    ensures CanOpen(k, x)
  {
    hide Missing, Wake, Read, Arrives, LateSlide, Inner, ClientInv, DataInv;
    assert forall a :: a in s.acks ==> a in x.acks;
    SameServer(s, n, y);
    OpensNoMore(k, x, s, n, y);
    if !k.even && k.window <= k.total && LateSlide(y, k.total - k.window) {
      if n == x.client.expected {
        LateAsked(k, x, s, n, y);
      } else {
        LateOld(k, x, s, n, y);
      }
    }
  }

  // The SREJ that asked for the expected chunk was the last.
  lemma LateAsked(k: Params, x: State, s: State, n: nat, y: State)
    requires Inv(k, x) && Quiet(x) && !x.eof && x.lowest < LastWindow(k) && ServerAck(x, s) && Quiet(s) && Inv(k, s)
    requires x.acks[0] == Some(Srej(n)) && Arrives(s, n, y) && y != s && Closed(k, x) && Edge(x) < x.current
    requires n == x.client.expected && !k.even && k.window <= k.total && LateSlide(y, k.total - k.window)
    ensures LateSlide(x, k.total - k.window) || (n in Missing(x) && x.lowest < n < LastWindow(k))
  {
    hide Missing, Wake, Read, Arrives, DataInv, Gap;
    MissingFacts(k, x);
    ArrivalFacts(k, s, n, y);
    OpensNoMore(k, x, s, n, y);
    assert forall a :: a in s.acks ==> a in x.acks;
    assert !AnySrej(y) by {
      assert forall i :: 1 <= i < |x.acks| && x.acks[i].Some? ==> InTurn(x.acks[0].value, x.acks[i].value);
    }
    assert forall p :: Inner(x, p) ==> p == n || Inner(y, p);
  }

  lemma LateOld(k: Params, x: State, s: State, n: nat, y: State)
    requires Inv(k, x) && Quiet(x) && !x.eof && x.lowest < LastWindow(k) && ServerAck(x, s) && Quiet(s) && Inv(k, s)
    requires x.acks[0] == Some(Srej(n)) && Arrives(s, n, y) && y != s && Closed(k, x) && Edge(x) < x.current
    requires n < x.client.expected && !k.even && k.window <= k.total && LateSlide(y, k.total - k.window)
    ensures LateSlide(x, k.total - k.window)
  {
    hide Missing, Wake, Read, Arrives, Gap;
    MissingFacts(k, x);
    SameMissing(x, s);
    SameServer(s, n, y);
    OpensNoMore(k, x, s, n, y);
    ArrivesHow(k, s, n, y);
    assert x.acks[0] in x.acks && forall a :: a in s.acks ==> a in x.acks;
    assert forall p :: Inner(x, p) <==> Inner(y, p);
    if x.client.mode == R.Flushing {
      WakeClient(k, s);
      SameGap(x, s);
      assert y.client.mode != R.Flushing && (y.client.mode == R.Buffering ==> Gap(x));
      assert Armed(y) ==> Armed(x);
    } else {
      assert forall m :: Some(Srej(m)) in y.acks ==> Some(Srej(m)) in s.acks;
      assert y.client == x.client && (Armed(y) ==> Armed(x));
    }
  }

  lemma AnswerInMiddle(k: Params, x: State, s: State, n: nat, y: State)
    requires Inv(k, x) && Quiet(x) && !x.eof && x.lowest < LastWindow(k) && ServerAck(x, s) && Quiet(s) && Inv(k, s)
    requires x.acks[0] == Some(Srej(n)) && Arrives(s, n, y) && y != s && QuietAlive(k, y)
    ensures MiddleAlive(k, x)
  {
    hide Missing, Wake, Read, Arrives, CanOpen;
    MissingFacts(k, x);
    ArrivalFacts(k, s, n, y);
    MissingFacts(k, y);
    assert x.acks[0] in x.acks;
    if Unasked(x) {
      assert Some(Srej(x.client.expected)) !in s.acks;
      SameMissing(x, y);
    }
    if Closed(k, x) && Edge(x) < x.current {
      OpensNoMore(k, x, s, n, y);
      assert Edge(x) in Missing(y);
      AnswerOpens(k, x, s, n, y);
    }
  }

  // Everything behind the edge is missing, and the inner ones are.
  lemma SlideNeeds(k: Params, x: State, inner: set<nat>)
    requires Inv(k, x) && !x.eof && Edge(x) < x.current
    requires forall p :: p in inner ==> Inner(x, p)
    ensures |Missing(x) - {Newest(k)}| >= |inner| + x.current - Edge(x) - if x.current == k.total then 1 else 0
  {
    hide Missing;
    var trailing := Range(Edge(x), if x.current == k.total then x.current - 1 else x.current);
    BehindEdge(k, x);
    assert forall p :: p in inner ==> p in Missing(x) && p < Edge(x);
    Disjoint(trailing, inner);
    Fewer(trailing + inner, Missing(x) - {Newest(k)});
  }

  lemma BehindEdge(k: Params, x: State)
    requires Inv(k, x) && Edge(x) < x.current
    ensures forall p :: Edge(x) <= p < x.current ==> p in Missing(x)
    ensures x.current <= k.total
  {
    hide Missing;
    MissingFacts(k, x);
  }

  // The window opens by an RR that is on its way.
  lemma SlideOpens(k: Params, x: State, s: State, n: nat)
    requires Inv(k, x) && !x.eof && x.lowest < LastWindow(k) <= n && ServerAck(x, s) && s.data == x.data
    requires x.acks[0] == Some(Rr(n)) && Closed(k, x) && Edge(x) < x.current && Enough(k, s)
    ensures CanOpen(k, x)
  {
    hide Missing, LateSlide, Need;
    SameMissing(x, s);
    MissingFacts(k, x);
    assert Edge(x) in Missing(x);
    if p, q :| Inner(x, p) && Inner(x, q) && p != q {
      SlideNeeds(k, x, {p, q});
      assert Need(k, s) >= |Missing(s) - {Newest(k)}| by { NeedsAll(k, s); }
      assert p in Missing(s) && q in Missing(s);
    } else if p :| Inner(x, p) {
      OneLate(k, x, s, n, p);
    } else {
      NoneLate(k, x, s, n);
    }
  }

  lemma NeedsAll(k: Params, s: State)
    requires !s.eof && Missing(s) != {}
    ensures Need(k, s) == |Missing(s) - {Newest(k)}| + if s.at.Draining? && Armed(s) then 0 else 1
  {
  }

  lemma OneLate(k: Params, x: State, s: State, n: nat, p: nat)
    requires Inv(k, x) && !x.eof && x.lowest < LastWindow(k) <= n && ServerAck(x, s) && s.data == x.data
    requires x.acks[0] == Some(Rr(n)) && Closed(k, x) && Edge(x) < x.current && Enough(k, s)
    requires Inner(x, p) && OneInner(x)
    ensures CanOpen(k, x)
  {
    hide Missing, Need, Gap, ClientInv, DataInv, AcksInv;
    SameMissing(x, s);
    SameGap(x, s);
    BehindEdge(k, x);
    SlideNeeds(k, x, {p});
    NeedsAll(k, s);
    assert x.acks[0] in x.acks && forall a :: a in s.acks ==> a in x.acks;
    assert Armed(s) ==> Armed(x);
    assert Edge(x) in Missing(x);
    assert Inner(x, n) ==> n == p;
  }

  lemma NoneLate(k: Params, x: State, s: State, n: nat)
    requires Inv(k, x) && !x.eof && x.lowest < LastWindow(k) <= n && ServerAck(x, s) && s.data == x.data
    requires x.acks[0] == Some(Rr(n)) && Closed(k, x) && Edge(x) < x.current && Enough(k, s)
    requires forall p :: !Inner(x, p)
    ensures CanOpen(k, x)
  {
    hide Missing, Need, DataInv;
    SameMissing(x, s);
    MissingFacts(k, x);
    SlideNeeds(k, x, {});
    NeedsAll(k, s);
    assert x.acks[0] in x.acks;
    assert Edge(x) in Missing(x);
    assert !Armed(s) by {
      assert forall p :: p in Missing(s) && p < s.client.highest ==> Inner(x, p);
    }
  }

  lemma SlideInMiddle(k: Params, x: State, s: State, n: nat)
    requires Inv(k, x) && Inv(k, s) && !x.eof && x.lowest < LastWindow(k) && ServerAck(x, s) && s.data == x.data
    requires x.acks[0] == Some(Rr(n)) && x.lowest < n && QuietAlive(k, s) && x.client.expected < k.total
    ensures MiddleAlive(k, x)
  {
    hide Missing, CanOpen, Need;
    SameMissing(x, s);
    MissingFacts(k, x);
    if Closed(k, x) && Edge(x) < x.current {
      if n < LastWindow(k) {
        OpensBy(k, x, n);
      } else {
        SlideOpens(k, x, s, n);
      }
    }
  }

  lemma OpensBy(k: Params, s: State, p: nat)
    requires s.acks != [] && s.acks[0] == Some(Rr(p)) && s.lowest < p < LastWindow(k)
    ensures CanOpen(k, s)
  {
    assert s.acks[0] in s.acks;
  }

  lemma AckInMiddle(k: Params, x: State, s: State, y: State)
    requires Inv(k, x) && Quiet(x) && !x.eof && x.lowest < LastWindow(k) && ServerAck(x, s) && Quiet(s) && Inv(k, s)
    requires y == s || (x.acks[0].Some? && x.acks[0].value.Srej? && Arrives(s, x.acks[0].value.n, y))
    requires QuietAlive(k, y)
    ensures QuietAlive(k, x)
  {
    hide MiddleAlive, Arrives;
    if x.client.expected < k.total {
      if y != s {
        AnswerInMiddle(k, x, s, x.acks[0].value.n, y);
      } else if s.lowest == x.lowest {
        VainInMiddle(k, x, s);
      } else {
        SlideInMiddle(k, x, s, s.lowest);
      }
    }
  }

  lemma GoOnRevivesNothing(k: Params, x: State, y: State)
    requires Inv(k, x) && Quiet(x) && GoOn(k, x, y) && QuietAlive(k, y)
    ensures QuietAlive(k, x)
  {
    hide Inv, QuietAlive, GoOn;
    if x.eof {
      GoOnAtEnd(k, x, y);
    } else if x.lowest >= LastWindow(k) {
      GoOnAtTail(k, x, y);
    } else {
      GoOnInMiddle(k, x, y);
    }
  }

  // ---------------------------------------------------------------------------
  // Nor does the loss of an acknowledgement, or damage to it.
  // ---------------------------------------------------------------------------

  lemma AckSuffers(k: Params, x: State, y: State)
    requires Inv(k, x) && y == x.(acks := y.acks) && Suffers(x.acks, y.acks) && QuietAlive(k, y)
    ensures QuietAlive(k, x)
  {
    hide Missing, Suffers, Enough, MiddleAlive;
    SameMissing(x, y);
    var i := Suffered(x.acks, y.acks);
    assert forall a :: a in y.acks && a.Some? ==> a in x.acks;
    if x.client.expected < k.total {
      if (x.at.Draining? && x.eof) || (!x.eof && x.lowest >= LastWindow(k)) {
        OldEnough(k, x, y);
      } else if !x.eof {
        SufferInMiddle(k, x, y);
      }
    }
  }

  lemma SufferInMiddle(k: Params, x: State, y: State)
    requires Inv(k, x) && y == x.(acks := y.acks) && Suffers(x.acks, y.acks) && MiddleAlive(k, y)
    ensures MiddleAlive(k, x)
  {
    hide Missing, Suffers, LateSlide;
    SameMissing(x, y);
    MissingFacts(k, x);
    var i := Suffered(x.acks, y.acks);
    assert forall a :: a in y.acks && a.Some? ==> a in x.acks;
    assert Edge(x) == Edge(y) && (Edge(x) < x.current ==> Edge(x) in Missing(x));
    if Edge(x) < x.current && !k.even && k.window <= k.total && LateSlide(y, k.total - k.window) {
      SufferedLate(k, x, y, k.total - k.window);
    }
  }

  lemma SufferedLate(k: Params, x: State, y: State, n: nat)
    requires Inv(k, x) && y == x.(acks := y.acks) && Suffers(x.acks, y.acks) && LateSlide(y, n)
    requires Unasked(y) ==> y.client.expected < n
    ensures LateSlide(x, n)
  {
    hide Missing, Suffers;
    SameMissing(x, y);
    var i := Suffered(x.acks, y.acks);
    assert forall a :: a in y.acks && a.Some? ==> a in x.acks;
    assert forall p :: Inner(x, p) <==> Inner(y, p);
    if x.acks != [] && x.acks[0] == Some(Srej(n)) && x.client.expected == n && x.client.mode == R.Buffering {
      assert forall j :: 1 <= j < |x.acks| ==> x.acks[j] != Some(Srej(n));
      var j :| 0 <= j < |y.acks| && y.acks[j] == Some(Srej(n));
      assert j == 0;
    }
  }

  // ---------------------------------------------------------------------------
  // The same for the next chunk.
  // ---------------------------------------------------------------------------

  lemma WakeMoves(k: Params, s: State)
    requires Inv(k, s) && QuietMoves(k, s)
    ensures Wake(s).client.expected > s.client.expected || QuietMoves(k, Wake(s))
  {
    hide Missing, Wake;
    if s.client.mode == R.Flushing {
      WakeFacts(k, s);
    } else {
      Awake(s);
    }
  }

  lemma SendMoves(k: Params, x: State, s: State, p: nat, y: State)
    requires Inv(k, x) && Quiet(x) && (SendNew(k, x, s) || SendStale(k, x, s)) && Quiet(s) && Inv(k, s)
    requires Arrives(s, p, y)
    requires p + 1 == s.current && (y.client.expected > x.client.expected || QuietMoves(k, y))
    ensures QuietMoves(k, x)
  {
    hide Missing, Wake, Read, Arrives;
    SendFacts(k, x, s, p, y);
  }

  lemma TimeoutMoves(k: Params, x: State, s: State, y: State)
    requires Inv(k, x) && Quiet(x) && Timeout(x, s) && Quiet(s) && Inv(k, s) && Arrives(s, x.lowest, y)
    requires y.client.expected > x.client.expected || QuietMoves(k, y)
    ensures QuietMoves(k, x)
  {
    hide Wake, Read, Arrives;
    if x.client.mode != R.Flushing && x.lowest < x.client.expected {
      ArrivesHow(k, s, x.lowest, y);
      assert forall n :: Some(Srej(n)) in y.acks ==> Some(Srej(n)) in x.acks;
    }
  }

  lemma GoOnMoves(k: Params, x: State, y: State)
    requires Inv(k, x) && Quiet(x) && GoOn(k, x, y) && QuietMoves(k, y)
    ensures QuietMoves(k, x)
  {
  }

  lemma AckMoves(k: Params, x: State, s: State, y: State)
    requires Inv(k, x) && Quiet(x) && ServerAck(x, s) && Quiet(s) && Inv(k, s)
    requires y == s || (x.acks[0].Some? && x.acks[0].value.Srej? && Arrives(s, x.acks[0].value.n, y))
    requires y.client.expected > x.client.expected || QuietMoves(k, y)
    ensures QuietMoves(k, x)
  {
    hide Wake, Read, Arrives;
    assert x.acks[0] in x.acks && forall a :: a in s.acks ==> a in x.acks;
    if y == s {
      ReadMoves(k, x, s);
    } else {
      var n := x.acks[0].value.n;
      if x.client.mode == R.Flushing {
        ArrivesHow(k, s, n, y);
        WakeFacts(k, s);
      } else if n < x.client.expected {
        ArrivesHow(k, s, n, y);
        assert forall m :: Some(Srej(m)) in y.acks ==> Some(Srej(m)) in s.acks;
      }
    }
  }

  lemma ReadMoves(k: Params, x: State, s: State)
    requires Inv(k, x) && ServerAck(x, s) && QuietMoves(k, s)
    requires x.data == s.data
    ensures QuietMoves(k, x)
  {
    assert forall a :: a in s.acks ==> a in x.acks;
  }

  lemma SufferMoves(k: Params, x: State, y: State)
    requires Inv(k, x) && y == x.(acks := y.acks) && Suffers(x.acks, y.acks) && QuietMoves(k, y)
    ensures QuietMoves(k, x)
  {
    hide Suffers;
    var i := Suffered(x.acks, y.acks);
    assert forall a :: a in y.acks && a.Some? ==> a in x.acks;
  }
}
