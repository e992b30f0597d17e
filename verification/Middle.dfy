// Completing a transfer while the window can still be closed again before the end.
module Middle {
  import opened Bytes
  import opened Pdu
  import opened ServerLoop
  import opened Protocol
  import opened Settled
  import opened Fate
  import opened Progress
  import opened Completion
  import R = Rcopy

  // ---------------------------------------------------------------------------
  // An open window is closed with everything that is sent arriving.
  // ---------------------------------------------------------------------------

  lemma OpenSends(k: Params, s: State) returns (t: State)
    requires Inv(k, s) && Quiet(s) && !s.eof && s.lowest < LastWindow(k) && MiddleAlive(k, s)
    requires s.at.Top? && !Closed(k, s)
    ensures Goes(k, s, t) && !t.eof && MiddleAlive(k, t) && t.at.Draining?
    ensures t.lowest == s.lowest && t.current == s.current + 1 && t.client.expected >= s.client.expected
  {
    hide Missing, Goes, Taken, Edge;
    SentArrives(k, s);
    MissingFacts(k, s);
    t := Taken(AfterSend(k, s), Some(Sent(k, s)));
    assert Missing(t) == Missing(s);
  }

  lemma OpenPlaces(k: Params, s: State) returns (t: State)
    requires Inv(k, s) && Quiet(s) && !s.eof && MiddleAlive(k, s) && s.at.Draining? && !Closed(k, s)
    ensures Goes(k, s, t) && t == s.(at := Top) && MiddleAlive(k, t)
  {
    hide Missing, Goes;
    GoesBy(k, s, NextPlace);
    t := Do(k, s, NextPlace);
    SameMissing(s, t);
  }

  // ---------------------------------------------------------------------------
  // Behind a closed window, timeouts and answers fill every gap.
  // ---------------------------------------------------------------------------

  ghost predicate Shut(k: Params, s: State) {
    Inv(k, s) && Quiet(s) && !s.eof && Closed(k, s) && !Stranded(s)
  }

  // A timeout can resend the lowest chunk, and leave the server with something to wait for.
  predicate Steady(s: State) {
    && s.at.Waiting? && s.at.count < RESENDS
    && !(s.at.count + 1 == RESENDS && s.client.mode == R.Buffering && s.lowest == s.client.expected)
  }

  // Nothing is left to the last resend that the client's answer would not be there for.
  predicate Free(k: Params, s: State) {
    k.noisy || s.at != Waiting(RESENDS)
    || (s.client.mode != R.Flushing && s.lowest < s.client.expected && EndsWith(s.acks, Rr(s.client.expected))
        && (s.client.mode == R.Buffering ==> Asked(s)))
  }

  predicate EndsWith(acks: seq<Option<Ack>>, a: Ack) {
    acks != [] && acks[|acks| - 1] == Some(a)
  }

  // A packet that is read ends the wait without opening the window: a damaged one, or any
  // while the client expects the lowest chunk and has not asked for it.
  lemma Steadies(k: Params, s: State) returns (t: State)
    requires Shut(k, s) && (k.noisy || s.at != Waiting(RESENDS))
    requires s.client.mode == R.Buffering && s.lowest == s.client.expected ==> !Asked(s)
    ensures Goes(k, s, t) && Shut(k, t) && Steady(t) && t == s.(at := t.at, acks := t.acks)
    ensures t.acks == s.acks || (s.at.Waiting? && !Steady(s) && s.acks != [] && t.acks == s.acks[1..])
    ensures t.acks == s.acks || k.noisy || s.lowest == s.client.expected
  {
    hide ClientInv, DataInv, Gets;
    if Steady(s) {
      Stay(k, s);
      t := s;
    } else {
      var b := s;
      if s.at.Waiting? {
        if k.noisy {
          Ending(k, s);
        } else {
          Harmless(k, s);
        }
        b := s.(acks := s.acks[1..], at := Top);
      } else {
        Stay(k, s);
      }
      GoesBy(k, b, NextPlace);
      t := Do(k, b, NextPlace);
      GoesThen(k, s, b, t);
    }
  }

  lemma Harmless(k: Params, s: State)
    requires Inv(k, s) && Quiet(s) && s.at.Waiting? && s.acks != []
    requires s.client.mode == R.Buffering && s.lowest == s.client.expected && !Asked(s)
    ensures Goes(k, s, s.(acks := s.acks[1..], at := Top))
  {
    hide Goes, DataInv;
    assert s.acks[0] in s.acks;
    Reading(k, s);
  }

  // There is a next chunk to get without opening the window.
  predicate Fillable(s: State) {
    s.client.mode == R.Flushing || s.lowest == s.client.expected || (s.client.mode == R.Buffering && Asked(s))
  }

  // What filling keeps, and how it gets on.
  ghost predicate Fills(k: Params, s: State, t: State) {
    && Goes(k, s, t) && Shut(k, t) && Free(k, t) && t.lowest == s.lowest && t.current == s.current && Edge(t) == Edge(s)
    && t.client.expected >= s.client.expected && (t.client.mode == R.Buffering ==> Asked(t))
    && Missing(t) == Missing(s) - (if s.client.mode == R.Flushing then {} else {s.client.expected})
    && (s.client.mode == R.Flushing ==> t.client.mode != R.Flushing && EndsWith(t.acks, Rr(t.client.expected)))
    && (s.client.mode != R.Flushing ==> t.client.expected == s.client.expected + 1 && t.client.mode != R.Buffering)
  }

  lemma FillAsked(k: Params, s: State) returns (t: State)
    requires Shut(k, s) && s.client.mode == R.Buffering && Asked(s) && !s.at.Top?
    ensures Fills(k, s, t)
  {
    hide Missing, Wake, Read, Gets;
    var e := s.client.expected;
    var i :| 0 <= i < |s.acks| && s.acks[i] == Some(Srej(e));
    var h := AnswerAt(k, s, i, e);
    SameMissing(s, h);
    Awake(h);
    ReadFacts(k, h, e);
    t := Taken(h, Some(e));
  }

  lemma FillResent(k: Params, s: State) returns (t: State)
    requires Shut(k, s) && Steady(s) && (s.client.mode == R.Flushing || s.lowest == s.client.expected)
    ensures Fills(k, s, t)
  {
    hide Missing, Wake, Read, Gets;
    Resending(k, s);
    var h := AfterResend(s);
    SameMissing(s, h);
    t := Taken(h, Some(s.lowest));
    if s.client.mode == R.Flushing {
      OldWakes(k, h, s.lowest);
    } else {
      Awake(h);
      ReadFacts(k, h, s.lowest);
      ExpectedAnswered(h);
    }
  }

  lemma ExpectedAnswered(s: State)
    ensures s.client.mode == R.InOrder ==>
      Read(s, Some(s.client.expected)).acks == s.acks + [Some(Rr(s.client.expected + 1))]
  {
  }

  lemma FillOne(k: Params, s: State) returns (t: State)
    requires Shut(k, s) && Free(k, s) && Fillable(s)
    ensures Fills(k, s, t)
  {
    hide Gets, Inv, Missing;
    var b := s;
    if s.client.mode == R.Buffering && Asked(s) {
      if s.at.Top? {
        GoesBy(k, s, NextPlace);
        b := Do(k, s, NextPlace);
        assert Shut(k, b);
      } else {
        Stay(k, s);
      }
      t := FillAsked(k, b);
    } else {
      b := Steadies(k, s);
      t := FillResent(k, b);
    }
    SameMissing(s, b);
    GoesThen(k, s, b, t);
  }

  // All that is missing before the edge is filled.
  lemma {:induction false} FillAll(k: Params, s: State) returns (t: State)
    requires Shut(k, s) && Free(k, s) && (Fillable(s) || s.client.mode == R.InOrder)
    ensures Goes(k, s, t) && Shut(k, t) && Free(k, t) && t.lowest == s.lowest && t.current == s.current
    ensures t.client.mode == R.InOrder && t.client.expected == Edge(s) > s.lowest
    decreases k.total - s.client.expected, if s.client.mode == R.Flushing then 1 else 0
  {
    hide Gets, Missing;
    if !Fillable(s) {
      Stay(k, s);
      t := s;
    } else {
      var b := FillOne(k, s);
      FillsFurther(k, s, b);
      t := FillAll(k, b);
      GoesThen(k, s, b, t);
    }
  }

  lemma FillsFurther(k: Params, s: State, t: State)
    requires Fills(k, s, t)
    ensures t.client.expected <= k.total && Shut(k, t) && Free(k, t) && Goes(k, s, t) && Edge(t) == Edge(s)
    ensures t.client.expected > s.client.expected || (s.client.mode == R.Flushing && t.client.mode != R.Flushing)
    ensures t.client.mode == R.Buffering ==> Asked(t) && EndsWith(t.acks, Rr(t.client.expected))
    ensures Fillable(t) || t.client.mode == R.InOrder
  {
    hide Gets, Missing;
  }

  // The lowest chunk is filled, and the client awake.
  lemma {:induction false} FillPast(k: Params, s: State) returns (t: State)
    requires Shut(k, s) && Free(k, s) && (Fillable(s) || s.client.expected > s.lowest)
    ensures Goes(k, s, t) && Shut(k, t) && Free(k, t) && t.lowest == s.lowest && t.current == s.current
    ensures t.client.mode != R.Flushing && t.client.expected > s.lowest && Missing(t) == Missing(s) - {s.lowest}
    ensures Edge(t) == Edge(s)
    ensures s.client.mode != R.Flushing && s.client.expected > s.lowest ==> t == s
    ensures t != s && t.client.mode == R.Buffering ==> Asked(t) && EndsWith(t.acks, Rr(t.client.expected))
    decreases k.total - s.client.expected, if s.client.mode == R.Flushing then 1 else 0
  {
    hide Gets, Missing;
    MissingBounds(k, s);
    if s.client.mode != R.Flushing && s.client.expected > s.lowest {
      Stay(k, s);
      t := s;
    } else {
      var b := FillOne(k, s);
      FillsFurther(k, s, b);
      t := FillPast(k, b);
      GoesThen(k, s, b, t);
    }
  }

  lemma MissingBounds(k: Params, s: State)
    requires Shut(k, s)
    ensures forall p :: p in Missing(s) ==> s.client.expected <= p < s.current
    ensures s.client.expected <= k.total
  {
    hide Gets;
    MissingFacts(k, s);
  }

  // ---------------------------------------------------------------------------
  // The window opens.
  // ---------------------------------------------------------------------------

  // The answer to an old chunk moves the window up to what the client expects.
  lemma SlideUp(k: Params, s: State) returns (t: State)
    requires Shut(k, s) && Free(k, s) && s.client.mode != R.Flushing && s.lowest < s.client.expected
    ensures Goes(k, s, t) && t == s.(lowest := s.client.expected, acks := [], at := Top)
  {
    hide Gets, Inv;
    if k.noisy || s.at != Waiting(RESENDS) {
      var b := OneMoreRr(k, s);
      t := SlideBy(k, b);
      GoesThen(k, s, b, t);
    } else {
      t := SlideBy(k, s);
    }
  }

  lemma SlideBy(k: Params, s: State) returns (t: State)
    requires Shut(k, s) && s.at.Waiting? && EndsWith(s.acks, Rr(s.client.expected))
    ensures Goes(k, s, t) && t == s.(lowest := s.client.expected, acks := [], at := Top)
  {
    hide Gets, Inv;
    t := ReadSlide(k, s, |s.acks| - 1, s.client.expected);
  }

  // An RR for the expected chunk comes onto the channel, behind everything that is there.
  lemma OneMoreRr(k: Params, s: State) returns (t: State)
    requires Shut(k, s) && s.client.mode != R.Flushing && s.lowest < s.client.expected
    requires k.noisy || s.at != Waiting(RESENDS)
    ensures Goes(k, s, t) && Shut(k, t) && t.at.Waiting? && t == s.(at := t.at, acks := t.acks)
    ensures t.acks == s.acks + [Some(Rr(s.client.expected))]
         || (s.at == Waiting(RESENDS) && s.acks != [] && t.acks == s.acks[1..] + [Some(Rr(s.client.expected))])
  {
    hide Gets, Taken, ClientInv, DataInv, AcksInv;
    var b := Steadies(k, s);
    Resending(k, b);
    var h := AfterResend(b);
    OldAnswered(k, h, b.lowest);
    t := Taken(h, Some(b.lowest));
    GoesThen(k, s, b, t);
  }

  // An RR on its way opens the window.
  lemma ReadSlide(k: Params, s: State, i: nat, n: nat) returns (t: State)
    requires Shut(k, s) && i < |s.acks| && s.acks[i] == Some(Rr(n))
    ensures Goes(k, s, t) && t == s.(lowest := n, acks := s.acks[i + 1..], at := AfterRead(s.at))
  {
    hide Gets, ClientInv, DataInv, AcksInv, CursorsInv;
    var b := s;
    if s.at.Top? {
      GoesBy(k, s, NextPlace);
      b := Do(k, s, NextPlace);
    } else {
      Stay(k, s);
    }
    DropTo(k, b, i);
    var d := b.(acks := s.acks[i..]);
    GoesThen(k, s, b, d);
    GoesInv(k, b, d);
    Reading(k, d);
    t := AfterHead(d);
    assert d.acks[1..] == s.acks[i + 1..];
    GoesThen(k, s, d, t);
  }

  // To where it closes again before the end.
  lemma OpenBelow(k: Params, s: State)
    requires Inv(k, s) && !s.eof && s.lowest < LastWindow(k) && !Closed(k, s)
    requires Unasked(s) ==>
      || s.client.expected < LastWindow(k)
      || (s.client.expected == LastWindow(k) && !k.even && Missing(s) == {s.client.expected})
    ensures QuietAlive(k, s)
  {
    hide Missing;
  }

  lemma OpensUnasked(k: Params, s: State) returns (t: State)
    requires Shut(k, s) && Free(k, s) && s.lowest < LastWindow(k) && MiddleAlive(k, s)
    requires Unasked(s) && s.lowest < s.client.expected
    ensures Goes(k, s, t) && QuietAlive(k, t) && t.lowest > s.lowest && !t.at.Waiting?
  {
    hide Gets, Missing;
    t := SlideUp(k, s);
    SameMissing(s, t);
    if t.lowest < LastWindow(k) {
      OpenBelow(k, t);
    }
  }

  // Chunk p is missing, and the window can come to start at p or before.
  lemma OpensAt(k: Params, s: State, p: nat) returns (t: State)
    requires Shut(k, s) && Free(k, s) && s.lowest < p < LastWindow(k) && p in Missing(s)
    requires Fillable(s) || s.client.expected > s.lowest
    ensures Goes(k, s, t) && QuietAlive(k, t) && t.lowest > s.lowest && !t.at.Waiting?
  {
    hide Gets, Missing, ClientInv, DataInv, AcksInv;
    var b := FillPast(k, s);
    MissingBounds(k, b);
    assert p in Missing(b);
    t := SlideUp(k, b);
    GoesThen(k, s, b, t);
    OpenBelow(k, t);
  }

  lemma OpensBy(k: Params, s: State, p: nat) returns (t: State)
    requires Shut(k, s) && s.lowest < p < LastWindow(k) && Some(Rr(p)) in s.acks && MiddleAlive(k, s)
    ensures Goes(k, s, t) && QuietAlive(k, t) && t.lowest > s.lowest && !t.at.Waiting?
  {
    hide Gets, Missing;
    var i :| 0 <= i < |s.acks| && s.acks[i] == Some(Rr(p));
    t := ReadSlide(k, s, i, p);
    SameMissing(s, t);
    if Asked(s) {
      var j :| 0 <= j < |s.acks| && s.acks[j] == Some(Srej(s.client.expected));
      if j > i {
        assert t.acks[j - i - 1] == s.acks[j];
      }
    }
    OpenBelow(k, t);
  }

  // The cost of opening the window at n, behind which everything up to more is missing.
  lemma OpenedEnough(k: Params, s: State, edge: nat, more: set<nat>)
    requires Inv(k, s) && !s.eof && s.lowest >= LastWindow(k) && edge <= s.current && !Unasked(s)
    requires forall p :: p in Missing(s) && p < edge ==> p in more
    requires |more| + (if s.at.Draining? && Armed(s) then 0 else 1) <= 1
    requires edge < s.current && Missing(s) != {} ==>
      s.current - edge - (if s.current == k.total then 1 else 0)
      < Sends(k, s) + if s.lowest + k.window == k.total then 1 else 0
    requires edge == s.current ==> Missing(s) == {} && s.client.mode != R.Flushing
    ensures Enough(k, s)
  {
    hide Missing;
    if Missing(s) != {} {
      MissingFacts(k, s);
      var trailing := Range(edge, if s.current == k.total then s.current - 1 else s.current);
      forall p | p in Missing(s) - {Newest(k)}
        ensures p in trailing + more
      {
      }
      Fewer(Missing(s) - {Newest(k)}, trailing + more);
    }
  }

  // Everything before the edge is filled first.
  lemma OpensFilled(k: Params, s: State) returns (t: State)
    requires Shut(k, s) && Free(k, s) && s.lowest < LastWindow(k)
    requires Fillable(s) || s.client.mode == R.InOrder
    requires Edge(s) < s.current ==>
      || Edge(s) < LastWindow(k)
      || s.current - Edge(s) - (if s.current == k.total then 1 else 0)
         < Sends(k, s) + if Edge(s) + k.window == k.total then 1 else 0
    ensures Goes(k, s, t) && QuietAlive(k, t) && t.lowest > s.lowest && !t.at.Waiting?
  {
    hide Gets, Missing, ClientInv, DataInv, AcksInv;
    var b := FillAll(k, s);
    t := SlideUp(k, b);
    GoesThen(k, s, b, t);
    MissingBounds(k, b);
    SameMissing(b, t);
    if t.lowest < LastWindow(k) {
      OpenBelow(k, t);
    } else {
      OpenedEnough(k, t, t.lowest, {});
    }
  }

  // ---------------------------------------------------------------------------
  // The window opens to its last place with nothing to spare.
  // ---------------------------------------------------------------------------

  // n is where the window will be closed again at the end of the file.
  ghost predicate Tight(k: Params, s: State, n: nat) {
    && Shut(k, s) && !k.even && n + k.window == k.total && s.lowest < n
    && Edge(s) < s.current && s.current - Edge(s) == Sends(k, s)
  }

  // After the first i + 1 acknowledgements there is still an SREJ that will be answered.
  ghost predicate ArmedBehind(s: State, i: nat)
    requires i < |s.acks|
  {
    if s.client.mode == R.Buffering then Some(Srej(s.client.expected)) in s.acks[i + 1..]
    else s.client.mode == R.Flushing && Gap(s) && exists m :: Some(Srej(m)) in s.acks[i + 1..]
  }

  lemma SlideTight(k: Params, s: State, n: nat, i: nat, more: set<nat>) returns (t: State)
    requires Tight(k, s, n) && i < |s.acks| && s.acks[i] == Some(Rr(n))
    requires forall p :: p in Missing(s) && p < Edge(s) ==> p in more
    requires more != {} ==> |more| == 1 && s.at.Draining? && ArmedBehind(s, i)
    requires s.client.mode == R.Buffering ==> more != {}
    ensures Goes(k, s, t) && QuietAlive(k, t) && t.lowest > s.lowest && !t.at.Waiting?
  {
    hide Gets, Missing, ClientInv, DataInv, AcksInv;
    t := ReadSlide(k, s, i, n);
    SameMissing(s, t);
    OpenedEnough(k, t, Edge(s), more);
  }

  // With the SREJ for n on its way before an RR for n, chunk n is filled first.
  lemma OpensAnswered(k: Params, s: State, n: nat, i: nat, j: nat) returns (t: State)
    requires Tight(k, s, n) && s.client.mode == R.Buffering && s.client.expected == n
    requires i < j < |s.acks| && s.acks[i] == Some(Srej(n)) && s.acks[j] == Some(Rr(n))
    requires forall p :: p in Missing(s) && p < Edge(s) ==> p == n
    ensures Goes(k, s, t) && QuietAlive(k, t) && t.lowest > s.lowest && !t.at.Waiting?
  {
    hide Gets, Missing, Wake, Read;
    var b := s;
    if s.at.Top? {
      GoesBy(k, s, NextPlace);
      b := Do(k, s, NextPlace);
    } else {
      Stay(k, s);
    }
    var h := AnswerAt(k, b, i, n);
    SameMissing(s, h);
    Awake(h);
    ReadFacts(k, h, n);
    var d := Taken(h, Some(n));
    GoesThen(k, s, b, d);
    assert d.acks[j - i - 1] == s.acks[j];
    t := SlideTight(k, d, n, j - i - 1, {});
    GoesThen(k, s, d, t);
  }

  // n is the only chunk missing before the edge, but for the lowest.
  lemma OpensInner(k: Params, s: State, n: nat) returns (t: State)
    requires Tight(k, s, n) && Free(k, s) && n in Missing(s) && n < Edge(s) && forall p :: Inner(s, p) ==> p == n
    requires Fillable(s) || s.client.expected > s.lowest
    requires s.client.mode == R.Buffering && s.client.expected > s.lowest ==> Asked(s)
    requires s.client.mode == R.Buffering && s.client.expected == n && s.at == Waiting(RESENDS) ==>
      Some(Rr(n)) in s.acks || s.acks[0] != Some(Srej(n))
    ensures Goes(k, s, t) && QuietAlive(k, t) && t.lowest > s.lowest && !t.at.Waiting?
  {
    hide Gets, Missing, Inv;
    MissingBounds(k, s);
    var b := FillPast(k, s);
    InnerExpected(k, s, b, n);
    var i :| 0 <= i < |b.acks| && b.acks[i] == Some(Srej(n));
    assert EndsWith(b.acks, Rr(n)) ==> i < |b.acks| - 1 && b.acks[|b.acks| - 1] == Some(Rr(n));
    if j :| i < j < |b.acks| && b.acks[j] == Some(Rr(n)) {
      t := OpensAnswered(k, b, n, i, j);
    } else {
      var c := OneMoreRr(k, b);
      SameMissing(b, c);
      t := OpensAnswered(k, c, n, if |c.acks| == |b.acks| then i - 1 else i, |c.acks| - 1);
      GoesThen(k, b, c, t);
    }
    GoesThen(k, s, b, t);
  }

  lemma InnerExpected(k: Params, s: State, b: State, n: nat)
    requires Tight(k, s, n) && n in Missing(s) && n < Edge(s) && forall p :: Inner(s, p) ==> p == n
    requires Shut(k, b) && b.lowest == s.lowest && b.current == s.current && Edge(b) == Edge(s)
    requires b.client.mode != R.Flushing
    requires b.client.expected > s.lowest && Missing(b) == Missing(s) - {s.lowest}
    ensures b.client.mode == R.Buffering && b.client.expected == n && Tight(k, b, n)
    ensures forall p :: p in Missing(b) && p < Edge(b) ==> p == n
  {
    hide Gets, Missing;
    MissingFacts(k, b);
    MissingFacts(k, s);
    assert n in Missing(b);
    assert b.client.expected in Missing(b);
    assert forall p :: p in Missing(b) && p < Edge(b) ==> Inner(s, p);
  }

  // n has arrived, and its RR is on its way.
  lemma OpensPassed(k: Params, s: State, n: nat) returns (t: State)
    requires Tight(k, s, n) && Some(Rr(n)) in s.acks && n !in Missing(s) && forall p :: !Inner(s, p)
    ensures Goes(k, s, t) && QuietAlive(k, t) && t.lowest > s.lowest && !t.at.Waiting?
  {
    hide Gets, Missing;
    MissingFacts(k, s);
    var i :| 0 <= i < |s.acks| && s.acks[i] == Some(Rr(n));
    assert forall p :: p in Missing(s) && p < Edge(s) ==> Inner(s, p);
    t := SlideTight(k, s, n, i, {});
  }

  // One chunk is missing before the edge; its SREJ is answered after the window has opened.
  lemma OpensAsked(k: Params, s: State, n: nat) returns (t: State)
    requires Tight(k, s, n) && Some(Rr(n)) in s.acks && n !in Missing(s) && OneInner(s)
    requires s.at.Draining? && s.client.mode == R.Buffering && Asked(s)
    ensures Goes(k, s, t) && QuietAlive(k, t) && t.lowest > s.lowest && !t.at.Waiting?
  {
    hide Gets, Missing;
    MissingFacts(k, s);
    var e := s.client.expected;
    var i :| 0 <= i < |s.acks| && s.acks[i] == Some(Rr(n));
    var j :| 0 <= j < |s.acks| && s.acks[j] == Some(Srej(e));
    assert i < j;
    assert s.acks[i + 1..][j - i - 1] == s.acks[j];
    assert Inner(s, e) && forall p :: p in Missing(s) && p < Edge(s) ==> Inner(s, p);
    t := SlideTight(k, s, n, i, {e});
  }

  lemma OpensAsleep(k: Params, s: State, n: nat) returns (t: State)
    requires Tight(k, s, n) && Some(Rr(n)) in s.acks && n !in Missing(s) && OneInner(s)
    requires s.at.Draining? && s.client.mode == R.Flushing && Armed(s)
    ensures Goes(k, s, t) && QuietAlive(k, t) && t.lowest > s.lowest && !t.at.Waiting?
  {
    hide Gets, Missing, Taken;
    MissingFacts(k, s);
    var p :| p in Missing(s) && p < s.client.highest;
    assert Inner(s, p) && forall q :: q in Missing(s) && q < Edge(s) ==> Inner(s, q);
    var i :| 0 <= i < |s.acks| && s.acks[i] == Some(Rr(n));
    var m :| Some(Srej(m)) in s.acks;
    var j :| 0 <= j < |s.acks| && s.acks[j] == Some(Srej(m));
    if i < j {
      assert s.acks[i + 1..][j - i - 1] == s.acks[j];
      t := SlideTight(k, s, n, i, {p});
    } else {
      t := OpensWoken(k, s, n, i, j, m);
    }
  }

  lemma OpensWoken(k: Params, s: State, n: nat, i: nat, j: nat, m: nat) returns (t: State)
    requires Tight(k, s, n) && n !in Missing(s) && OneInner(s) && s.at.Draining? && s.client.mode == R.Flushing
    requires Gap(s)
    requires j < i < |s.acks| && s.acks[i] == Some(Rr(n)) && s.acks[j] == Some(Srej(m))
    ensures Goes(k, s, t) && QuietAlive(k, t) && t.lowest > s.lowest && !t.at.Waiting?
  {
    hide Gets, Missing, Taken, DataInv;
    var h := AnswerAt(k, s, j, m);
    SameMissing(s, h);
    SameGap(s, h);
    OldWakes(k, h, m);
    var d := Taken(h, Some(m));
    assert d.acks[..|h.acks|][i - j - 1] == s.acks[i];
    assert Edge(d) == Edge(s) && forall q :: Inner(d, q) <==> Inner(s, q);
    t := OpensAsked(k, d, n);
    GoesThen(k, s, d, t);
  }

  lemma OpensLate(k: Params, s: State, n: nat) returns (t: State)
    requires Tight(k, s, n) && Free(k, s) && LateSlide(s, n) && MiddleAlive(k, s)
    requires Fillable(s) || s.client.expected > s.lowest
    requires s.client.mode == R.Buffering && s.client.expected > s.lowest ==> Asked(s)
    requires n in Missing(s) ==> n < Edge(s)
    ensures Goes(k, s, t) && QuietAlive(k, t) && t.lowest > s.lowest && !t.at.Waiting?
  {
    hide Gets, Missing, Inv;
    if n in Missing(s) {
      t := OpensInner(k, s, n);
    } else if forall p :: !Inner(s, p) {
      t := OpensPassed(k, s, n);
    } else if s.client.mode == R.Buffering {
      t := OpensAsked(k, s, n);
    } else {
      t := OpensAsleep(k, s, n);
    }
  }

  // ---------------------------------------------------------------------------
  // Every case.
  // ---------------------------------------------------------------------------

  lemma Opens(k: Params, s: State) returns (t: State)
    requires Shut(k, s) && s.lowest < LastWindow(k) && MiddleAlive(k, s) && (k.noisy || s.at != Waiting(RESENDS))
    ensures Goes(k, s, t) && QuietAlive(k, t) && t.lowest > s.lowest && !t.at.Waiting?
  {
    hide Gets, Missing, LateSlide;
    var lost := s.current - Edge(s) - if s.current == k.total then 1 else 0;
    if Unasked(s) && s.lowest < s.client.expected {
      t := OpensUnasked(k, s);
    } else if Edge(s) >= s.current || lost < Sends(k, s) || (lost == Sends(k, s) && Edge(s) + k.window == k.total) {
      t := OpensFilled(k, s);
    } else if p :| s.lowest < p < LastWindow(k) && p in Missing(s) {
      t := OpensAt(k, s, p);
    } else if p :| s.lowest < p < LastWindow(k) && Some(Rr(p)) in s.acks {
      t := OpensBy(k, s, p);
    } else {
      MissingFacts(k, s);
      assert Edge(s) in Missing(s);
      t := OpensLate(k, s, k.total - k.window);
    }
  }

  // With its resends used up the server reads what leaves it with a chance.
  lemma Unblocks(k: Params, s: State) returns (t: State)
    requires Inv(k, s) && Quiet(s) && !s.eof && s.at == Waiting(RESENDS) && ReadsOn(k, s)
    ensures Goes(k, s, t) && QuietAlive(k, t) && t.at.Top?
    ensures t.lowest > s.lowest || (t.lowest == s.lowest && t.current == s.current)
  {
    hide QuietAlive, Gets;
    var i, y :| 0 <= i < |s.acks| && ReadTo(s, i, y) && QuietAlive(k, y);
    ReadGoes(k, s, i, y);
    ReadPlace(k, s, i, y);
    t := y;
  }

  lemma ReadPlace(k: Params, s: State, i: nat, y: State)
    requires Inv(k, s) && s.at.Waiting? && i < |s.acks| && ReadTo(s, i, y)
    ensures y.at.Top? && y.lowest >= s.lowest && y.current == s.current
  {
    hide Arrives, ClientInv, DataInv;
    var h := AfterAck(s, i);
    if y != h {
      SameServer(h, s.acks[i].value.n, y);
    }
  }

  // A place that is left for good, or until the window has moved.
  function Rank(s: State): nat {
    if s.at == Waiting(RESENDS) then 2 else if s.at.Draining? then 1 else 0
  }

  lemma {:induction false} QuietCompletes(k: Params, s: State) returns (t: State)
    requires Inv(k, s) && Quiet(s) && Completable(k, s)
    ensures Completes(k, s, t)
    decreases k.total - s.lowest, k.total - s.current, Rank(s)
  {
    hide Gets, MiddleAlive, Enough, EndAlive, Missing, ReadsOn, ReadTo, ClientInv, DataInv, AcksInv;
    if s.client.expected == k.total {
      Stay(k, s);
      return s;
    } else if s.eof || s.lowest >= LastWindow(k) {
      t := TailCompletes(k, s);
      return;
    }
    var b;
    if OnlyReads(k, s) {
      b := Unblocks(k, s);
    } else if Closed(k, s) {
      NotStranded(k, s);
      b := Opens(k, s);
    } else if s.at.Top? {
      b := OpenSends(k, s);
    } else {
      b := OpenPlaces(k, s);
    }
    t := QuietCompletes(k, b);
    CompletesThen(k, s, b, t);
  }

  lemma NotStranded(k: Params, s: State)
    requires MiddleAlive(k, s)
    ensures !Stranded(s)
  {
  }

  // Every live transfer can be completed.
  lemma AliveCompletes(k: Params, s: State) returns (t: State)
    requires Inv(k, s) && Alive(k, s)
    ensures Gets(k, s, t) && Inv(k, t) && t.client.expected == k.total
  {
    hide Gets, May, Completable;
    var b := MayGo(k, Complete, s);
    t := QuietCompletes(k, b);
    CompletesThen(k, s, b, t);
  }
}
