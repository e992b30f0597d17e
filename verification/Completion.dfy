// From every state that can still complete the transfer some run does.
module Completion {
  import opened Bytes
  import opened Pdu
  import opened ServerLoop
  import opened Protocol
  import opened Settled
  import opened Fate
  import opened Progress
  import R = Rcopy

  ghost predicate Completes(k: Params, s: State, t: State) {
    Goes(k, s, t) && t.client.expected == k.total
  }

  lemma CompletesThen(k: Params, a: State, b: State, c: State)
    requires Goes(k, a, b) && Completes(k, b, c)
    ensures Completes(k, a, c)
  {
    hide Gets, Inv;
    GoesThen(k, a, b, c);
  }

  // ---------------------------------------------------------------------------
  // At the end of the file.
  // ---------------------------------------------------------------------------

  // The SREJ for n is read and answered, and the answer arrives.
  lemma AnswerAt(k: Params, s: State, i: nat, n: nat) returns (h: State)
    requires Inv(k, s) && Quiet(s) && !s.at.Top? && i < |s.acks| && s.acks[i] == Some(Srej(n))
    ensures h == s.(acks := s.acks[i + 1..], at := AfterRead(s.at)) && Inv(k, h)
    ensures Goes(k, s, Taken(h, Some(n)))
  {
    hide Goes, Taken, Inv;
    DropTo(k, s, i);
    var d := s.(acks := s.acks[i..]);
    GoesInv(k, s, d);
    Answering(k, d, n);
    h := AfterHead(d);
    assert d.acks[1..] == s.acks[i + 1..];
    GoesThen(k, s, d, Taken(h, Some(n)));
  }

  // A client that has everything but sleeps needs one more packet.
  lemma LastPacket(k: Params, s: State, p: nat)
    requires Inv(k, s) && Missing(s) == {} && s.current == k.total && p < s.client.expected
    ensures Taken(s, Some(p)).client.expected == k.total
  {
    OldRead(k, s, p);
    MissingFacts(k, s);
    if s.client.mode == R.Flushing {
      WokenFacts(s.client);
      WakeFacts(k, s);
      NothingLeft(k, s);
    } else {
      Awake(s);
    }
  }

  lemma NothingLeft(k: Params, s: State)
    requires Inv(k, s) && Missing(s) == {} && s.client.mode == R.Flushing
    ensures s.client.highest + 1 == s.current && !Gap(s)
  {
    MissingFacts(k, s);
    assert s.client.highest + 1 !in Missing(s);
  }

  lemma EndAsleep(k: Params, s: State) returns (t: State)
    requires Inv(k, s) && Quiet(s) && s.eof && !s.at.Top? && Missing(s) == {} && s.client.expected < k.total
    requires AnySrej(s) || Resends(k, s)
    ensures Completes(k, s, t)
  {
    hide Missing, Wake, Read, Gets;
    MissingFacts(k, s);
    if AnySrej(s) {
      var n :| Some(Srej(n)) in s.acks;
      var i :| 0 <= i < |s.acks| && s.acks[i] == Some(Srej(n));
      var h := AnswerAt(k, s, i, n);
      SameMissing(s, h);
      t := Taken(h, Some(n));
      LastPacket(k, h, n);
    } else {
      var w := s;
      if s.at.Draining? {
        GoesBy(k, s, NextPlace);
        w := Do(k, s, NextPlace);
      } else {
        Stay(k, s);
      }
      Resending(k, w);
      SameMissing(s, AfterResend(w));
      t := Taken(AfterResend(w), Some(w.lowest));
      LastPacket(k, AfterResend(w), w.lowest);
      GoesThen(k, s, w, t);
    }
  }

  // The lowest chunk is the only one missing: a timeout resends it.
  lemma EndLowest(k: Params, s: State) returns (t: State)
    requires Inv(k, s) && Quiet(s) && s.eof && s.at.Waiting? && LastWait(s, s.at.count) && Missing(s) == {s.lowest}
    requires s.client.expected < k.total
    ensures Completes(k, s, t)
  {
    hide Missing, Wake, Read, Gets;
    MissingFacts(k, s);
    Resending(k, s);
    var w := AfterResend(s);
    SameMissing(s, w);
    Awake(w);
    ReadFacts(k, w, w.lowest);
    t := Taken(w, Some(w.lowest));
    assert Missing(t) == {};
    if t.client.expected < k.total {
      MissingFacts(k, t);
      var b := t;
      t := EndAsleep(k, b);
      CompletesThen(k, s, b, t);
    }
  }

  lemma EndWaiting(k: Params, s: State) returns (t: State)
    requires Inv(k, s) && Quiet(s) && s.eof && s.at.Waiting? && LastWait(s, s.at.count) && s.client.expected < k.total
    ensures Completes(k, s, t)
  {
    hide Missing, Completes;
    if Missing(s) == {} {
      t := EndAsleep(k, s);
    } else {
      t := EndLowest(k, s);
    }
  }

  lemma EndPlaces(k: Params, s: State) returns (t: State)
    requires Inv(k, s) && Quiet(s) && s.eof && s.at.Draining? && Closed(k, s) && LastWait(s, 0)
    requires s.client.expected < k.total
    ensures Completes(k, s, t)
  {
    hide Inv, Missing, Completes, Goes;
    GoesBy(k, s, NextPlace);
    var w := Do(k, s, NextPlace);
    GoesInv(k, s, w);
    SameMissing(s, w);
    t := EndWaiting(k, w);
    CompletesThen(k, s, w, t);
  }

  // With an SREJ on its way that is answered before the loop goes on.
  lemma EndAnswered(k: Params, s: State) returns (t: State)
    requires Inv(k, s) && Quiet(s) && s.eof && s.at.Draining? && Closed(k, s) && s.client.mode == R.Buffering
    requires Asked(s)
    requires |Missing(s)| == 1
    ensures Completes(k, s, t)
  {
    hide Missing, Wake, Read, Gets;
    MissingFacts(k, s);
    var e := s.client.expected;
    assert Missing(s) == {e} by { OnlyOne(Missing(s), e); }
    var i :| 0 <= i < |s.acks| && s.acks[i] == Some(Srej(e));
    var h := AnswerAt(k, s, i, e);
    SameMissing(s, h);
    Awake(h);
    ReadFacts(k, h, e);
    var b := Taken(h, Some(e));
    assert Missing(b) == {};
    t := EndAsleep(k, b);
    CompletesThen(k, s, b, t);
  }

  lemma OnlyOne(a: set<nat>, p: nat)
    requires |a| == 1 && p in a
    ensures a == {p}
  {
    assert |a - {p}| == 0;
    assert a == a - {p} + {p};
  }

  lemma EndWoken(k: Params, s: State) returns (t: State)
    requires Inv(k, s) && Quiet(s) && s.eof && s.at.Draining? && Closed(k, s) && s.client.mode == R.Flushing && Armed(s)
    requires |Missing(s)| == 1
    ensures Completes(k, s, t)
  {
    hide Missing, Wake, Read, Gets;
    var n :| Some(Srej(n)) in s.acks;
    var i :| 0 <= i < |s.acks| && s.acks[i] == Some(Srej(n));
    var h := AnswerAt(k, s, i, n);
    SameMissing(s, h);
    OldWakes(k, h, n);
    var b := Taken(h, Some(n));
    t := EndAnswered(k, b);
    CompletesThen(k, s, b, t);
  }

  lemma EndCompletes(k: Params, s: State) returns (t: State)
    requires Inv(k, s) && Quiet(s) && s.eof && EndAlive(k, s) && s.client.expected < k.total
    ensures Completes(k, s, t)
  {
    hide Missing, Completes;
    if s.at.Waiting? {
      t := EndWaiting(k, s);
    } else if OnlyLowest(k, s) {
      t := EndPlaces(k, s);
    } else if Missing(s) == {} {
      MissingFacts(k, s);
      t := EndAsleep(k, s);
    } else if s.client.mode == R.Buffering {
      t := EndAnswered(k, s);
    } else {
      t := EndWoken(k, s);
    }
  }

  // ---------------------------------------------------------------------------
  // When the window is not closed again before the end of the file.
  // ---------------------------------------------------------------------------

  // The newest chunk arrives at a client that is awake.
  lemma NewestRead(k: Params, u: State, p: nat)
    requires Inv(k, u) && Quiet(u) && u.client.mode != R.Flushing && p + 1 == u.current
    ensures var y := Read(u, Some(p));
      && Missing(y) == Missing(u) - {p} && y == u.(client := y.client, acks := y.acks)
      && Inv(k, y) && y.client.expected >= u.client.expected && Edge(y) >= y.current
      && (if Missing(y) == {} then y.client.mode == R.InOrder && y.client.expected == y.current
          else y.client.mode == R.Buffering && (Unasked(y) ==> Unasked(u) && y.client.expected == u.client.expected))
  {
    hide Missing, Read;
    ReadFacts(k, u, p);
    ReadKeepsInv(k, u, p);
    MissingFacts(k, u);
    MissingFacts(k, Read(u, Some(p)));
  }

  // A chunk sent from the head of the loop arrives.
  lemma SentArrives(k: Params, s: State)
    requires Inv(k, s) && Quiet(s) && Can(k, s, SendOne)
    ensures var y, p := Taken(AfterSend(k, s), Some(Sent(k, s))), Sent(k, s);
      && Missing(y) == Missing(s) - {p} && y == AfterSend(k, s).(client := y.client, acks := y.acks)
      && Goes(k, s, y) && Inv(k, y) && y.client.expected >= s.client.expected && Edge(y) >= y.current
      && (if Missing(y) == {} then y.client.mode == R.InOrder && y.client.expected == y.current
          else y.client.mode == R.Buffering && (Unasked(y) ==> Unasked(s) && y.client.expected == s.client.expected))
  {
    hide Missing, Read, Gets, Edge, Wake;
    Sending(k, s);
    var h, p := AfterSend(k, s), Sent(k, s);
    if s.current < k.total {
      SentMissing(s, h);
    } else {
      SameMissing(s, h);
    }
    if h.client.mode == R.Flushing {
      WakeFacts(k, h);
    } else {
      Awake(h);
    }
    WakeKeepsInv(k, h);
    NewestRead(k, Wake(h), p);
  }

  lemma TailSends(k: Params, s: State) returns (t: State)
    requires Inv(k, s) && Quiet(s) && s.at.Top? && !s.eof && s.lowest >= LastWindow(k) && Enough(k, s)
    requires s.client.expected < k.total
    ensures Goes(k, s, t) && QuietAlive(k, t) && (t.eof || t.lowest >= LastWindow(k)) && 0 <= Sends(k, t) < Sends(k, s)
  {
    hide Missing, Goes, Taken, Need, Edge;
    SentArrives(k, s);
    t := Taken(AfterSend(k, s), Some(Sent(k, s)));
    assert Missing(t) - (if t.eof then {} else {Newest(k)}) <= Missing(s) - {Newest(k)};
    MissingFacts(k, s);
    if !OnlyLowest(k, s) {
      SentNeed(k, s, t);
    }
  }

  lemma SentNeed(k: Params, s: State, t: State)
    requires s.at.Top? && !s.eof && t.at.Draining? && !Unasked(t)
    requires if Missing(t) == {} then t.client.mode == R.InOrder else t.client.mode == R.Buffering
    requires Missing(t) - (if t.eof then {} else {Newest(k)}) <= Missing(s) - {Newest(k)}
    ensures Need(k, t) == 0 || (Missing(s) != {} && Need(k, t) < Need(k, s))
  {
    hide Missing;
    Fewer(Missing(t) - (if t.eof then {} else {Newest(k)}), Missing(s) - {Newest(k)});
  }

  // The SREJ for the expected chunk is answered before the next send.
  lemma TailAsked(k: Params, s: State) returns (t: State)
    requires Inv(k, s) && Quiet(s) && s.at.Draining? && Enough(k, s)
    requires s.client.mode == R.Buffering && Asked(s)
    ensures Goes(k, s, t) && Enough(k, t) && t == s.(client := t.client, acks := t.acks)
    ensures t.client.expected == s.client.expected + 1
  {
    hide Missing, Wake, Read, Gets;
    MissingFacts(k, s);
    var e := s.client.expected;
    var i :| 0 <= i < |s.acks| && s.acks[i] == Some(Srej(e));
    var h := AnswerAt(k, s, i, e);
    SameMissing(s, h);
    Awake(h);
    ReadFacts(k, h, e);
    t := Taken(h, Some(e));
    TailAnswered(k, s, t);
  }

  lemma TailAnswered(k: Params, s: State, t: State)
    requires s.at.Draining? && Enough(k, s) && s.client.mode == R.Buffering && Asked(s)
    requires t == s.(client := t.client, acks := t.acks) && t.client.mode == R.Flushing
    requires s.client.expected + 1 < s.current <= k.total && s.client.expected in Missing(s)
    requires Missing(t) == Missing(s) - {s.client.expected}
    ensures Enough(k, t)
  {
    hide Missing;
    var e, z := s.client.expected, if s.eof then {} else {Newest(k)};
    OneLess(Missing(s), Missing(t), z, e);
  }

  // An answer to an old one wakes the client.
  lemma TailWoken(k: Params, s: State) returns (t: State)
    requires Inv(k, s) && Quiet(s) && s.at.Draining? && Enough(k, s)
    requires s.client.mode == R.Flushing && AnySrej(s) && (Gap(s) || Missing(s) == {})
    ensures Goes(k, s, t) && Enough(k, t) && t == s.(client := t.client, acks := t.acks)
    ensures t.client.expected >= s.client.expected && t.client.mode != R.Flushing
  {
    hide Missing, Wake, Read, Gets;
    var n :| Some(Srej(n)) in s.acks;
    var i :| 0 <= i < |s.acks| && s.acks[i] == Some(Srej(n));
    var h := AnswerAt(k, s, i, n);
    SameMissing(s, h);
    OldWakes(k, h, n);
    t := Taken(h, Some(n));
  }

  lemma TailPlaces(k: Params, s: State) returns (t: State)
    requires Inv(k, s) && Quiet(s) && s.at.Draining? && Enough(k, s) && !s.eof && s.lowest >= LastWindow(k)
    requires !(s.client.mode == R.Flushing && AnySrej(s) && (Gap(s) || Missing(s) == {}))
    requires !(s.client.mode == R.Buffering && Asked(s))
    ensures Goes(k, s, t) && Enough(k, t) && t == s.(at := Top)
  {
    hide Missing, Goes;
    GoesBy(k, s, NextPlace);
    t := Do(k, s, NextPlace);
    SameMissing(s, t);
  }

  lemma {:induction false} TailCompletes(k: Params, s: State) returns (t: State)
    requires Inv(k, s) && Quiet(s) && QuietAlive(k, s) && (s.eof || s.lowest >= LastWindow(k))
    ensures Completes(k, s, t)
    decreases Sends(k, s), if s.at.Draining? then 1 else 0, k.total - s.client.expected,
              if s.client.mode == R.Flushing then 1 else 0
  {
    hide Missing, Enough, Gets;
    if s.client.expected == k.total {
      Stay(k, s);
      return s;
    } else if s.eof {
      t := EndCompletes(k, s);
      return;
    }
    var b;
    if s.at.Top? {
      b := TailSends(k, s);
    } else if s.client.mode == R.Flushing && AnySrej(s) && (Gap(s) || Missing(s) == {}) {
      b := TailWoken(k, s);
    } else if s.client.mode == R.Buffering && Asked(s) {
      b := TailAsked(k, s);
    } else {
      b := TailPlaces(k, s);
    }
    t := TailCompletes(k, b);
    CompletesThen(k, s, b, t);
  }
}
