// From every state in which the client can still get another chunk, some run gets it one.
module Advance {
  import opened Bytes
  import opened Pdu
  import opened ServerLoop
  import opened Protocol
  import opened Settled
  import opened Fate
  import opened Progress
  import opened Completion
  import R = Rcopy

  ghost predicate Advances(k: Params, s: State, t: State) {
    Goes(k, s, t) && t.client.expected > s.client.expected
  }

  lemma AdvancesThen(k: Params, a: State, b: State, c: State)
    requires Goes(k, a, b) && Goes(k, b, c) && b.client.expected >= a.client.expected
    requires b.client.expected > a.client.expected || c.client.expected > b.client.expected
    requires c.client.expected >= b.client.expected
    ensures Advances(k, a, c)
  {
    hide Gets, Inv;
    GoesThen(k, a, b, c);
  }

  // The SREJ on its way is answered.
  lemma ByAnswer(k: Params, s: State) returns (t: State)
    requires Inv(k, s) && Quiet(s) && !s.at.Top? && s.client.mode == R.Buffering && Asked(s)
    ensures Advances(k, s, t)
  {
    hide Missing, Wake, Read, Gets;
    var e := s.client.expected;
    var i :| 0 <= i < |s.acks| && s.acks[i] == Some(Srej(e));
    var h := AnswerAt(k, s, i, e);
    Awake(h);
    ReadFacts(k, h, e);
    t := Taken(h, Some(e));
  }

  // A timeout resends the expected chunk.
  lemma ByTimeout(k: Params, s: State) returns (t: State)
    requires Inv(k, s) && Quiet(s) && s.at.Waiting? && s.at.count < RESENDS
    requires s.client.mode != R.Flushing && s.lowest == s.client.expected
    ensures Advances(k, s, t)
  {
    hide Missing, Wake, Read, Gets;
    Resending(k, s);
    var h := AfterResend(s);
    Awake(h);
    ReadFacts(k, h, s.lowest);
    t := Taken(h, Some(s.lowest));
  }

  // An old chunk wakes the client, and if that does not get it on, its SREJ is answered.
  lemma ByWaking(k: Params, s: State, h: State, p: nat) returns (t: State)
    requires Inv(k, h) && Quiet(h) && h.client == s.client && h.client.mode == R.Flushing && p < h.client.expected
    requires Goes(k, s, Taken(h, Some(p)))
    requires h.at.Top? ==> h.client.expected in h.client.buffered
    ensures Advances(k, s, t)
  {
    hide Missing, Wake, Read, Gets;
    OldWakes(k, h, p);
    t := Taken(h, Some(p));
    if t.client.expected == s.client.expected {
      WakesOn(k, h, p);
      var b := t;
      t := ByAnswer(k, b);
      AdvancesThen(k, s, b, t);
    }
  }

  lemma WakesOn(k: Params, s: State, p: nat)
    requires Inv(k, s) && s.client.mode == R.Flushing && p < s.client.expected
    ensures Taken(s, Some(p)).client.expected > s.client.expected || s.client.expected !in s.client.buffered
    ensures Taken(s, Some(p)).client.mode == R.Buffering || Taken(s, Some(p)).client.expected > s.client.expected
  {
    WakeFacts(k, s);
    OldRead(k, s, p);
  }

  lemma Placed(k: Params, s: State) returns (t: State)
    requires Inv(k, s) && Quiet(s) && (s.at.Waiting? || s.at.Draining? || (s.at.Top? && !s.eof)) && Closed(k, s)
    ensures Goes(k, s, t) && t == s.(at := if s.at.Waiting? then s.at else Waiting(0))
  {
    hide Inv, Gets;
    if s.at.Waiting? {
      Stay(k, s);
      t := s;
    } else {
      GoesBy(k, s, NextPlace);
      t := Do(k, s, NextPlace);
    }
  }

  lemma ByPlace(k: Params, s: State) returns (t: State)
    requires Inv(k, s) && Quiet(s) && (s.at.Draining? || s.at.Waiting? || !s.eof) && Resends(k, s)
    requires s.client.mode == R.Flushing || s.lowest == s.client.expected
    ensures Advances(k, s, t)
  {
    hide Gets, Missing, Taken;
    var b := Placed(k, s);
    if b.client.mode == R.Flushing {
      Resending(k, b);
      t := ByWaking(k, b, AfterResend(b), b.lowest);
    } else {
      t := ByTimeout(k, b);
    }
    AdvancesThen(k, s, b, t);
  }

  lemma EndAdvances(k: Params, s: State) returns (t: State)
    requires Inv(k, s) && Quiet(s) && s.eof && EndMoves(k, s)
    ensures Advances(k, s, t)
  {
    hide Gets, Missing, Taken, Advances;
    if s.client.mode == R.Buffering && Asked(s) {
      t := ByAnswer(k, s);
    } else if Resends(k, s) {
      t := ByPlace(k, s);
    } else {
      var n :| Some(Srej(n)) in s.acks;
      var i :| 0 <= i < |s.acks| && s.acks[i] == Some(Srej(n));
      var h := AnswerAt(k, s, i, n);
      t := ByWaking(k, s, h, n);
    }
  }

  // ---------------------------------------------------------------------------
  // Before the end of the file.
  // ---------------------------------------------------------------------------

  // Whatever is read ends a wait.
  lemma ReadsHead(k: Params, s: State)
    requires Inv(k, s) && Quiet(s) && s.at.Waiting? && s.acks != []
    ensures Goes(k, s, AfterAck(s, 0)) && s.lowest <= AfterAck(s, 0).lowest <= s.client.expected
    ensures AfterAck(s, 0) == s.(lowest := AfterAck(s, 0).lowest, acks := s.acks[1..], at := Top)
  {
    hide Goes, ClientInv, DataInv;
    ReadGoes(k, s, 0, AfterAck(s, 0));
  }

  // The window is closed on the expected chunk, or the client sleeps.
  lemma ByWait(k: Params, s: State) returns (t: State)
    requires Inv(k, s) && Quiet(s) && !s.eof && Closed(k, s) && !(s.at == Waiting(RESENDS) && s.acks == [])
    requires s.client.mode == R.Flushing || s.lowest == s.client.expected
    ensures Advances(k, s, t)
  {
    hide Gets, Missing, Taken, Advances, ClientInv, DataInv, AcksInv;
    if s.at == Waiting(RESENDS) {
      ReadsHead(k, s);
      var b := AfterAck(s, 0);
      if Closed(k, b) {
        t := ByPlace(k, b);
      } else {
        Sleeps(k, b);
        t := BySend(k, b);
      }
      AdvancesAfter(k, s, b, t);
    } else {
      t := ByPlace(k, s);
    }
  }

  lemma Sleeps(k: Params, s: State)
    requires Inv(k, s) && s.client.mode == R.Flushing
    ensures s.client.expected < k.total && !Unasked(s)
  {
  }

  lemma AdvancesAfter(k: Params, a: State, b: State, c: State)
    requires Goes(k, a, b) && Advances(k, b, c) && b.client.expected >= a.client.expected
    ensures Advances(k, a, c)
  {
    hide Gets, Inv;
    GoesThen(k, a, b, c);
  }

  lemma ToTop(k: Params, s: State) returns (t: State)
    requires Inv(k, s) && Quiet(s) && !s.eof && !Closed(k, s)
    ensures Goes(k, s, t) && t == s.(at := Top)
  {
    hide ClientInv, DataInv, AcksInv, CursorsInv, Gets;
    if s.at.Draining? {
      GoesBy(k, s, NextPlace);
      t := Do(k, s, NextPlace);
    } else {
      Stay(k, s);
      t := s;
    }
  }

  // With the window open, the next send arrives; if that does not get the client on, it has
  // asked for the expected chunk.
  lemma BySend(k: Params, s: State) returns (t: State)
    requires Inv(k, s) && Quiet(s) && !s.eof && !Closed(k, s) && !Unasked(s) && s.client.expected < k.total
    ensures Advances(k, s, t)
  {
    hide Gets, Missing, Taken, Edge, Advances;
    var b := ToTop(k, s);
    SentArrives(k, b);
    SameMissing(s, b);
    var c := Taken(AfterSend(k, b), Some(Sent(k, b)));
    GoesThen(k, s, b, c);
    if c.client.expected > s.client.expected {
      t := c;
      AdvancesBy(k, s, t);
    } else {
      MissingFacts(k, c);
      t := ByAnswer(k, c);
      AdvancesAfter(k, s, c, t);
    }
  }

  lemma AdvancesBy(k: Params, s: State, t: State)
    requires Goes(k, s, t) && t.client.expected > s.client.expected
    ensures Advances(k, s, t)
  {
  }

  lemma ByAsked(k: Params, s: State) returns (t: State)
    requires Inv(k, s) && Quiet(s) && !s.eof && s.client.mode == R.Buffering && Asked(s)
    ensures Advances(k, s, t)
  {
    hide Gets, Missing, Advances;
    if !s.at.Top? {
      t := ByAnswer(k, s);
    } else if Closed(k, s) {
      var b := Placed(k, s);
      t := ByAnswer(k, b);
      AdvancesAfter(k, s, b, t);
    } else {
      t := BySend(k, s);
    }
  }

  // The answer to an old chunk moves the window up to what the client expects.
  lemma SlidesUp(k: Params, s: State) returns (t: State)
    requires Inv(k, s) && Quiet(s) && !s.eof && Closed(k, s) && s.at != Waiting(RESENDS)
    requires s.client.mode != R.Flushing && s.lowest < s.client.expected
    ensures Goes(k, s, t) && t == s.(lowest := s.client.expected, acks := [], at := Top)
  {
    hide Gets, Taken, ClientInv, DataInv, AcksInv, CursorsInv;
    var b := Placed(k, s);
    Resending(k, b);
    var h := AfterResend(b);
    OldAnswered(k, h, b.lowest);
    var c := Taken(h, Some(b.lowest));
    GoesThen(k, s, b, c);
    GoesInv(k, s, c);
    var i := |b.acks|;
    t := AfterAck(c, i);
    ReadGoes(k, c, i, t);
    GoesThen(k, s, c, t);
  }

  // The window opens, at least by a part of that.
  lemma Loosens(k: Params, s: State) returns (t: State)
    requires Inv(k, s) && Quiet(s) && !s.eof && Closed(k, s) && !(s.at == Waiting(RESENDS) && s.acks == [])
    requires s.client.mode != R.Flushing && s.lowest < s.client.expected
    ensures Goes(k, s, t) && t == s.(lowest := t.lowest, acks := t.acks, at := Top)
    ensures s.lowest < t.lowest <= s.client.expected
  {
    hide Gets, ClientInv, DataInv, AcksInv, CursorsInv;
    if s.at == Waiting(RESENDS) {
      ReadsHead(k, s);
      var b := AfterAck(s, 0);
      t := b;
      if b.lowest == s.lowest {
        t := SlidesUp(k, b);
        GoesThen(k, s, b, t);
      }
    } else {
      t := SlidesUp(k, s);
    }
  }

  lemma ByOrder(k: Params, s: State) returns (t: State)
    requires Inv(k, s) && Quiet(s) && !s.eof && !(s.at == Waiting(RESENDS) && s.acks == [])
    requires s.client.expected < k.total
    requires s.client.mode == R.InOrder
    ensures Advances(k, s, t)
  {
    hide Gets, Missing, Advances;
    if !Closed(k, s) {
      t := BySend(k, s);
    } else if s.lowest == s.client.expected {
      t := ByWait(k, s);
    } else {
      var b := Loosens(k, s);
      t := BySend(k, b);
      AdvancesAfter(k, s, b, t);
    }
  }

  // With the SREJ gone, the window has to close on the missing chunk.
  lemma {:induction false} ByClosing(k: Params, s: State) returns (t: State)
    requires Inv(k, s) && Quiet(s) && QuietMoves(k, s) && s.client.mode == R.Buffering
    requires s.eof ==> s.lowest == s.client.expected
    ensures Advances(k, s, t)
    decreases k.total - s.lowest, k.total - s.current
  {
    hide Gets, Missing, Taken, Edge, Advances;
    if s.eof {
      t := EndAdvances(k, s);
    } else if Asked(s) {
      t := ByAsked(k, s);
    } else if !Closed(k, s) {
      var b := ToTop(k, s);
      SentArrives(k, b);
      MissingFacts(k, b);
      var c := Taken(AfterSend(k, b), Some(Sent(k, b)));
      GoesThen(k, s, b, c);
      if c.client.expected > s.client.expected {
        t := c;
        AdvancesBy(k, s, t);
      } else {
        t := ByClosing(k, c);
        AdvancesAfter(k, s, c, t);
      }
    } else if s.lowest == s.client.expected {
      t := ByWait(k, s);
    } else {
      var b := Loosens(k, s);
      t := ByClosing(k, b);
      AdvancesAfter(k, s, b, t);
    }
  }

  lemma QuietAdvances(k: Params, s: State) returns (t: State)
    requires Inv(k, s) && Quiet(s) && QuietMoves(k, s)
    ensures Advances(k, s, t)
  {
    hide Gets, Missing, Advances;
    if s.eof {
      t := EndAdvances(k, s);
    } else if s.client.mode == R.InOrder {
      t := ByOrder(k, s);
    } else if s.client.mode == R.Buffering {
      t := ByClosing(k, s);
    } else if Closed(k, s) {
      t := ByWait(k, s);
    } else {
      t := BySend(k, s);
    }
  }

  // Every state that can move does get the client another chunk.
  lemma MovesAdvance(k: Params, s: State) returns (t: State)
    requires Inv(k, s) && Moves(k, s)
    ensures Gets(k, s, t) && Inv(k, t) && t.client.expected > s.client.expected
  {
    hide Gets, May, QuietMoves;
    t := MayGo(k, Beyond(s.client.expected), s);
    if t.client.expected <= s.client.expected {
      var b := t;
      t := QuietAdvances(k, b);
      Then(k, s, b, t);
    }
  }
}
