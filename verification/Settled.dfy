// What is on its way to the client, and what becomes of a state when it has got there.
module Settled {
  import opened Bytes
  import opened Pdu
  import opened Protocol
  import R = Rcopy

  // Sent and wanted, but not buffered.
  function Missing(s: State): set<nat> {
    set p: nat | s.client.expected <= p < s.current && p !in s.client.buffered
  }

  // Nothing is on its way to the client.
  predicate Quiet(s: State) {
    s.data == []
  }

  function Verifying(out: seq<Ack>): seq<Option<Ack>> {
    seq(|out|, i requires 0 <= i < |out| => Some(out[i]))
  }

  // The client flushes as far as it can: that takes a packet that is ready.
  ghost function Woken(c: Client): (r: (Client, seq<Ack>))
    requires ClientInv(c)
    ensures ClientInv(r.0) && r.0.mode != R.Flushing && |r.1| <= 2
    decreases c.mode == R.Flushing, c.highest - c.expected
  {
    if c.mode != R.Flushing then (c, [])
    else
      FlushKeepsClientInv(c);
      var (d, out) := Flush(c);
      if d.mode == R.Flushing then Woken(d) else (d, out)
  }

  // Woken by the next packet, the client reports the first gap, or has caught up.
  lemma {:induction false} WokenFacts(c: Client)
    requires ClientInv(c) && c.mode == R.Flushing
    ensures var (d, out) := Woken(c); var e := d.expected;
      && c.expected <= e <= c.highest + 1 && d.highest == c.highest
      && (forall p :: c.expected <= p < e ==> p in c.buffered)
      && (forall p :: p in d.buffered <==> p in c.buffered && e <= p)
      && if e == c.highest + 1 then d.mode == R.InOrder && d.buffered == {} && out == [Rr(e)]
         else d.mode == R.Buffering && e !in c.buffered && out == [Srej(e), Rr(e)]
    decreases c.highest - c.expected
  {
    FlushKeepsClientInv(c);
    var (d, out) := Flush(c);
    if d.mode == R.Flushing {
      WokenFacts(d);
      forall p | c.expected < p < Woken(d).0.expected
        ensures p in c.buffered
      {
        assert p in d.buffered;
      }
    }
  }

  ghost function Wake(s: State): State
    requires ClientInv(s.client)
  {
    s.(client := Woken(s.client).0, acks := s.acks + Verifying(Woken(s.client).1))
  }

  // A woken client reads what has arrived.
  function Read(s: State, t: Option<nat>): State {
    s.(client := Arrive(s.client, t).0, acks := s.acks + Verifying(Arrive(s.client, t).1))
  }

  ghost function Taken(s: State, t: Option<nat>): State
    requires ClientInv(s.client)
  {
    Read(Wake(s), t)
  }

  lemma WakeKeepsMissing(s: State)
    requires ClientInv(s.client)
    ensures Missing(Wake(s)) == Missing(s)
  {
    if s.client.mode == R.Flushing {
      WokenFacts(s.client);
    }
  }

  lemma ReadMissing(s: State, p: nat)
    requires ClientInv(s.client) && s.client.mode != R.Flushing
    ensures Missing(Read(s, Some(p))) == Missing(s) - {p}
  {
  }

  lemma WakeKeepsInv(k: Params, s: State)
    requires Inv(k, s)
    ensures Inv(k, Wake(s))
  {
    if s.client.mode == R.Flushing {
      WokenFacts(s.client);
      NotRejected(s);
    }
  }

  lemma {:induction false} HandedAll(ch: seq<Option<Ack>>, out: seq<Ack>)
    ensures Handed(ch, ch + Verifying(out), out)
    decreases |out|
  {
    if out == [] {
      assert ch + Verifying(out) == ch;
    } else {
      HandedAll(ch + [Some(out[0])], out[1..]);
      assert ch + Verifying(out) == ch + [Some(out[0])] + Verifying(out[1..]);
    }
  }

  lemma ReadKeepsInv(k: Params, s: State, p: nat)
    requires Inv(k, s) && Quiet(s) && s.client.mode != R.Flushing && p < s.current
    requires p <= s.client.expected || s.client.mode == R.InOrder || p >= s.client.highest
    ensures Inv(k, Read(s, Some(p)))
  {
    var b := s.(data := [Some(p)]);
    HandedAll(s.acks, Arrive(s.client, Some(p)).1);
    assert b.data[1..] == [];
    ReceiveKeepsInv(k, b, Read(s, Some(p)));
  }

  lemma BehindKeepsInv(k: Params, s: State)
    requires Inv(k, s) && s.data != []
    ensures Inv(k, s.(data := s.data[1..]))
  {
    hide Inv;
    var b := s.(data := s.data[1..]);
    assert b.data == s.data[..0] + s.data[0 + 1..];
    SufferKeepsInv(k, s, b);
  }

  lemma HeadKeepsInv(k: Params, s: State)
    requires Inv(k, s) && s.data != []
    ensures var b := s.(data := s.data[1..]);
      Inv(k, b) && Inv(k, Taken(b, None)) && Inv(k, Taken(b, s.data[0]))
  {
    hide CursorsInv, DataInv, AcksInv, LoopInv;
    var b, u := s.(data := s.data[1..]), Wake(s);
    BehindKeepsInv(k, s);
    WakeKeepsInv(k, s);
    WakeKeepsInv(k, b);
    HandedAll(u.acks, Arrive(u.client, s.data[0]).1);
    assert ClientReceive(u, Taken(b, s.data[0]));
    ReceiveKeepsInv(k, u, Taken(b, s.data[0]));
    NoneTaken(b);
  }

  lemma NoneTaken(s: State)
    requires ClientInv(s.client)
    ensures Taken(s, None) == Wake(s)
  {
    assert Wake(s).acks + Verifying([]) == Wake(s).acks;
  }

  // ---------------------------------------------------------------------------
  // Sizes of sets of chunk numbers.
  // ---------------------------------------------------------------------------

  lemma {:induction false} Fewer(a: set<nat>, b: set<nat>)
    requires a <= b
    ensures |a| <= |b|
  {
    if a != {} {
      var p :| p in a;
      Fewer(a - {p}, b - {p});
    }
  }

  function Range(a: nat, b: nat): (r: set<nat>)
    requires a <= b
    ensures |r| == b - a && forall p :: p in r <==> a <= p < b
    decreases b
  {
    if a == b then {} else Range(a, b - 1) + {b - 1}
  }

  lemma Disjoint(a: set<nat>, b: set<nat>)
    requires forall p :: p in a ==> p !in b
    ensures |a + b| == |a| + |b|
  {
    assert a * b == {};
  }

  lemma OneLess(a: set<nat>, b: set<nat>, c: set<nat>, p: nat)
    requires p in a && b == a - {p} && p !in c
    ensures |a - c| == |b - c| + 1
  {
    assert b - c == (a - c) - {p};
  }

  // ---------------------------------------------------------------------------
  // What the client waits for, and what packets change.
  // ---------------------------------------------------------------------------

  predicate Asked(s: State) {
    Some(Srej(s.client.expected)) in s.acks
  }

  // The client waits for a missing chunk, has asked for it, and the SREJ is gone.
  predicate Unasked(s: State) {
    s.client.mode == R.Buffering && !Asked(s)
  }

  ghost predicate AnySrej(s: State) {
    exists n :: Some(Srej(n)) in s.acks
  }

  // A chunk is missing before one that is buffered.
  predicate Gap(s: State) {
    exists p :: p in Missing(s) && p < s.client.highest
  }

  // What a woken client has sent.
  lemma WakeAcks(s: State)
    requires ClientInv(s.client) && s.client.mode == R.Flushing
    ensures var u := Wake(s); var e := u.client.expected;
      && u.acks == s.acks + (if u.client.mode == R.Buffering then [Some(Srej(e)), Some(Rr(e))] else [Some(Rr(e))])
      && u == s.(client := u.client, acks := u.acks)
  {
    WokenFacts(s.client);
  }

  lemma WakeClient(k: Params, s: State)
    requires Inv(k, s) && s.client.mode == R.Flushing
    ensures var c := Wake(s).client;
      && s.client.expected <= c.expected && c.highest == s.client.highest
      && (s.client.expected in s.client.buffered <==> c.expected > s.client.expected)
      && if Gap(s) then c.mode == R.Buffering && c.expected in Missing(s)
         else c.mode == R.InOrder && c.expected == s.client.highest + 1
  {
    WokenFacts(s.client);
    var d := Woken(s.client).0;
    assert d.mode == R.Buffering ==> d.expected in Missing(s) && d.expected < s.client.highest;
  }

  // A flushing client, woken.
  lemma WakeFacts(k: Params, s: State)
    requires Inv(k, s) && s.client.mode == R.Flushing
    ensures var u := Wake(s);
      && Missing(u) == Missing(s)
      && s.lowest < s.client.expected <= u.client.expected && u.client.highest == s.client.highest
      && u == s.(client := u.client, acks := u.acks) && u.acks != []
      && (forall a :: a in s.acks ==> a in u.acks)
      && (forall a :: a in u.acks ==>
            a in s.acks || a == Some(Srej(u.client.expected)) || a == Some(Rr(u.client.expected)))
      && Some(Rr(u.client.expected)) in u.acks
      && (s.client.expected in s.client.buffered <==> u.client.expected > s.client.expected)
      && (s.acks != [] ==> u.acks[0] == s.acks[0])
      && if Gap(s) then u.client.mode == R.Buffering && Asked(u) && u.client.expected in Missing(s)
         else u.client.mode == R.InOrder && u.client.expected == s.client.highest + 1
  {
    hide Wake, Missing, Gap, AcksInv, DataInv, LoopInv;
    WakeKeepsMissing(s);
    WakeClient(k, s);
    WakeAcks(s);
  }

  lemma Awake(s: State)
    requires ClientInv(s.client) && s.client.mode != R.Flushing
    ensures Wake(s) == s
  {
    assert s.acks + Verifying([]) == s.acks;
  }

  lemma SameWake(s: State, t: State)
    requires s.client == t.client && ClientInv(s.client)
    ensures Wake(s).client == Wake(t).client
  {
  }

  lemma ReadFacts(k: Params, s: State, p: nat)
    requires Inv(k, s) && s.client.mode != R.Flushing
    ensures var y, e := Read(s, Some(p)), s.client.expected;
      && Missing(y) == Missing(s) - {p} && y == s.(client := y.client, acks := y.acks)
      && (s.acks != [] ==> y.acks != [] && y.acks[0] == s.acks[0])
      && (forall a :: a in s.acks ==> a in y.acks)
      && if p < e then
           && y.client == s.client && Some(Rr(e)) in y.acks
           && forall a :: a in y.acks ==> a in s.acks || a == Some(Rr(e))
         else if p > e then
           && y.client.mode == R.Buffering && y.client.expected == e && y.client.highest == p
           && (if s.client.mode == R.InOrder then Asked(y) else y.acks == s.acks)
           && forall a :: a in y.acks ==> a in s.acks || a == Some(Srej(e))
         else if s.client.mode == R.InOrder then
           && y.client.mode == R.InOrder && y.client.expected == e + 1 && y.client.highest == e
           && Some(Rr(e + 1)) in y.acks && forall a :: a in y.acks ==> a in s.acks || a == Some(Rr(e + 1))
         else
           && y.client.mode == R.Flushing && y.client.expected == e + 1 && y.client.highest == s.client.highest
           && y.acks == s.acks
  {
    ReadMissing(s, p);
    var y := Read(s, Some(p));
    var out := Verifying(Receive(s.client, p).1);
    assert forall i :: 0 <= i < |out| ==> y.acks[|s.acks| + i] == out[i];
    assert out == [] ==> y.acks == s.acks;
    assert out != [] ==> out[0] == Some(Receive(s.client, p).1[0]);
  }

  // An old chunk changes nothing in a client that is awake.
  lemma OldRead(k: Params, s: State, p: nat)
    requires Inv(k, s) && p < s.client.expected
    ensures Taken(s, Some(p)).client == Wake(s).client
    ensures Taken(s, Some(p)) == s.(client := Wake(s).client, acks := Taken(s, Some(p)).acks)
  {
    if s.client.mode == R.Flushing {
      WakeFacts(k, s);
    } else {
      Awake(s);
    }
  }

  // p arrives at s, or a damaged packet, or none.
  ghost predicate Arrives(s: State, p: nat, y: State)
    requires ClientInv(s.client)
  {
    y == s || y == Wake(s) || y == Taken(s, Some(p))
  }

  lemma SameServer(s: State, p: nat, y: State)
    requires ClientInv(s.client) && Arrives(s, p, y)
    ensures y == s.(client := y.client, acks := y.acks)
  {
    hide Woken;
  }

  lemma MissingFacts(k: Params, s: State)
    requires Inv(k, s)
    ensures forall p :: p in Missing(s) ==> s.client.expected <= p < s.current
    ensures s.client.mode != R.Flushing && s.client.expected < s.current ==> s.client.expected in Missing(s)
    ensures s.client.mode == R.InOrder ==> forall p :: s.client.expected <= p < s.current ==> p in Missing(s)
    ensures s.client.mode != R.InOrder ==> s.client.highest !in Missing(s)
    ensures forall p :: s.client.highest < p < s.current && s.client.expected <= p ==> p in Missing(s)
    ensures s.client.expected == k.total ==> Missing(s) == {}
  {
    if s.client.expected == k.total {
      NothingMissing(k, s);
    }
  }

  lemma NothingMissing(k: Params, s: State)
    requires Inv(k, s) && s.client.expected == k.total
    ensures Missing(s) == {}
  {
  }

  lemma SameMissing(s: State, t: State)
    requires t.client == s.client && t.current == s.current
    ensures Missing(t) == Missing(s)
  {
  }

  lemma SameGap(s: State, t: State)
    requires t.client == s.client && t.current == s.current
    ensures Gap(t) <==> Gap(s)
  {
    hide Missing;
    SameMissing(s, t);
  }

  // What arrives may be the expected chunk, or an old one.
  lemma ArrivalFacts(k: Params, s: State, p: nat, y: State)
    requires Inv(k, s) && Quiet(s) && p <= s.client.expected && Arrives(s, p, y)
    requires p == s.client.expected ==> p < s.current
    ensures Inv(k, y) && y == s.(client := y.client, acks := y.acks)
    ensures forall a :: a in s.acks ==> a in y.acks
    ensures s.acks != [] ==> y.acks != [] && y.acks[0] == s.acks[0]
    ensures Unasked(s) && p < s.client.expected ==> Unasked(y) && y.client == s.client
    ensures p == s.client.expected && s.client.mode == R.Buffering && y != s ==>
      y.client.mode == R.Flushing && y.acks == s.acks && y.client.expected == p + 1 <= y.client.highest
    ensures forall n :: Some(Srej(n)) in y.acks ==> Some(Srej(n)) in s.acks || s.client.mode == R.Flushing
  {
    hide Missing, Wake, Read;
    SameServer(s, p, y);
    if s.client.mode == R.Flushing {
      WakeFacts(k, s);
    } else {
      Awake(s);
    }
    WakeKeepsInv(k, s);
    ReadFacts(k, Wake(s), p);
    ReadKeepsInv(k, Wake(s), p);
  }

  lemma SentMissing(x: State, s: State)
    requires s.client == x.client && s.current == x.current + 1 && x.client.expected <= x.current
    requires forall p :: p in x.client.buffered ==> p < x.current
    ensures Missing(s) == Missing(x) + {x.current} && x.current !in Missing(x)
  {
  }

  // What arrives, case by case: a flushing client is woken, an old chunk is answered with an
  // RR, and only the expected chunk gets a client on that is awake.
  lemma ArrivesHow(k: Params, s: State, p: nat, y: State)
    requires Inv(k, s) && p <= s.client.expected && Arrives(s, p, y)
    ensures s.client.mode != R.Flushing ==>
      || y == s
      || (p < s.client.expected && y == s.(acks := s.acks + [Some(Rr(s.client.expected))]))
      || (p == s.client.expected && y == Read(s, Some(p)))
    ensures s.client.mode == R.Flushing && p < s.client.expected ==>
      y == s || y == s.(client := Wake(s).client, acks := y.acks)
  {
    hide Wake, Read;
    SameServer(s, p, y);
    if s.client.mode != R.Flushing {
      Awake(s);
      if p < s.client.expected {
        OldAnswered(k, s, p);
      }
    } else if p < s.client.expected {
      OldRead(k, s, p);
      WakeFacts(k, s);
    }
  }

  // The newest chunk arrives at a client that is awake.
  lemma NewestFacts(k: Params, u: State, p: nat)
    requires Inv(k, u) && Quiet(u) && u.client.mode != R.Flushing && p + 1 == u.current
    ensures var y := Read(u, Some(p));
      && Missing(y) == Missing(u) - {p} && Inv(k, y) && y.client.expected >= u.client.expected
      && (u.client.mode == R.Buffering ==>
            y.client.mode == R.Buffering && y.client.expected == u.client.expected && y.acks == u.acks)
  {
    hide Missing, Read;
    ReadFacts(k, u, p);
    ReadKeepsInv(k, u, p);
  }

  // What one more send changes.
  lemma SendFacts(k: Params, x: State, s: State, p: nat, y: State)
    requires Inv(k, x) && Quiet(x) && (SendNew(k, x, s) || SendStale(k, x, s)) && Quiet(s) && Inv(k, s)
    requires Arrives(s, p, y)
    requires p + 1 == s.current
    ensures Missing(y) - {p} == Missing(x) - {p} && (x.current < s.current ==> p !in Missing(x))
    ensures x.client.mode == R.Buffering ==> y.client.mode == R.Buffering && y.client.expected == x.client.expected
    ensures Unasked(x) ==> Unasked(y)
    ensures y.client.expected >= x.client.expected
    ensures y.at == s.at && y.lowest == s.lowest && y.current == s.current && y.eof == s.eof && Inv(k, y)
  {
    hide Missing, Woken, Wake, Read, DataInv, AcksInv;
    if x.current < s.current {
      SentMissing(x, s);
    } else {
      SameMissing(x, s);
    }
    SameServer(s, p, y);
    WakeKeepsInv(k, s);
    WakeKeepsMissing(s);
    WakeForward(k, s);
    if s.client.mode != R.Flushing {
      Awake(s);
    }
    WakeQuiet(s);
    NewestFacts(k, Wake(s), p);
  }

  lemma WakeQuiet(s: State)
    requires ClientInv(s.client)
    ensures Wake(s) == s.(client := Wake(s).client, acks := Wake(s).acks) && Wake(s).client.mode != R.Flushing
  {
    hide Woken;
  }

  // The client's flush step, with all acknowledgements handed over.
  function Flushed(s: State): State {
    s.(client := Flush(s.client).0, acks := s.acks + Verifying(Flush(s.client).1))
  }

  lemma WakeFlushed(k: Params, s: State)
    requires Inv(k, s) && s.client.mode == R.Flushing
    ensures Inv(k, Flushed(s)) && Wake(Flushed(s)) == Wake(s) && Flushed(s).client.expected >= s.client.expected
  {
    FlushKeepsClientInv(s.client);
    HandedAll(s.acks, Flush(s.client).1);
    var d := s.(data := [None]);
    FlushKeepsInv(k, d, Flushed(s).(data := [None]));
    if Flush(s.client).0.mode == R.Flushing {
      assert Flush(s.client).1 == [];
      assert s.acks + Verifying([]) == s.acks;
    } else {
      Awake(Flushed(s));
    }
  }

  lemma WakeForward(k: Params, s: State)
    requires Inv(k, s)
    ensures Wake(s).client.expected >= s.client.expected
  {
    if s.client.mode == R.Flushing {
      WokenFacts(s.client);
    }
  }

  // An old chunk wakes a flushing client, and the last answer is an RR.
  lemma OldWakes(k: Params, s: State, p: nat)
    requires Inv(k, s) && s.client.mode == R.Flushing && p < s.client.expected
    ensures var y := Taken(s, Some(p));
      && y == s.(client := y.client, acks := y.acks) && Missing(y) == Missing(s)
      && s.lowest < s.client.expected <= y.client.expected && y.client.highest == s.client.highest
      && |y.acks| > |s.acks| && y.acks[..|s.acks|] == s.acks && y.acks[|y.acks| - 1] == Some(Rr(y.client.expected))
      && if Gap(s) then y.client.mode == R.Buffering && Asked(y) && y.client.expected in Missing(s)
         else y.client.mode == R.InOrder && y.client.expected == s.client.highest + 1
  {
    WakeFacts(k, s);
    OldRead(k, s, p);
    var u, y := Wake(s), Taken(s, Some(p));
    assert y.acks == u.acks + [Some(Rr(u.client.expected))];
    assert forall a :: a in u.acks ==> a in y.acks;
  }

  // An old chunk is answered with an RR.
  lemma OldAnswered(k: Params, s: State, p: nat)
    requires Inv(k, s) && s.client.mode != R.Flushing && p < s.client.expected
    ensures Taken(s, Some(p)) == s.(acks := s.acks + [Some(Rr(s.client.expected))])
  {
    Awake(s);
  }
}
