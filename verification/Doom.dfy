// A state that cannot complete the transfer never will, and one that cannot get the client
// another chunk never does.
module Doom {
  import opened Bytes
  import opened Pdu
  import opened ServerLoop
  import opened Protocol
  import opened Settled
  import opened Fate
  import D = Decline
  import R = Rcopy

  // ---------------------------------------------------------------------------
  // Quiet states.
  // ---------------------------------------------------------------------------

  // A turn of the server, apart from what becomes of what it sends.
  ghost predicate Turn(k: Params, s: State, t: State, out: seq<nat>) {
    && t.data == s.data
    && (|| (SendNew(k, s, t) && out == [s.current])
        || (SendStale(k, s, t) && out == if s.current > 0 then [s.current - 1] else [])
        || (Timeout(s, t) && out == [s.lowest])
        || (GoOn(k, s, t) && out == [])
        || (ServerAck(s, t) && out == Answer(s, s.acks[0])))
  }

  // One packet or none was sent, and it is lost, or it arrives, damaged or not.
  ghost predicate Comes(s: State, out: seq<nat>, y: State)
    requires ClientInv(s.client)
  {
    if out == [] then y == s else Arrives(s, out[0], y)
  }

  lemma QuietRevivesNothing(k: Params, x: State, s: State, out: seq<nat>, y: State)
    requires Inv(k, x) && Inv(k, s) && Quiet(x) && Turn(k, x, s, out) && Comes(s, out, y) && QuietAlive(k, y)
    ensures QuietAlive(k, x)
  {
    hide Inv, Arrives, QuietAlive;
    Bounds(k, x);
    if x.client.expected == k.total {
      Completed(k, x);
    } else if SendNew(k, x, s) || SendStale(k, x, s) {
      if x.lowest >= LastWindow(k) {
        D.SendAtTail(k, x, s, out[0], y);
      } else {
        D.SendInMiddle(k, x, s, out[0], y);
      }
    } else if Timeout(x, s) {
      if x.eof {
        D.TimeoutAtEnd(k, x, s, y);
      } else {
        D.TimeoutInMiddle(k, x, s, y);
      }
    } else if GoOn(k, x, s) {
      D.GoOnRevivesNothing(k, x, s);
    } else if x.eof || x.lowest >= LastWindow(k) {
      D.AckAtEnd(k, x, s, y);
    } else {
      D.AckInMiddle(k, x, s, y);
    }
  }

  lemma Bounds(k: Params, s: State)
    requires Inv(k, s)
    ensures s.client.expected <= s.current <= k.total
    ensures !s.eof && s.lowest >= LastWindow(k) ==> !s.at.Waiting?
  {
  }

  lemma Completed(k: Params, s: State)
    requires s.client.expected == k.total
    ensures QuietAlive(k, s)
  {
  }

  lemma NothingToSend(k: Params, x: State, y: State)
    requires y.client == x.client && k.total == 0
    ensures !QuietMoves(k, y)
  {
  }

  lemma QuietMovesNothing(k: Params, x: State, s: State, out: seq<nat>, y: State)
    requires Inv(k, x) && Inv(k, s) && Quiet(x) && Turn(k, x, s, out) && Comes(s, out, y)
    requires y.client.expected > x.client.expected || QuietMoves(k, y)
    ensures QuietMoves(k, x)
  {
    hide Inv, Arrives, QuietMoves;
    if (SendNew(k, x, s) || SendStale(k, x, s)) && out == [] {
      NothingToSend(k, x, y);
    } else if SendNew(k, x, s) || SendStale(k, x, s) {
      D.SendMoves(k, x, s, out[0], y);
    } else if Timeout(x, s) {
      D.TimeoutMoves(k, x, s, y);
    } else if GoOn(k, x, s) {
      D.GoOnMoves(k, x, s);
    } else {
      D.AckMoves(k, x, s, y);
    }
  }

  // A server that only reads gets to where the acknowledgement it reads leaves it.
  lemma CompletableTurn(k: Params, x: State, s: State, out: seq<nat>, y: State)
    requires Inv(k, x) && Inv(k, s) && Quiet(x) && Turn(k, x, s, out) && Comes(s, out, y)
    requires ClientInv(y.client) && Completable(k, y)
    ensures Completable(k, x)
  {
    hide QuietAlive, Arrives, ClientInv, DataInv, AcksInv, CursorsInv;
    QuietRevivesNothing(k, x, s, out, y);
    if OnlyReads(k, x) {
      assert ServerAck(x, s) && s == AfterAck(x, 0);
      assert ReadTo(x, 0, y);
    }
  }

  lemma CompletableWakes(k: Params, s: State)
    requires Inv(k, s) && Quiet(s) && Completable(k, s)
    ensures Completable(k, Wake(s))
  {
    hide QuietAlive, ClientInv, AcksInv, DataInv, CursorsInv, Woken;
    D.WakeHelps(k, s);
    WakeKeepsInv(k, s);
    WakeForward(k, s);
    WakeQuiet(s);
    if OnlyReads(k, s) {
      var i, y :| 0 <= i < |s.acks| && ReadTo(s, i, y) && QuietAlive(k, y);
      var y' := WakeReads(k, s, i, y);
      assert ReadTo(Wake(s), i, y');
    }
  }

  lemma WakeReads(k: Params, s: State, i: nat, y: State) returns (y': State)
    requires Inv(k, s) && Quiet(s) && !s.at.Top? && i < |s.acks| && ReadTo(s, i, y) && QuietAlive(k, y)
    ensures i < |Wake(s).acks| && ReadTo(Wake(s), i, y') && QuietAlive(k, y')
  {
    hide QuietAlive, Woken, Read, ClientInv, DataInv, AcksInv, CursorsInv;
    var h, u := AfterAck(s, i), Wake(s);
    AfterAckKeepsInv(k, s, i);
    WakeAfterAck(k, s, i);
    if y == h {
      D.WakeHelps(k, h);
      y' := Wake(h);
    } else {
      y' := y;
      Awake(Wake(h));
    }
  }

  // Reading and waking commute.
  lemma WakeAfterAck(k: Params, s: State, i: nat)
    requires Inv(k, s) && i < |s.acks|
    ensures var u := Wake(s); i < |u.acks| && AfterAck(u, i) == Wake(AfterAck(s, i)) && u.acks[i] == s.acks[i]
    ensures Wake(s).client.mode != R.Flushing && ClientInv(Wake(s).client)
  {
    hide Woken;
    var more := Verifying(Woken(s.client).1);
    assert (s.acks + more)[i + 1..] == s.acks[i + 1..] + more;
  }

  lemma AfterAckKeepsInv(k: Params, s: State, i: nat)
    requires Inv(k, s) && Quiet(s) && !s.at.Top? && i < |s.acks|
    ensures Inv(k, AfterAck(s, i))
  {
    hide Inv, ServerAck;
    var d := DropKeepsInv(k, s, i);
    ReadOne(k, d, AfterAck(s, i));
    ServerAckKeepsInv(k, d, AfterAck(s, i));
  }

  lemma ReadOne(k: Params, d: State, h: State)
    requires Quiet(d) && !d.at.Top? && d.acks != [] && h == AfterAck(d, 0)
    ensures ServerAck(d, h)
  {
    HandedNone(d.data, Answer(d, d.acks[0]));
  }

  lemma {:induction false} DropKeepsInv(k: Params, s: State, i: nat) returns (d: State)
    requires Inv(k, s) && i < |s.acks|
    ensures Inv(k, d) && d == s.(acks := s.acks[i..])
    decreases i
  {
    hide Inv;
    if i == 0 {
      d := s;
    } else {
      var a := s.(acks := s.acks[1..]);
      assert a.acks == s.acks[..0] + s.acks[0 + 1..];
      SufferKeepsInv(k, s, a);
      d := DropKeepsInv(k, a, i - 1);
    }
  }

  // A packet in flight is lost.
  predicate Loses<T(==)>(ch: seq<Option<T>>, ch': seq<Option<T>>) {
    exists i | 0 <= i < |ch| :: ch' == ch[..i] + ch[i + 1..]
  }

  // An acknowledgement in flight is lost, or damaged where that may happen.
  predicate Hurts(k: Params, ch: seq<Option<Ack>>, ch': seq<Option<Ack>>) {
    Suffers(ch, ch') && (k.noisy || Loses(ch, ch'))
  }

  lemma HurtsMore(k: Params, ch: seq<Option<Ack>>, ch': seq<Option<Ack>>, more: seq<Option<Ack>>)
    requires Hurts(k, ch, ch')
    ensures Hurts(k, ch + more, ch' + more)
  {
    hide Suffers;
    SuffersMore(ch, ch', more);
    if !k.noisy {
      var i :| 0 <= i < |ch| && ch' == ch[..i] + ch[i + 1..];
      var all := ch + more;
      assert all[..i] == ch[..i] && all[i + 1..] == ch[i + 1..] + more;
      assert ch' + more == all[..i] + all[i + 1..];
    }
  }

  // Where acknowledgements may not be damaged, none in flight is.
  predicate Unspoilt(k: Params, s: State) {
    k.noisy || forall i :: 0 <= i < |s.acks| ==> s.acks[i].Some?
  }

  lemma CompletableSuffers(k: Params, x: State, y: State)
    requires Inv(k, x) && Quiet(x) && y == x.(acks := y.acks) && Hurts(k, x.acks, y.acks)
    requires Completable(k, y)
    ensures Completable(k, x)
  {
    hide ClientInv, AcksInv, DataInv, CursorsInv, QuietAlive, Suffers;
    D.AckSuffers(k, x, y);
    if OnlyReads(k, x) {
      var j, v :| 0 <= j < |y.acks| && ReadTo(y, j, v) && QuietAlive(k, v);
      var j', v' := LosesReads(k, x, y, j, v);
      assert ReadTo(x, j', v');
    }
  }

  // With one acknowledgement more on its way, what is read leaves no less.
  lemma LosesReads(k: Params, x: State, y: State, j: nat, v: State) returns (j': nat, v': State)
    requires Inv(k, x) && Quiet(x) && !x.at.Top? && y == x.(acks := y.acks) && Loses(x.acks, y.acks)
    requires j < |y.acks| && ReadTo(y, j, v) && QuietAlive(k, v)
    ensures j' < |x.acks| && ReadTo(x, j', v') && QuietAlive(k, v')
  {
    hide ClientInv, DataInv, CursorsInv, LoopInv, QuietAlive, Arrives;
    var i :| 0 <= i < |x.acks| && y.acks == x.acks[..i] + x.acks[i + 1..];
    if j >= i {
      j', v' := j + 1, v;
      assert y.acks[j + 1..] == x.acks[j' + 1..];
    } else {
      j' := j;
      var h, l := AfterAck(x, j), AfterAck(y, j);
      AfterAckKeepsInv(k, x, j);
      RestLoses(x.acks, y.acks, i, j);
      v' := LoseReads(k, x, h, l, j, v);
    }
  }

  lemma LoseReads(k: Params, x: State, h: State, l: State, j: nat, v: State) returns (v': State)
    requires Inv(k, x) && j < |x.acks| && h == AfterAck(x, j) && Inv(k, h) && Quiet(h)
    requires l == h.(acks := l.acks) && Suffers(h.acks, l.acks) && QuietAlive(k, v)
    requires v == l || (x.acks[j].Some? && x.acks[j].value.Srej? && Arrives(l, x.acks[j].value.n, v))
    ensures v' == h || (x.acks[j].Some? && x.acks[j].value.Srej? && Arrives(h, x.acks[j].value.n, v'))
    ensures QuietAlive(k, v')
  {
    hide QuietAlive, Suffers, Arrives, ClientInv, DataInv, LoopInv;
    if v == l {
      v' := h;
      D.AckSuffers(k, h, l);
    } else {
      v' := MoreArrives(k, h, l, x.acks[j].value.n, v, x.acks[j]);
    }
  }

  lemma RestLoses<T>(ch: seq<Option<T>>, ch': seq<Option<T>>, i: nat, j: nat)
    requires j < i < |ch| && ch' == ch[..i] + ch[i + 1..]
    ensures j < |ch'| && ch'[j] == ch[j] && Suffers(ch[j + 1..], ch'[j + 1..])
  {
    var h, n := ch[j + 1..], i - j - 1;
    assert h[..n] == ch[j + 1..i] && h[n + 1..] == ch[i + 1..];
    assert ch'[j + 1..] == h[..n] + h[n + 1..];
  }

  lemma MoreArrives(k: Params, h: State, l: State, n: nat, v: State, a: Option<Ack>) returns (v': State)
    requires Inv(k, h) && Quiet(h) && l == h.(acks := l.acks) && Suffers(h.acks, l.acks)
    requires n <= h.client.expected && n < h.current
    requires v == l || (a.Some? && a.value.Srej? && Arrives(l, n, v))
    requires QuietAlive(k, v)
    ensures v' == h || (a.Some? && a.value.Srej? && Arrives(h, n, v'))
    ensures QuietAlive(k, v')
  {
    hide QuietAlive, Suffers, Woken, Arrive, AcksInv, DataInv, CursorsInv, LoopInv, ClientInv;
    WakeKeepsInv(k, h);
    var more := Verifying(Woken(h.client).1);
    SuffersMore(h.acks, l.acks, more);
    if v == l {
      v' := h;
    } else if v == Wake(l) {
      v' := Wake(h);
    } else {
      v' := Taken(h, Some(n));
      SuffersMore(h.acks + more, l.acks + more, Verifying(Arrive(Wake(h).client, Some(n)).1));
      TakenKeepsInv(k, h, n);
    }
    D.AckSuffers(k, v', v);
  }

  lemma TakenKeepsInv(k: Params, s: State, n: nat)
    requires Inv(k, s) && Quiet(s) && n <= s.client.expected && n < s.current
    ensures Inv(k, Taken(s, Some(n)))
  {
    hide Woken, Read;
    WakeKeepsInv(k, s);
    WakeForward(k, s);
    WakeQuiet(s);
    ReadKeepsInv(k, Wake(s), n);
  }

  lemma QuietTurn(k: Params, g: Goal, x: State, s: State, out: seq<nat>, y: State)
    requires Inv(k, x) && Inv(k, s) && Quiet(x) && Turn(k, x, s, out) && Comes(s, out, y)
    requires ClientInv(y.client) && Holds(k, g, y) && Counts(g, x)
    ensures Holds(k, g, x)
  {
    hide Turn, Comes, Completable, QuietMoves, ClientInv, AcksInv, DataInv, LoopInv, CursorsInv;
    if g.Complete? {
      CompletableTurn(k, x, s, out, y);
    } else if x.client.expected <= g.chunks {
      QuietMovesNothing(k, x, s, out, y);
    }
  }

  lemma QuietWakes(k: Params, g: Goal, s: State)
    requires Inv(k, s) && Quiet(s) && Holds(k, g, s) && Counts(g, s)
    ensures Holds(k, g, Wake(s))
  {
    hide Completable, QuietMoves, Wake, AcksInv, DataInv, LoopInv, CursorsInv;
    WakeForward(k, s);
    if g.Complete? {
      CompletableWakes(k, s);
    } else if s.client.expected <= g.chunks {
      D.WakeMoves(k, s);
    }
  }

  lemma QuietSuffers(k: Params, g: Goal, x: State, y: State)
    requires Inv(k, x) && Quiet(x) && y == x.(acks := y.acks) && Hurts(k, x.acks, y.acks)
    requires Holds(k, g, y)
    ensures Holds(k, g, x)
  {
    hide Completable, QuietMoves, Suffers, ClientInv, AcksInv, DataInv, LoopInv, CursorsInv;
    if g.Complete? {
      CompletableSuffers(k, x, y);
    } else if x.client.expected <= g.chunks {
      D.SufferMoves(k, x, y);
    }
  }

  // ---------------------------------------------------------------------------
  // States with packets on their way to the client.
  // ---------------------------------------------------------------------------

  lemma {:induction false} HandedNone<T>(ch: seq<Option<T>>, out: seq<T>)
    ensures Handed(ch, ch, out)
    decreases |out|
  {
    if out != [] {
      HandedNone(ch, out[1..]);
    }
  }

  // A turn is the same before and after a packet arrives.
  lemma TurnElsewhere(k: Params, s: State, t: State, out: seq<nat>, c: Client, data: seq<Option<nat>>,
                      more: seq<Option<Ack>>)
    requires Turn(k, s, t, out)
    ensures Turn(k, s.(client := c, data := data, acks := s.acks + more),
                 t.(client := c, data := data, acks := t.acks + more), out)
  {
    hide Handed;
    HandedNone(data, out);
    HandedNone<nat>(data, [s.current]);
    HandedNone<nat>(data, [s.lowest]);
    if ServerAck(s, t) {
      assert (s.acks + more)[1..] == t.acks + more;
    }
  }

  lemma MayTurnQuiet(k: Params, g: Goal, s: State, t: State, out: seq<nat>, extra: seq<Option<nat>>)
    requires Inv(k, s) && Inv(k, t) && Turn(k, s, t.(data := s.data), out) && t.data == extra && s.data == []
    requires extra == [] || (out != [] && (extra == [None] || extra == [Some(out[0])]))
    requires May(k, g, t) && Counts(g, s)
    ensures Holds(k, g, s)
  {
    hide Turn, Holds, Wake, Read, ClientInv, AcksInv, DataInv, CursorsInv, LoopInv;
    if extra == [] {
      QuietTurn(k, g, s, t, out, t);
    } else {
      MayOf(k, g, t);
      var b := Behind(t);
      NoneTaken(b);
      assert b == t.(data := []);
      if May(k, g, b) {
        QuietTurn(k, g, s, b, out, b);
      } else if May(k, g, After(t, None)) {
        QuietTurn(k, g, s, b, out, Wake(b));
      } else {
        assert extra == [Some(out[0])];
        QuietTurn(k, g, s, b, out, Taken(b, Some(out[0])));
      }
    }
  }

  // s takes a turn to t; of what it sent, extra has come onto the channel.
  lemma {:induction false} MayTurn(k: Params, g: Goal, s: State, t: State, out: seq<nat>, extra: seq<Option<nat>>)
    requires Inv(k, s) && Inv(k, t) && Turn(k, s, t.(data := s.data), out) && t.data == s.data + extra
    requires extra == [] || (out != [] && (extra == [None] || extra == [Some(out[0])]))
    requires May(k, g, t) && Counts(g, s)
    ensures May(k, g, s)
    decreases |s.data|
  {
    hide Inv, Turn, Holds, Counts;
    if s.data == [] {
      MayTurnQuiet(k, g, s, t, out, extra);
    } else {
      MayOf(k, g, s);
      MayOf(k, g, t);
      if May(k, g, Behind(t)) {
        TurnBehind(k, s, t, out, extra);
        MayTurn(k, g, Behind(s), Behind(t), out, extra);
      } else if May(k, g, After(t, None)) {
        TurnAfter(k, s, t, out, extra, None);
        MayTurn(k, g, After(s, None), After(t, None), out, extra);
      } else {
        TurnAfter(k, s, t, out, extra, s.data[0]);
        MayTurn(k, g, After(s, s.data[0]), After(t, s.data[0]), out, extra);
      }
    }
  }

  lemma TurnAfter(k: Params, s: State, t: State, out: seq<nat>, extra: seq<Option<nat>>, a: Option<nat>)
    requires ClientInv(s.client) && Turn(k, s, t.(data := s.data), out) && s.data != [] && t.data == s.data + extra
    ensures ClientInv(t.client)
    ensures After(t, a).data == After(s, a).data + extra
    ensures Turn(k, After(s, a), After(t, a).(data := After(s, a).data), out)
  {
    hide Woken, Arrive, Turn;
    TurnClient(k, s, t.(data := s.data), out);
    var (c, more) := Woken(s.client);
    var (c', more') := Arrive(c, a);
    var all := Verifying(more) + Verifying(more');
    TurnElsewhere(k, s, t.(data := s.data), out, c', s.data[1..], all);
    assert s.acks + all == After(s, a).acks && t.acks + all == After(t, a).acks;
  }

  lemma TurnClient(k: Params, s: State, t: State, out: seq<nat>)
    requires Turn(k, s, t, out)
    ensures t.client == s.client
  {
    hide Handed;
  }

  lemma TurnBehind(k: Params, s: State, t: State, out: seq<nat>, extra: seq<Option<nat>>)
    requires Turn(k, s, t.(data := s.data), out) && s.data != [] && t.data == s.data + extra
    ensures Behind(t).data == Behind(s).data + extra
    ensures Turn(k, Behind(s), Behind(t).(data := Behind(s).data), out)
  {
    hide Turn;
    TurnElsewhere(k, s, t.(data := s.data), out, s.client, s.data[1..], []);
    TurnClient(k, s, t.(data := s.data), out);
    assert s.acks + [] == s.acks && t.acks + [] == t.acks;
  }

  lemma SuffersMore<T>(ch: seq<Option<T>>, ch': seq<Option<T>>, more: seq<Option<T>>)
    requires Suffers(ch, ch')
    ensures Suffers(ch + more, ch' + more)
  {
    var i :| 0 <= i < |ch| && (ch' == ch[..i] + ch[i + 1..] || ch' == ch[..i] + [None] + ch[i + 1..]);
    var all := ch + more;
    assert all[..i] == ch[..i] && all[i + 1..] == ch[i + 1..] + more;
    if ch' == ch[..i] + ch[i + 1..] {
      assert ch' + more == all[..i] + all[i + 1..];
    } else {
      assert ch' + more == all[..i] + [None] + all[i + 1..];
    }
  }

  // An acknowledgement is lost, or damaged where that may happen.
  lemma {:induction false} MaySuffer(k: Params, g: Goal, s: State, t: State)
    requires Inv(k, s) && t == s.(acks := t.acks) && Hurts(k, s.acks, t.acks)
    ensures Inv(k, t)
    ensures May(k, g, t) ==> May(k, g, s)
    decreases |s.data|
  {
    hide Holds, Woken, Arrive, Suffers, Loses, ClientInv, AcksInv, DataInv, CursorsInv, LoopInv;
    SufferKeepsInv(k, s, t);
    if s.data == [] {
      if May(k, g, t) {
        QuietSuffers(k, g, s, t);
      }
    } else {
      MayOf(k, g, s);
      MayOf(k, g, t);
      MaySuffer(k, g, Behind(s), Behind(t));
      SufferAfter(k, s, t, None);
      MaySuffer(k, g, After(s, None), After(t, None));
      SufferAfter(k, s, t, s.data[0]);
      MaySuffer(k, g, After(s, s.data[0]), After(t, s.data[0]));
    }
  }

  lemma SufferAfter(k: Params, s: State, t: State, a: Option<nat>)
    requires ClientInv(s.client) && s.data != [] && t == s.(acks := t.acks) && Hurts(k, s.acks, t.acks)
    ensures After(t, a) == After(s, a).(acks := After(t, a).acks) && Hurts(k, After(s, a).acks, After(t, a).acks)
  {
    hide Hurts, Woken, Arrive;
    var more := Verifying(Woken(s.client).1);
    HurtsMore(k, s.acks, t.acks, more);
    HurtsMore(k, s.acks + more, t.acks + more, Verifying(Arrive(Woken(s.client).0, a).1));
  }

  // Of the acknowledgements that the client sends, some come onto the channel.
  lemma {:induction false} MayHanded(k: Params, g: Goal, s: State, ch: seq<Option<Ack>>, out: seq<Ack>, t: State)
    requires Inv(k, s) && s.acks == ch + Verifying(out) && t == s.(acks := t.acks) && Handed(ch, t.acks, out)
    requires Unspoilt(k, t)
    ensures Inv(k, t)
    ensures May(k, g, t) ==> May(k, g, s)
    decreases |out|
  {
    hide Inv, May, Hurts;
    if out == [] {
      assert s.acks == ch;
      assert t == s;
    } else {
      var more := Verifying(out[1..]);
      assert s.acks == ch + [Some(out[0])] + more;
      OneHurts(k, ch, Some(out[0]), more);
      if Handed(ch + [Some(out[0])], t.acks, out[1..]) {
        MayHanded(k, g, s, ch + [Some(out[0])], out[1..], t);
      } else if Handed(ch, t.acks, out[1..]) {
        var s' := s.(acks := ch + more);
        MaySuffer(k, g, s, s');
        MayHanded(k, g, s', ch, out[1..], t);
      } else {
        HandedKeeps(ch + [None], t.acks, out[1..]);
        assert t.acks[|ch|] == None;
        var s' := s.(acks := ch + [None] + more);
        MaySuffer(k, g, s, s');
        MayHanded(k, g, s', ch + [None], out[1..], t);
      }
    }
  }

  lemma {:induction false} HandedKeeps<T>(ch: seq<Option<T>>, ch': seq<Option<T>>, out: seq<T>)
    requires Handed(ch, ch', out)
    ensures ch <= ch'
    decreases |out|
  {
    if out != [] {
      if Handed(ch, ch', out[1..]) {
        HandedKeeps(ch, ch', out[1..]);
      } else if Handed(ch + [Some(out[0])], ch', out[1..]) {
        HandedKeeps(ch + [Some(out[0])], ch', out[1..]);
      } else {
        HandedKeeps(ch + [None], ch', out[1..]);
      }
    }
  }

  lemma OneHurts(k: Params, ch: seq<Option<Ack>>, a: Option<Ack>, more: seq<Option<Ack>>)
    ensures Hurts(k, ch + [a] + more, ch + more)
    ensures k.noisy ==> Hurts(k, ch + [a] + more, ch + [None] + more)
  {
    var all, i := ch + [a] + more, |ch|;
    assert all[..i] == ch && all[i + 1..] == more;
  }

  lemma ReceiveRevivesNothing(k: Params, g: Goal, s: State, s': State)
    requires Inv(k, s) && ClientReceive(s, s') && Inv(k, s') && Unspoilt(k, s') && May(k, g, s')
    ensures May(k, g, s)
  {
    hide Inv, Handed, May, Arrive;
    MayOf(k, g, s);
    Awake(Behind(s));
    MayHanded(k, g, After(s, s.data[0]), s.acks, Arrive(s.client, s.data[0]).1, s');
  }

  lemma {:induction false} MayFlush(k: Params, g: Goal, s: State)
    requires Inv(k, s) && s.client.mode == R.Flushing && s.data != [] && Counts(g, s)
    ensures Inv(k, Flushed(s)) && (May(k, g, Flushed(s)) ==> May(k, g, s))
    decreases |s.data|
  {
    hide Holds, Woken, Arrive, Flush;
    WakeFlushed(k, s);
    MayOf(k, g, s);
    var f := Flushed(s);
    MayOf(k, g, f);
    if |s.data| == 1 {
      WakeFlushed(k, Behind(s));
      if May(k, g, Behind(f)) {
        QuietWakes(k, g, Behind(f));
        NoneTaken(Behind(s));
      }
    } else {
      MayFlush(k, g, Behind(s));
    }
    WakeFlushed(k, Behind(s));
    assert Behind(f) == Flushed(Behind(s));
  }

  // A packet on its way to the client is lost or damaged.
  lemma {:induction false} MayLack(k: Params, g: Goal, s: State, t: State)
    requires Inv(k, s) && t == s.(data := t.data) && Suffers(s.data, t.data)
    ensures Inv(k, t)
    ensures May(k, g, t) ==> May(k, g, s)
    decreases |s.data|
  {
    hide Inv, Holds, Taken;
    SufferKeepsInv(k, s, t);
    MayOf(k, g, s);
    var i :| 0 <= i < |s.data|
      && (t.data == s.data[..i] + s.data[i + 1..] || t.data == s.data[..i] + [None] + s.data[i + 1..]);
    if i == 0 {
      if t.data == s.data[..0] + s.data[1..] {
        assert t == Behind(s);
      } else {
        MayOf(k, g, t);
        assert t.data[1..] == s.data[1..];
        assert Behind(t) == Behind(s) && After(t, None) == After(s, None);
      }
    } else {
      MayOf(k, g, t);
      LackBehind(s.data, t.data, i);
      MayLack(k, g, Behind(s), Behind(t));
      LackAfter(s, t, None);
      MayLack(k, g, After(s, None), After(t, None));
      LackAfter(s, t, s.data[0]);
      MayLack(k, g, After(s, s.data[0]), After(t, s.data[0]));
    }
  }

  lemma LackBehind<T>(ch: seq<Option<T>>, ch': seq<Option<T>>, i: nat)
    requires 0 < i < |ch| && (ch' == ch[..i] + ch[i + 1..] || ch' == ch[..i] + [None] + ch[i + 1..])
    ensures ch' != [] && ch'[0] == ch[0] && Suffers(ch[1..], ch'[1..])
  {
    var b, j := ch[1..], i - 1;
    assert b[..j] == ch[1..i] && b[j + 1..] == ch[i + 1..];
    if ch' == ch[..i] + ch[i + 1..] {
      assert ch'[1..] == b[..j] + b[j + 1..];
    } else {
      assert ch'[1..] == b[..j] + [None] + b[j + 1..];
    }
  }

  lemma LackAfter(s: State, t: State, a: Option<nat>)
    requires ClientInv(s.client) && s.data != [] && t.data != [] && t == s.(data := t.data)
    ensures After(t, a) == After(s, a).(data := t.data[1..])
    ensures After(s, a).data == s.data[1..]
  {
    hide Woken, Arrive;
  }

  // ---------------------------------------------------------------------------
  // Every step.
  // ---------------------------------------------------------------------------

  lemma ServerRevivesNothing(k: Params, g: Goal, s: State, s': State)
    requires Inv(k, s) && Inv(k, s') && Counts(g, s) && May(k, g, s')
    requires SendNew(k, s, s') || SendStale(k, s, s') || Timeout(s, s') || GoOn(k, s, s') || ServerAck(s, s')
    ensures May(k, g, s)
  {
    hide Inv, May;
    var out := Outgoing(k, s, s');
    HandedNone(s.data, out);
    HandedOne(s.data, s'.data, out);
    assert Turn(k, s, s'.(data := s.data), out);
    if s'.data == s.data {
      assert s.data + [] == s.data;
      MayTurn(k, g, s, s', out, []);
    } else if s'.data == s.data + [None] {
      MayTurn(k, g, s, s', out, [None]);
    } else {
      MayTurn(k, g, s, s', out, [Some(out[0])]);
    }
  }

  function Outgoing(k: Params, s: State, s': State): seq<nat> {
    if SendNew(k, s, s') then [s.current]
    else if SendStale(k, s, s') then if s.current > 0 then [s.current - 1] else []
    else if Timeout(s, s') then [s.lowest]
    else if ServerAck(s, s') then Answer(s, s.acks[0])
    else []
  }

  lemma FlushRevivesNothing(k: Params, g: Goal, s: State, s': State)
    requires Inv(k, s) && Inv(k, s') && ClientFlush(s, s') && Unspoilt(k, s') && Counts(g, s) && May(k, g, s')
    ensures May(k, g, s)
  {
    hide Inv, May, Flush, Handed;
    MayFlush(k, g, s);
    MayHanded(k, g, Flushed(s), s.acks, Flush(s.client).1, s');
  }

  lemma SuffersUnspoilt(k: Params, s: State, t: State)
    requires Suffers(s.acks, t.acks) && Unspoilt(k, t)
    ensures Hurts(k, s.acks, t.acks)
  {
    var i :| 0 <= i < |s.acks|
      && (t.acks == s.acks[..i] + s.acks[i + 1..] || t.acks == s.acks[..i] + [None] + s.acks[i + 1..]);
    if t.acks != s.acks[..i] + s.acks[i + 1..] {
      assert t.acks[i] == None;
    }
  }

  lemma StepRevivesNothing(k: Params, g: Goal, s: State, s': State)
    requires Inv(k, s) && Next(k, s, s') && Unspoilt(k, s') && Counts(g, s)
    ensures Inv(k, s')
    ensures May(k, g, s') ==> May(k, g, s)
  {
    hide Inv, May, SendNew, SendStale, Timeout, GoOn, ServerAck, ClientReceive, ClientFlush;
    NextKeepsInv(k, s, s');
    if May(k, g, s') {
      if ClientReceive(s, s') {
        ReceiveRevivesNothing(k, g, s, s');
      } else if ClientFlush(s, s') {
        FlushRevivesNothing(k, g, s, s');
      } else if s' == s.(data := s'.data) && Suffers(s.data, s'.data) {
        MayLack(k, g, s, s');
      } else if s' == s.(acks := s'.acks) && Suffers(s.acks, s'.acks) {
        SuffersUnspoilt(k, s, s');
        MaySuffer(k, g, s, s');
      } else {
        ServerRevivesNothing(k, g, s, s');
      }
    }
  }

  lemma {:induction false} CompleteIsAlive(k: Params, s: State)
    requires Inv(k, s) && s.client.expected == k.total
    ensures Alive(k, s)
    decreases |s.data|
  {
    hide Inv, EndAlive, MiddleAlive, Enough;
    if s.data != [] {
      MayOf(k, Complete, s);
      CompleteIsAlive(k, Behind(s));
    }
  }

  lemma NeverRevived(k: Params, s: State, s': State)
    requires Inv(k, s) && Next(k, s, s') && Unspoilt(k, s') && !Alive(k, s)
    ensures Inv(k, s') && !Alive(k, s')
  {
    hide Inv, May, Next;
    StepRevivesNothing(k, Complete, s, s');
  }

  // Beyond so many chunks is where a client with more of them is.
  lemma {:induction false} MayBeyond(k: Params, n: nat, s: State)
    requires Inv(k, s) && s.client.expected > n
    ensures May(k, Beyond(n), s)
    decreases |s.data|
  {
    hide Inv, QuietMoves;
    if s.data != [] {
      MayOf(k, Beyond(n), s);
      MayBeyond(k, n, Behind(s));
    }
  }

  lemma NeverMoves(k: Params, s: State, s': State)
    requires Inv(k, s) && Next(k, s, s') && Unspoilt(k, s') && !Moves(k, s)
    ensures Inv(k, s') && !Moves(k, s') && s'.client.expected == s.client.expected
  {
    hide Inv, May, Next;
    NextKeepsInv(k, s, s');
    StepRevivesNothing(k, Beyond(s.client.expected), s, s');
    if s'.client.expected > s.client.expected {
      MayBeyond(k, s.client.expected, s');
    }
  }
}
