// server.c: the loop of serverWindowControl, which decides when the server sends, resends,
// polls and reads.  A poll that times out is taken for one.
module ServerLoop {
  import opened Bytes
  import opened Pdu
  import S = Server
  import WB = WindowBuffer

  const RESENDS := 10

  // Where the loop is: at its head, at the polls after a send, or at the polls of a closed
  // window with so many resends made since the last packet was read.
  datatype At = Top | Draining | Waiting(count: nat)

  // eof is what feof answers.
  datatype Loop = Loop(server: S.Server, eof: bool, at: At) {
    predicate Valid() { server.Valid() }

    predicate Closed() { server.window.IsClosed() }
  }

  datatype Turn = Send | Resend | Handle(packet: Packet) | Proceed

  // What one turn leaves, and gives to sendtoErr.
  datatype Step = Step(next: Loop, sent: seq<seq<byte>>)

  predicate Allowed(l: Loop, t: Turn) {
    match t
    case Send => l.at.Top? && !l.eof && !l.Closed()
    case Resend => l.at.Waiting? && l.at.count < RESENDS
    case Handle(_) => !l.at.Top?
    case Proceed => l.at.Draining? || (l.at.Top? && !l.eof && l.Closed())
  }

  // feof holds after a short read; a packet read at a closed window leads back to the head.
  function Take(h: Endian, file: seq<byte>, chunk: nat, l: Loop, t: Turn): (r: Step)
    requires l.Valid() && chunk <= S.MAX_PAYLOAD && Allowed(l, t)
    ensures r.next.Valid()
  {
    match t
    case Send =>
      var st := S.SendNext(h, file, chunk, l.server);
      Step(Loop(st.next, |S.Read(file, l.server.pos, chunk)| < chunk, Draining), st.sent)
    case Resend =>
      var st := S.ResendLowest(l.server);
      Step(Loop(st.next, l.eof, Waiting(l.at.count + 1)), st.sent)
    case Handle(p) =>
      var st := S.ProcessAck(h, l.server, p);
      Step(Loop(st.next, l.eof, if l.at.Draining? then Draining else Top), st.sent)
    case Proceed => Step(l.(at := if l.Closed() then Waiting(0) else Top), [])
  }

  // ---------------------------------------------------------------------------
  // The loop itself, on given poll results and arriving packets.
  // ---------------------------------------------------------------------------

  // pollCall: a result that is not given is a timeout.
  predicate Ready(polls: seq<bool>, i: nat) {
    i < |polls| && polls[i]
  }

  // The loop with the number of polls made and of packets read, and what was sent.
  datatype Machine = Machine(loop: Loop, polled: nat, read: nat, sent: seq<seq<byte>>)

  // The turn that the code takes.  None: the loop has ended, or recvfrom blocks.
  function Decide(polls: seq<bool>, inbox: seq<Packet>, m: Machine): (t: Option<Turn>)
    requires m.read <= |inbox|
    ensures t.Some? ==> Allowed(m.loop, t.value)
    ensures t.None? <==> if m.loop.at.Top? then m.loop.eof
                         else
                           && m.read == |inbox|
                           && ((m.polled < |polls| && polls[m.polled]) || (m.loop.at.Waiting? && m.loop.at.count >= 10))
    ensures t == Some(Resend) <==>
      m.loop.at.Waiting? && m.loop.at.count < 10 && (m.polled >= |polls| || !polls[m.polled])
    ensures t.Some? && t.value.Handle? ==> m.read < |inbox| && t.value.packet == inbox[m.read]
  {
    var ready := Ready(polls, m.polled);
    var next := if m.read < |inbox| then Some(Handle(inbox[m.read])) else None;
    match m.loop.at
    case Top => if m.loop.eof then None else if m.loop.Closed() then Some(Proceed) else Some(Send)
    case Draining => if ready then next else Some(Proceed)
    case Waiting(count) => if !ready && count < RESENDS then Some(Resend) else next
  }

  // Everywhere but at the head of the loop a turn takes one poll.
  function Tick(h: Endian, file: seq<byte>, chunk: nat, m: Machine, t: Turn): (r: Machine)
    requires m.loop.Valid() && chunk <= S.MAX_PAYLOAD && Allowed(m.loop, t)
    ensures r.loop.Valid()
  {
    var st := Take(h, file, chunk, m.loop, t);
    Machine(st.next, if m.loop.at.Top? then m.polled else m.polled + 1, if t.Handle? then m.read + 1 else m.read,
            m.sent + st.sent)
  }

  function Left(file: seq<byte>, inbox: seq<Packet>, m: Machine): nat
    requires m.read <= |inbox| && m.loop.server.pos <= |file|
  {
    |inbox| - m.read + |file| - m.loop.server.pos + if m.loop.eof then 0 else 1
  }

  function Rank(at: At): nat {
    match at
    case Draining => RESENDS + 2
    case Top => RESENDS + 1
    case Waiting(count) => if count < RESENDS then RESENDS - count else 0
  }

  lemma TickComesCloser(h: Endian, file: seq<byte>, chunk: nat, polls: seq<bool>, inbox: seq<Packet>, m: Machine)
    requires m.loop.Valid() && 0 < chunk <= S.MAX_PAYLOAD && m.read <= |inbox| && m.loop.server.pos <= |file|
    requires Decide(polls, inbox, m).Some?
    ensures var n := Tick(h, file, chunk, m, Decide(polls, inbox, m).value);
      && n.read <= |inbox| && n.loop.server.pos <= |file|
      && Left(file, inbox, n) <= Left(file, inbox, m)
      && (Left(file, inbox, n) == Left(file, inbox, m) ==> Rank(n.loop.at) < Rank(m.loop.at))
  {
  }

  // The loop run until it ends or blocks.
  function Exec(h: Endian, file: seq<byte>, chunk: nat, polls: seq<bool>, inbox: seq<Packet>, m: Machine): Machine
    requires m.loop.Valid() && 0 < chunk <= S.MAX_PAYLOAD && m.read <= |inbox| && m.loop.server.pos <= |file|
    decreases Left(file, inbox, m), Rank(m.loop.at)
  {
    match Decide(polls, inbox, m)
    case None => m
    case Some(t) =>
      TickComesCloser(h, file, chunk, polls, inbox, m);
      Exec(h, file, chunk, polls, inbox, Tick(h, file, chunk, m, t))
  }

  ghost function Now(server: S.ServerControl, eof: bool, at: At, polled: nat, read: nat, sent: seq<seq<byte>>): Machine
    requires server.Valid()
    reads server, server.window, server.window.slots, server.pdu, server.dest
  {
    Machine(Loop(server.View(), eof, at), polled, read, sent)
  }

  ghost predicate Sound(server: S.ServerControl, inbox: seq<Packet>, read: nat)
    reads server
  {
    server.Valid() && server.chunk > 0 && server.pos <= |server.file| && read <= |inbox|
  }

  // The server is where the loop from m0 has come to, with these locals.
  ghost predicate Follows(server: S.ServerControl, polls: seq<bool>, inbox: seq<Packet>, m0: Machine,
                          eof: bool, at: At, polled: nat, read: nat, sent: seq<seq<byte>>)
    reads server, server.window, server.window.slots, server.pdu, server.dest
  {
    && Sound(server, inbox, read)
    && m0.loop.Valid() && m0.read <= |inbox| && m0.loop.server.pos <= |server.file|
    && Exec(server.h, server.file, server.chunk, polls, inbox, Now(server, eof, at, polled, read, sent)) ==
       Exec(server.h, server.file, server.chunk, polls, inbox, m0)
  }

  // at and eof are where the loop stopped: at its head, with the whole file read, or at a
  // read for which there is no packet.
  method ServerWindowControl(server: S.ServerControl, polls: seq<bool>, inbox: seq<Packet>)
    returns (sent: seq<seq<byte>>, eof: bool, at: At, polled: nat, read: nat)
    requires server.Valid() && server.chunk > 0 && server.pos <= |server.file|
    modifies server, server.window, server.window.slots, server.pdu, server.dest
    ensures Sound(server, inbox, read)
    ensures Now(server, eof, at, polled, read, sent) ==
      Exec(server.h, server.file, server.chunk, polls, inbox, old(Now(server, false, Top, 0, 0, [])))
    ensures if at.Top? then eof && server.pos == |server.file| else read == |inbox|
  {
    hide Take, Ready, Follows, Exec, Decide;
    ghost var m0 := Now(server, false, Top, 0, 0, []);
    sent, eof, at, polled, read := [], false, Top, 0, 0;
    Begins(server, polls, inbox);
    while !eof
      invariant Follows(server, polls, inbox, m0, eof, at, polled, read, sent)
      invariant server.Valid() && at == Top && server.pos <= |server.file| && read <= |inbox|
      invariant eof ==> server.pos == |server.file|
      decreases |inbox| - read + |server.file| - server.pos, !eof
    {
      ghost var read0 := read;
      var out;
      var closed := server.window.current == server.window.highest;
      if !closed {
        out, eof := SendChunk(server, polls, inbox, m0, polled, read, sent);
        sent, at := sent + out, Draining;
        ghost var pos := server.pos;
        while Ready(polls, polled)
          invariant Follows(server, polls, inbox, m0, eof, at, polled, read, sent)
          invariant server.Valid() && server.pos == pos && read0 <= read <= |inbox|
          decreases |inbox| - read
        {
          if read == |inbox| {
            Stops(server, polls, inbox, m0, eof, at, polled, read, sent);
            return;
          }
          out := HandleNext(server, polls, inbox, m0, eof, at, polled, read, sent);
          sent, polled, read := sent + out, polled + 1, read + 1;
        }
        Proceeds(server, polls, inbox, m0, eof, at, polled, read, sent);
        polled := polled + 1;
      } else {
        Proceeds(server, polls, inbox, m0, eof, at, polled, read, sent);
      }
      closed := server.window.current == server.window.highest;
      at := if closed then Waiting(0) else Top;
      if closed {
        ghost var pos := server.pos;
        while !Ready(polls, polled) && at.count < RESENDS
          invariant Follows(server, polls, inbox, m0, eof, at, polled, read, sent)
          invariant server.Valid() && server.pos == pos && at.Waiting? && at.count <= RESENDS
          decreases RESENDS - at.count
        {
          out := Resent(server, polls, inbox, m0, eof, at, polled, read, sent);
          sent, at, polled := sent + out, Waiting(at.count + 1), polled + 1;
        }
        if read == |inbox| {
          Stops(server, polls, inbox, m0, eof, at, polled, read, sent);
          return;
        }
        out := HandleNext(server, polls, inbox, m0, eof, at, polled, read, sent);
        sent, at, polled, read := sent + out, Top, polled + 1, read + 1;
      }
    }
    Stops(server, polls, inbox, m0, eof, at, polled, read, sent);
  }

  // One unfolding of Exec.
  lemma ExecOnce(h: Endian, file: seq<byte>, chunk: nat, polls: seq<bool>, inbox: seq<Packet>, m: Machine, t: Turn)
    requires m.loop.Valid() && 0 < chunk <= S.MAX_PAYLOAD && m.read <= |inbox| && m.loop.server.pos <= |file|
    requires Decide(polls, inbox, m) == Some(t)
    ensures var n := Tick(h, file, chunk, m, t);
      && n.read <= |inbox| && n.loop.server.pos <= |file|
      && Exec(h, file, chunk, polls, inbox, n) == Exec(h, file, chunk, polls, inbox, m)
  {
    hide Take, Left, Rank;
    TickComesCloser(h, file, chunk, polls, inbox, m);
  }

  lemma Begins(server: S.ServerControl, polls: seq<bool>, inbox: seq<Packet>)
    requires Sound(server, inbox, 0)
    ensures Follows(server, polls, inbox, Now(server, false, Top, 0, 0, []), false, Top, 0, 0, [])
  {
    hide Exec;
  }

  lemma Stops(server: S.ServerControl, polls: seq<bool>, inbox: seq<Packet>, m0: Machine,
              eof: bool, at: At, polled: nat, read: nat, sent: seq<seq<byte>>)
    requires Follows(server, polls, inbox, m0, eof, at, polled, read, sent)
    requires if at.Top? then eof
             else read == |inbox| && (Ready(polls, polled) || (at.Waiting? && at.count >= RESENDS))
    ensures Sound(server, inbox, read) && m0.loop.Valid() && m0.read <= |inbox| && m0.loop.server.pos <= |server.file|
    ensures Now(server, eof, at, polled, read, sent) == Exec(server.h, server.file, server.chunk, polls, inbox, m0)
  {
    hide Take, Left, Rank;
  }

  // readFromFile and its send; feof holds after a short read.
  method SendChunk(server: S.ServerControl, ghost polls: seq<bool>, ghost inbox: seq<Packet>, ghost m0: Machine,
                   ghost polled: nat, ghost read: nat, ghost sent: seq<seq<byte>>)
    returns (out: seq<seq<byte>>, eof: bool)
    requires Follows(server, polls, inbox, m0, false, Top, polled, read, sent) && !server.View().window.IsClosed()
    modifies server, server.window, server.window.slots, server.pdu
    ensures server.Valid() && Follows(server, polls, inbox, m0, eof, Draining, polled, read, sent + out)
    ensures if eof then server.pos == |server.file| else old(server.pos) < server.pos <= |server.file|
    ensures server.pos >= old(server.pos)
  {
    hide Exec, S.SendNext;
    ExecOnce(server.h, server.file, server.chunk, polls, inbox, Now(server, false, Top, polled, read, sent), Send);
    SendMoves(server);
    ghost var s := server.View();
    var n := server.pos;
    out := server.SendNextChunk();
    assert server.View().pos == s.pos + |S.Read(server.file, s.pos, server.chunk)|;
    eof := server.pos - n < server.chunk;
  }

  lemma SendMoves(server: S.ServerControl)
    requires server.Valid() && server.pos <= |server.file|
    ensures var s, data := server.View(), S.Read(server.file, server.pos, server.chunk);
      S.SendNext(server.h, server.file, server.chunk, s).next.pos == s.pos + |data|
      && (if |data| < server.chunk then s.pos + |data| == |server.file| else s.pos + |data| <= |server.file|)
  {
    hide WB.Store, Build;
  }

  method Resent(server: S.ServerControl, ghost polls: seq<bool>, ghost inbox: seq<Packet>, ghost m0: Machine,
                ghost eof: bool, ghost at: At, ghost polled: nat, ghost read: nat, ghost sent: seq<seq<byte>>)
    returns (out: seq<seq<byte>>)
    requires Follows(server, polls, inbox, m0, eof, at, polled, read, sent)
    requires at.Waiting? && at.count < RESENDS && !Ready(polls, polled)
    modifies server.dest
    ensures server.Valid()
    ensures Follows(server, polls, inbox, m0, eof, Waiting(at.count + 1), polled + 1, read, sent + out)
  {
    hide Exec, S.ResendLowest;
    ExecOnce(server.h, server.file, server.chunk, polls, inbox, Now(server, eof, at, polled, read, sent), Resend);
    out := server.ResendLowestPacket();
  }

  method HandleNext(server: S.ServerControl, ghost polls: seq<bool>, inbox: seq<Packet>, ghost m0: Machine,
                    ghost eof: bool, ghost at: At, ghost polled: nat, read: nat, ghost sent: seq<seq<byte>>)
    returns (out: seq<seq<byte>>)
    requires Follows(server, polls, inbox, m0, eof, at, polled, read, sent) && read < |inbox| && !at.Top?
    requires Ready(polls, polled) || (at.Waiting? && at.count == RESENDS)
    modifies server.window
    ensures server.Valid() && server.pos == old(server.pos)
    ensures Follows(server, polls, inbox, m0, eof, if at.Draining? then Draining else Top,
                    polled + 1, read + 1, sent + out)
  {
    hide Exec, S.ProcessAck;
    ExecOnce(server.h, server.file, server.chunk, polls, inbox, Now(server, eof, at, polled, read, sent),
             Handle(inbox[read]));
    var code;
    code, out := server.ProcessRRsAndSREJs(inbox[read]);
  }

  // The step from the polls after a send, or from the head of the loop, to a closed window's polls.
  lemma Proceeds(server: S.ServerControl, polls: seq<bool>, inbox: seq<Packet>, m0: Machine,
                 eof: bool, at: At, polled: nat, read: nat, sent: seq<seq<byte>>)
    requires Follows(server, polls, inbox, m0, eof, at, polled, read, sent) && !at.Waiting?
    requires if at.Top? then !eof && server.View().window.IsClosed() else !Ready(polls, polled)
    ensures server.Valid() && Follows(server, polls, inbox, m0, eof,
      if server.View().window.IsClosed() then Waiting(0) else Top, if at.Top? then polled else polled + 1, read, sent)
  {
    hide Exec;
    ExecOnce(server.h, server.file, server.chunk, polls, inbox, Now(server, eof, at, polled, read, sent), Proceed);
    assert sent + [] == sent;
  }

  // ---------------------------------------------------------------------------
  // Runs of turns.
  // ---------------------------------------------------------------------------

  predicate Legal(h: Endian, file: seq<byte>, chunk: nat, l: Loop, ts: seq<Turn>)
    requires l.Valid() && chunk <= S.MAX_PAYLOAD
    decreases |ts|
  {
    ts == [] || (Allowed(l, ts[0]) && Legal(h, file, chunk, Take(h, file, chunk, l, ts[0]).next, ts[1..]))
  }

  function Run(h: Endian, file: seq<byte>, chunk: nat, l: Loop, ts: seq<Turn>): (r: Step)
    requires l.Valid() && chunk <= S.MAX_PAYLOAD && Legal(h, file, chunk, l, ts)
    ensures r.next.Valid()
    decreases |ts|
  {
    if ts == [] then Step(l, [])
    else
      var st := Take(h, file, chunk, l, ts[0]);
      var rest := Run(h, file, chunk, st.next, ts[1..]);
      Step(rest.next, st.sent + rest.sent)
  }

  lemma {:induction false} RunSnoc(h: Endian, file: seq<byte>, chunk: nat, l: Loop, ts: seq<Turn>, t: Turn)
    requires l.Valid() && chunk <= S.MAX_PAYLOAD && Legal(h, file, chunk, l, ts)
    requires Allowed(Run(h, file, chunk, l, ts).next, t)
    ensures Legal(h, file, chunk, l, ts + [t])
    ensures var st, last := Run(h, file, chunk, l, ts), Take(h, file, chunk, Run(h, file, chunk, l, ts).next, t);
      Run(h, file, chunk, l, ts + [t]) == Step(last.next, st.sent + last.sent)
    decreases |ts|
  {
    hide Take, Allowed;
    if ts == [] {
      assert [] + [t] == [t] && [t][1..] == [];
    } else {
      var st := Take(h, file, chunk, l, ts[0]);
      assert (ts + [t])[1..] == ts[1..] + [t];
      RunSnoc(h, file, chunk, st.next, ts[1..], t);
    }
  }

  // The packets handled in a run.
  function Inputs(ts: seq<Turn>): seq<Packet> {
    if ts == [] then [] else (if ts[0].Handle? then [ts[0].packet] else []) + Inputs(ts[1..])
  }

  function Trace(h: Endian, file: seq<byte>, chunk: nat, polls: seq<bool>, inbox: seq<Packet>, m: Machine): seq<Turn>
    requires m.loop.Valid() && 0 < chunk <= S.MAX_PAYLOAD && m.read <= |inbox| && m.loop.server.pos <= |file|
    decreases Left(file, inbox, m), Rank(m.loop.at)
  {
    match Decide(polls, inbox, m)
    case None => []
    case Some(t) =>
      TickComesCloser(h, file, chunk, polls, inbox, m);
      [t] + Trace(h, file, chunk, polls, inbox, Tick(h, file, chunk, m, t))
  }

  // Every execution of the loop is a legal run of turns that handles the packets in order.
  lemma {:induction false} ExecIsRun(h: Endian, file: seq<byte>, chunk: nat, polls: seq<bool>, inbox: seq<Packet>,
                                     m: Machine)
    requires m.loop.Valid() && 0 < chunk <= S.MAX_PAYLOAD && m.read <= |inbox| && m.loop.server.pos <= |file|
    ensures var ts, n := Trace(h, file, chunk, polls, inbox, m), Exec(h, file, chunk, polls, inbox, m);
      && Legal(h, file, chunk, m.loop, ts) && m.read <= n.read <= |inbox|
      && n.loop == Run(h, file, chunk, m.loop, ts).next && n.sent == m.sent + Run(h, file, chunk, m.loop, ts).sent
      && Inputs(ts) == inbox[m.read..n.read]
    decreases Left(file, inbox, m), Rank(m.loop.at)
  {
    hide Take, Allowed, Left, Rank;
    match Decide(polls, inbox, m)
    case None =>
    case Some(t) =>
      TickComesCloser(h, file, chunk, polls, inbox, m);
      var n := Tick(h, file, chunk, m, t);
      ExecIsRun(h, file, chunk, polls, inbox, n);
      assert ([t] + Trace(h, file, chunk, polls, inbox, n))[1..] == Trace(h, file, chunk, polls, inbox, n);
  }

  // No more than ten resends in a row, in any legal run.
  lemma {:induction false} ResendsBounded(h: Endian, file: seq<byte>, chunk: nat, l: Loop, ts: seq<Turn>, n: nat)
    requires l.Valid() && chunk <= S.MAX_PAYLOAD && Legal(h, file, chunk, l, ts)
    requires n <= |ts| && forall j :: 0 <= j < n ==> ts[j].Resend?
    ensures n <= RESENDS && (n > 0 ==> l.at.Waiting? && l.at.count + n <= RESENDS)
    decreases |ts|
  {
    if n > 0 {
      var st := Take(h, file, chunk, l, ts[0]);
      forall j | 0 <= j < n - 1
        ensures ts[1..][j].Resend?
      {
        assert ts[1..][j] == ts[j + 1];
      }
      ResendsBounded(h, file, chunk, st.next, ts[1..], n - 1);
    }
  }

  lemma {:induction false} LegalFrom(h: Endian, file: seq<byte>, chunk: nat, l: Loop, ts: seq<Turn>, i: nat)
    returns (m: Loop)
    requires l.Valid() && chunk <= S.MAX_PAYLOAD && Legal(h, file, chunk, l, ts) && i <= |ts|
    ensures m.Valid() && Legal(h, file, chunk, m, ts[i..])
    decreases i
  {
    if i == 0 {
      m := l;
      assert ts[0..] == ts;
    } else {
      m := LegalFrom(h, file, chunk, Take(h, file, chunk, l, ts[0]).next, ts[1..], i - 1);
      assert ts[1..][i - 1..] == ts[i..];
    }
  }

  lemma NoElevenResends(h: Endian, file: seq<byte>, chunk: nat, l: Loop, ts: seq<Turn>, i: nat)
    requires l.Valid() && chunk <= S.MAX_PAYLOAD && Legal(h, file, chunk, l, ts) && i + 10 < |ts|
    ensures exists j :: i <= j <= i + 10 && !ts[j].Resend?
  {
    if forall j :: i <= j <= i + 10 ==> ts[j].Resend? {
      var m := LegalFrom(h, file, chunk, l, ts, i);
      ResendsBounded(h, file, chunk, m, ts[i..], 11);
    }
  }

  // ---------------------------------------------------------------------------
  // What the poll results mean.
  // ---------------------------------------------------------------------------

  // An execution starts with turns ts, which take so many polls and so many packets.
  ghost predicate BeginsWith(h: Endian, file: seq<byte>, chunk: nat, polls: seq<bool>, inbox: seq<Packet>, m: Machine,
                             ts: seq<Turn>, n: Machine)
    requires m.loop.Valid() && 0 < chunk <= S.MAX_PAYLOAD && m.read <= |inbox| && m.loop.server.pos <= |file|
  {
    && Legal(h, file, chunk, m.loop, ts)
    && n.loop == Run(h, file, chunk, m.loop, ts).next && n.sent == m.sent + Run(h, file, chunk, m.loop, ts).sent
    && n.read <= |inbox| && n.loop.server.pos <= |file|
    && Trace(h, file, chunk, polls, inbox, m) == ts + Trace(h, file, chunk, polls, inbox, n)
    && Exec(h, file, chunk, polls, inbox, m) == Exec(h, file, chunk, polls, inbox, n)
  }

  lemma BeginsOnce(h: Endian, file: seq<byte>, chunk: nat, polls: seq<bool>, inbox: seq<Packet>, m: Machine, t: Turn)
    requires m.loop.Valid() && 0 < chunk <= S.MAX_PAYLOAD && m.read <= |inbox| && m.loop.server.pos <= |file|
    requires Decide(polls, inbox, m) == Some(t)
    ensures BeginsWith(h, file, chunk, polls, inbox, m, [t], Tick(h, file, chunk, m, t))
  {
    hide Take, Allowed, Left, Rank, Legal, Run;
    TickComesCloser(h, file, chunk, polls, inbox, m);
    var st := Take(h, file, chunk, m.loop, t);
    RunNone(h, file, chunk, st.next);
    RunFirst(h, file, chunk, m.loop, [t]);
    assert [t][1..] == [] && st.sent + [] == st.sent;
  }

  lemma BeginsThen(h: Endian, file: seq<byte>, chunk: nat, polls: seq<bool>, inbox: seq<Packet>, m: Machine,
                   ts: seq<Turn>, n: Machine, us: seq<Turn>, o: Machine)
    requires m.loop.Valid() && 0 < chunk <= S.MAX_PAYLOAD && m.read <= |inbox| && m.loop.server.pos <= |file|
    requires BeginsWith(h, file, chunk, polls, inbox, m, ts, n) && BeginsWith(h, file, chunk, polls, inbox, n, us, o)
    ensures BeginsWith(h, file, chunk, polls, inbox, m, ts + us, o)
  {
    hide Take, Allowed, Trace, Exec, Legal, Run;
    RunJoins(h, file, chunk, m.loop, ts, us);
    var a, b := Run(h, file, chunk, m.loop, ts).sent, Run(h, file, chunk, n.loop, us).sent;
    assert m.sent + a + b == m.sent + (a + b);
    var rest := Trace(h, file, chunk, polls, inbox, o);
    assert ts + (us + rest) == ts + us + rest;
  }

  lemma {:induction false} RunJoins(h: Endian, file: seq<byte>, chunk: nat, l: Loop, ts: seq<Turn>, us: seq<Turn>)
    requires l.Valid() && chunk <= S.MAX_PAYLOAD && Legal(h, file, chunk, l, ts)
    requires Legal(h, file, chunk, Run(h, file, chunk, l, ts).next, us)
    ensures Legal(h, file, chunk, l, ts + us)
    ensures var a, b := Run(h, file, chunk, l, ts), Run(h, file, chunk, Run(h, file, chunk, l, ts).next, us);
      Run(h, file, chunk, l, ts + us) == Step(b.next, a.sent + b.sent)
    decreases |ts|
  {
    hide Take, Allowed, Loop.Valid, Legal, Run;
    RunNone(h, file, chunk, l);
    if ts == [] {
      assert [] + us == us;
    } else {
      LegalFirst(h, file, chunk, l, ts);
      var st := Take(h, file, chunk, l, ts[0]);
      assert (ts + us)[1..] == ts[1..] + us && (ts + us)[0] == ts[0];
      RunFirst(h, file, chunk, l, ts);
      RunFirst(h, file, chunk, l, ts + us);
      RunJoins(h, file, chunk, st.next, ts[1..], us);
      SentJoins(st.sent, Run(h, file, chunk, st.next, ts[1..]).sent,
                Run(h, file, chunk, Run(h, file, chunk, l, ts).next, us).sent);
    }
  }

  lemma SentJoins(a: seq<seq<byte>>, b: seq<seq<byte>>, c: seq<seq<byte>>)
    ensures a + b + c == a + (b + c)
  {
  }

  lemma RunNone(h: Endian, file: seq<byte>, chunk: nat, l: Loop)
    requires l.Valid() && chunk <= S.MAX_PAYLOAD
    ensures Legal(h, file, chunk, l, []) && Run(h, file, chunk, l, []) == Step(l, [])
  {
    hide Take;
  }

  lemma LegalFirst(h: Endian, file: seq<byte>, chunk: nat, l: Loop, ts: seq<Turn>)
    requires l.Valid() && chunk <= S.MAX_PAYLOAD && ts != [] && Legal(h, file, chunk, l, ts)
    ensures Allowed(l, ts[0])
  {
    hide Take, Allowed;
  }

  lemma RunFirst(h: Endian, file: seq<byte>, chunk: nat, l: Loop, ts: seq<Turn>)
    requires l.Valid() && chunk <= S.MAX_PAYLOAD && ts != [] && Allowed(l, ts[0])
    ensures var st := Take(h, file, chunk, l, ts[0]);
      && (Legal(h, file, chunk, l, ts) <==> Legal(h, file, chunk, st.next, ts[1..]))
      && (Legal(h, file, chunk, l, ts) ==>
            var rest := Run(h, file, chunk, st.next, ts[1..]);
            Run(h, file, chunk, l, ts) == Step(rest.next, st.sent + rest.sent))
  {
    hide Take, Allowed, Loop.Valid;
  }

  function ResendTurns(j: nat): (ts: seq<Turn>)
    ensures |ts| == j && forall i :: 0 <= i < j ==> ts[i] == Resend
  {
    seq(j, _ => Resend)
  }

  function HandleTurns(packets: seq<Packet>): (ts: seq<Turn>)
    ensures |ts| == |packets| && forall i :: 0 <= i < |packets| ==> ts[i] == Handle(packets[i])
  {
    seq(|packets|, i requires 0 <= i < |packets| => Handle(packets[i]))
  }

  // At a closed window each poll that finds nothing makes a resend, up to the tenth.
  lemma {:induction false} PollsResend(h: Endian, file: seq<byte>, chunk: nat, polls: seq<bool>, inbox: seq<Packet>,
                                       m: Machine, j: nat) returns (n: Machine)
    requires m.loop.Valid() && 0 < chunk <= S.MAX_PAYLOAD && m.read <= |inbox| && m.loop.server.pos <= |file|
    requires m.loop.at.Waiting? && m.loop.at.count + j <= 10
    requires forall i :: m.polled <= i < m.polled + j ==> i >= |polls| || !polls[i]
    ensures BeginsWith(h, file, chunk, polls, inbox, m, ResendTurns(j), n)
    ensures n.polled == m.polled + j && n.read == m.read && n.loop.at == Waiting(m.loop.at.count + j)
    ensures n.loop.eof == m.loop.eof
    decreases j
  {
    hide Take, Exec, Trace, BeginsWith;
    if j == 0 {
      BeginsStill(h, file, chunk, polls, inbox, m);
      n := m;
      assert ResendTurns(0) == [];
    } else {
      var a := Tick(h, file, chunk, m, Resend);
      BeginsOnce(h, file, chunk, polls, inbox, m, Resend);
      TickPlace(h, file, chunk, m, Resend);
      BeginsSound(h, file, chunk, polls, inbox, m, [Resend], a);
      n := PollsResend(h, file, chunk, polls, inbox, a, j - 1);
      BeginsThen(h, file, chunk, polls, inbox, m, [Resend], a, ResendTurns(j - 1), n);
      assert [Resend] + ResendTurns(j - 1) == ResendTurns(j);
    }
  }

  lemma BeginsStill(h: Endian, file: seq<byte>, chunk: nat, polls: seq<bool>, inbox: seq<Packet>, m: Machine)
    requires m.loop.Valid() && 0 < chunk <= S.MAX_PAYLOAD && m.read <= |inbox| && m.loop.server.pos <= |file|
    ensures BeginsWith(h, file, chunk, polls, inbox, m, [], m)
  {
    hide Take, Exec, Trace;
    assert m.sent + [] == m.sent;
  }

  lemma BeginsSound(h: Endian, file: seq<byte>, chunk: nat, polls: seq<bool>, inbox: seq<Packet>, m: Machine,
                    ts: seq<Turn>, n: Machine)
    requires m.loop.Valid() && 0 < chunk <= S.MAX_PAYLOAD && m.read <= |inbox| && m.loop.server.pos <= |file|
    requires BeginsWith(h, file, chunk, polls, inbox, m, ts, n)
    ensures n.loop.Valid() && n.read <= |inbox| && n.loop.server.pos <= |file|
  {
    hide Take, Exec, Trace;
  }

  lemma TickPlace(h: Endian, file: seq<byte>, chunk: nat, m: Machine, t: Turn)
    requires m.loop.Valid() && chunk <= S.MAX_PAYLOAD && Allowed(m.loop, t)
    ensures var n := Tick(h, file, chunk, m, t);
      && n.polled == (if m.loop.at.Top? then m.polled else m.polled + 1)
      && n.read == (if t.Handle? then m.read + 1 else m.read)
      && (t.Resend? ==> m.loop.at.Waiting? && n.loop.at == Waiting(m.loop.at.count + 1))
      && (t.Handle? ==> n.loop.at == if m.loop.at.Draining? then Draining else Top)
      && (t.Proceed? ==> n.loop.at == if m.loop.Closed() then Waiting(0) else Top)
      && (!t.Send? ==> n.loop.eof == m.loop.eof)
  {
    hide S.SendNext, S.ResendLowest, S.ProcessAck;
  }

  // A wait of a closed window: the polls that find nothing are resends, and the first one that
  // finds a packet, or the one after the tenth resend, is followed by a read.
  lemma WaitPolls(h: Endian, file: seq<byte>, chunk: nat, polls: seq<bool>, inbox: seq<Packet>, m: Machine, j: nat)
    returns (n: Machine)
    requires m.loop.Valid() && 0 < chunk <= S.MAX_PAYLOAD && m.read <= |inbox| && m.loop.server.pos <= |file|
    requires m.loop.at == Waiting(0) && j <= 10
    requires forall i :: m.polled <= i < m.polled + j ==> i >= |polls| || !polls[i]
    requires j == 10 || (m.polled + j < |polls| && polls[m.polled + j])
    ensures m.read < |inbox| ==>
      && BeginsWith(h, file, chunk, polls, inbox, m, ResendTurns(j) + [Handle(inbox[m.read])], n)
      && n.polled == m.polled + j + 1 && n.read == m.read + 1 && n.loop.at == Top && n.loop.eof == m.loop.eof
    ensures m.read == |inbox| ==>
      && Trace(h, file, chunk, polls, inbox, m) == ResendTurns(j)
      && Exec(h, file, chunk, polls, inbox, m).loop.at == Waiting(j)
  {
    hide Take, Exec, Trace, BeginsWith;
    var a := PollsResend(h, file, chunk, polls, inbox, m, j);
    BeginsSound(h, file, chunk, polls, inbox, m, ResendTurns(j), a);
    n := a;
    if m.read < |inbox| {
      var t := Handle(inbox[m.read]);
      n := Tick(h, file, chunk, a, t);
      BeginsOnce(h, file, chunk, polls, inbox, a, t);
      TickPlace(h, file, chunk, a, t);
      BeginsThen(h, file, chunk, polls, inbox, m, ResendTurns(j), a, [t], n);
    } else {
      BeginsStops(h, file, chunk, polls, inbox, m, ResendTurns(j), a);
    }
  }

  lemma BeginsStops(h: Endian, file: seq<byte>, chunk: nat, polls: seq<bool>, inbox: seq<Packet>, m: Machine,
                    ts: seq<Turn>, n: Machine)
    requires m.loop.Valid() && 0 < chunk <= S.MAX_PAYLOAD && m.read <= |inbox| && m.loop.server.pos <= |file|
    requires BeginsWith(h, file, chunk, polls, inbox, m, ts, n) && Decide(polls, inbox, n) == None
    ensures Trace(h, file, chunk, polls, inbox, m) == ts && Exec(h, file, chunk, polls, inbox, m) == n
  {
    hide Take, Decide;
    assert ts + [] == ts;
  }

  // After a send each poll that finds a packet is followed by a read.
  lemma {:induction false} PollsHandle(h: Endian, file: seq<byte>, chunk: nat, polls: seq<bool>, inbox: seq<Packet>,
                                       m: Machine, j: nat) returns (n: Machine)
    requires m.loop.Valid() && 0 < chunk <= S.MAX_PAYLOAD && m.read + j <= |inbox| && m.loop.server.pos <= |file|
    requires m.loop.at == Draining
    requires (j > 0 ==> m.polled + j <= |polls|) && forall i :: m.polled <= i < m.polled + j ==> polls[i]
    ensures BeginsWith(h, file, chunk, polls, inbox, m, HandleTurns(inbox[m.read..m.read + j]), n)
    ensures n.polled == m.polled + j && n.read == m.read + j && n.loop.at == Draining
    ensures n.loop.eof == m.loop.eof
    decreases j
  {
    hide Take, Exec, Trace, BeginsWith;
    if j == 0 {
      BeginsStill(h, file, chunk, polls, inbox, m);
      n := m;
      assert HandleTurns(inbox[m.read..m.read]) == [];
    } else {
      var t := Handle(inbox[m.read]);
      var a := Tick(h, file, chunk, m, t);
      BeginsOnce(h, file, chunk, polls, inbox, m, t);
      TickPlace(h, file, chunk, m, t);
      BeginsSound(h, file, chunk, polls, inbox, m, [t], a);
      n := PollsHandle(h, file, chunk, polls, inbox, a, j - 1);
      BeginsThen(h, file, chunk, polls, inbox, m, [t], a, HandleTurns(inbox[a.read..a.read + (j - 1)]), n);
      assert [t] + HandleTurns(inbox[a.read..a.read + (j - 1)]) == HandleTurns(inbox[m.read..m.read + j]);
    }
  }

  // The packets of the polls that find one are handled, up to the first that finds none; then
  // the loop goes on, to the wait if the window is closed.
  lemma DrainPolls(h: Endian, file: seq<byte>, chunk: nat, polls: seq<bool>, inbox: seq<Packet>, m: Machine, j: nat)
    returns (n: Machine)
    requires m.loop.Valid() && 0 < chunk <= S.MAX_PAYLOAD && m.read + j <= |inbox| && m.loop.server.pos <= |file|
    requires m.loop.at == Draining
    requires (j > 0 ==> m.polled + j <= |polls|) && forall i :: m.polled <= i < m.polled + j ==> polls[i]
    ensures m.polled + j >= |polls| || !polls[m.polled + j] ==>
      && BeginsWith(h, file, chunk, polls, inbox, m, HandleTurns(inbox[m.read..m.read + j]) + [Proceed], n)
      && n.polled == m.polled + j + 1 && n.read == m.read + j && n.loop.eof == m.loop.eof
      && n.loop.at == if n.loop.server.window.current == n.loop.server.window.highest then Waiting(0) else Top
    ensures m.polled + j < |polls| && polls[m.polled + j] && m.read + j == |inbox| ==>
      && Trace(h, file, chunk, polls, inbox, m) == HandleTurns(inbox[m.read..])
      && Exec(h, file, chunk, polls, inbox, m).loop.at == Draining
  {
    hide Take, Exec, Trace, BeginsWith;
    var a := PollsHandle(h, file, chunk, polls, inbox, m, j);
    var ts := HandleTurns(inbox[m.read..m.read + j]);
    BeginsSound(h, file, chunk, polls, inbox, m, ts, a);
    n := a;
    if m.polled + j >= |polls| || !polls[m.polled + j] {
      n := Tick(h, file, chunk, a, Proceed);
      BeginsOnce(h, file, chunk, polls, inbox, a, Proceed);
      TickPlace(h, file, chunk, a, Proceed);
      ProceedKeepsServer(h, file, chunk, a);
      BeginsThen(h, file, chunk, polls, inbox, m, ts, a, [Proceed], n);
    } else if m.read + j == |inbox| {
      BeginsStops(h, file, chunk, polls, inbox, m, ts, a);
      assert inbox[m.read..m.read + j] == inbox[m.read..];
    }
  }

  lemma ProceedKeepsServer(h: Endian, file: seq<byte>, chunk: nat, m: Machine)
    requires m.loop.Valid() && chunk <= S.MAX_PAYLOAD && Allowed(m.loop, Proceed)
    ensures Tick(h, file, chunk, m, Proceed).loop.server == m.loop.server
  {
  }

  // At its head the loop polls nothing: it stops at the end of the file, goes to the wait of
  // a closed window, and sends otherwise.
  lemma HeadPolls(h: Endian, file: seq<byte>, chunk: nat, polls: seq<bool>, inbox: seq<Packet>, m: Machine)
    returns (n: Machine)
    requires m.loop.Valid() && 0 < chunk <= S.MAX_PAYLOAD && m.read <= |inbox| && m.loop.server.pos <= |file|
    requires m.loop.at == Top
    ensures m.loop.eof ==> Trace(h, file, chunk, polls, inbox, m) == [] && Exec(h, file, chunk, polls, inbox, m) == m
    ensures !m.loop.eof ==>
      && n.polled == m.polled && n.read == m.read
      && if m.loop.server.window.current == m.loop.server.window.highest
         then BeginsWith(h, file, chunk, polls, inbox, m, [Proceed], n) && n.loop.at == Waiting(0)
         else
           && BeginsWith(h, file, chunk, polls, inbox, m, [Send], n) && n.loop.at == Draining
           && (n.loop.eof <==> |file| - m.loop.server.pos < chunk)
  {
    hide Exec, Trace, BeginsWith, S.SendNext;
    n := m;
    if m.loop.eof {
      BeginsStill(h, file, chunk, polls, inbox, m);
      BeginsStops(h, file, chunk, polls, inbox, m, [], m);
    } else {
      var t := if m.loop.server.window.current == m.loop.server.window.highest then Proceed else Send;
      n := Tick(h, file, chunk, m, t);
      BeginsOnce(h, file, chunk, polls, inbox, m, t);
      ReadIsShort(file, m.loop.server.pos, chunk);
    }
  }

  lemma ReadIsShort(file: seq<byte>, pos: nat, chunk: nat)
    requires pos <= |file|
    ensures |S.Read(file, pos, chunk)| < chunk <==> |file| - pos < chunk
  {
  }
}
