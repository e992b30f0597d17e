// The transfer protocol over packet numbers alone: the server's window cursors and the
// place its loop is at, the client's state machine, and two first-in first-out channels
// that lose and damage packets.  Bytes, slots and checksums are added in module EndToEnd,
// which refines this one.
module Protocol {
  import opened Bytes
  import opened Pdu
  import opened ServerLoop
  import R = Rcopy

  datatype Client = Client(mode: R.Mode, expected: nat, highest: nat, buffered: set<nat>)

  // data and acks are what is in flight; None is a packet that will not verify.
  datatype State = State(lowest: nat, current: nat, client: Client, data: seq<Option<nat>>, acks: seq<Option<Ack>>,
                         at: At, eof: bool)

  type pos = x: nat | x > 0 witness 1

  // How many chunks the file has, the window size, whether the last chunk is full, and
  // whether acknowledgements may be damaged.
  datatype Params = Params(total: nat, window: pos, even: bool, noisy: bool) {
    predicate Valid() { total == 0 ==> even }
  }

  function Init(): State {
    State(0, 0, Client(R.InOrder, 0, 0, {}), [], [], Top, false)
  }

  predicate Closed(k: Params, s: State) {
    s.current == s.lowest + k.window
  }

  // ---------------------------------------------------------------------------
  // Steps.
  // ---------------------------------------------------------------------------

  // Each packet of out in turn is lost, arrives on the channel, or does so damaged.
  predicate Handed<T(==)>(ch: seq<Option<T>>, ch': seq<Option<T>>, out: seq<T>)
    decreases |out|
  {
    if out == [] then ch' == ch
    else
      || Handed(ch, ch', out[1..])
      || Handed(ch + [Some(out[0])], ch', out[1..])
      || Handed(ch + [None], ch', out[1..])
  }

  // A packet in flight is lost or damaged.
  predicate Suffers<T(==)>(ch: seq<Option<T>>, ch': seq<Option<T>>) {
    exists i | 0 <= i < |ch| :: ch' == ch[..i] + ch[i + 1..] || ch' == ch[..i] + [None] + ch[i + 1..]
  }

  function Receive(c: Client, p: nat): (Client, seq<Ack>) {
    var e := c.expected;
    if p > e then
      (c.(mode := R.Buffering, highest := p, buffered := c.buffered + {p}),
       if c.mode == R.InOrder then [Srej(e)] else [])
    else if p == e then
      if c.mode == R.InOrder then (c.(highest := e, expected := e + 1), [Rr(e + 1)])
      else (c.(mode := R.Flushing, expected := e + 1), [])
    else (c, [Rr(e)])
  }

  // What does not verify is read and ignored.
  function Arrive(c: Client, t: Option<nat>): (Client, seq<Ack>) {
    match t
    case None => (c, [])
    case Some(p) => Receive(c, p)
  }

  function Flush(c: Client): (Client, seq<Ack>) {
    var e := c.expected;
    if e == c.highest then
      (c.(mode := R.InOrder, expected := e + 1, buffered := c.buffered - {e}), [Rr(e + 1)])
    else if e in c.buffered then (c.(expected := e + 1, buffered := c.buffered - {e}), [])
    else (c.(mode := R.Buffering), [Srej(e), Rr(e)])
  }

  // The end of the file is noticed with a last chunk that is not full.
  predicate SendNew(k: Params, s: State, s': State) {
    && s.at.Top? && !s.eof && s.current < k.total && s.current < s.lowest + k.window
    && s' == s.(current := s.current + 1, data := s'.data, at := Draining, eof := s.current + 1 == k.total && !k.even)
    && Handed(s.data, s'.data, [s.current])
  }

  // Otherwise by a read of no bytes, which sends the newest packet again.
  predicate SendStale(k: Params, s: State, s': State) {
    && s.at.Top? && !s.eof && s.current == k.total && s.current < s.lowest + k.window
    && s' == s.(data := s'.data, at := Draining, eof := true)
    && Handed<nat>(s.data, s'.data, if s.current > 0 then [s.current - 1] else [])
  }

  predicate Timeout(s: State, s': State) {
    && s.at.Waiting? && s.at.count < RESENDS
    && s' == s.(data := s'.data, at := Waiting(s.at.count + 1))
    && Handed(s.data, s'.data, [s.lowest])
  }

  // No packet is there after a send, or the loop comes back to a closed window.
  predicate GoOn(k: Params, s: State, s': State) {
    && (s.at.Draining? || (s.at.Top? && !s.eof && Closed(k, s)))
    && s' == s.(at := if Closed(k, s) then Waiting(0) else Top)
  }

  function AfterRead(at: At): At {
    if at.Draining? then Draining else Top
  }

  // What the server sends for an acknowledgement.
  function Answer(s: State, a: Option<Ack>): seq<nat> {
    match a
    case Some(Srej(n)) => if s.lowest <= n < s.current then [n] else []
    case _ => []
  }

  predicate ServerAck(s: State, s': State) {
    && !s.at.Top? && s.acks != []
    && s' == s.(lowest := Slid(s.lowest, s.acks[0]), acks := s.acks[1..], data := s'.data, at := AfterRead(s.at))
    && Handed(s.data, s'.data, Answer(s, s.acks[0]))
  }

  function Slid(lowest: nat, a: Option<Ack>): nat {
    match a
    case Some(Rr(n)) => n
    case _ => lowest
  }

  predicate ClientReceive(s: State, s': State) {
    && s.client.mode != R.Flushing && s.data != []
    && var (c, out) := Arrive(s.client, s.data[0]);
       && s' == s.(client := c, data := s.data[1..], acks := s'.acks)
       && Handed(s.acks, s'.acks, out)
  }

  // The client calls its machine only while a packet is ready; flushing reads none.
  predicate ClientFlush(s: State, s': State) {
    && s.client.mode == R.Flushing && s.data != []
    && var (c, out) := Flush(s.client);
       && s' == s.(client := c, acks := s'.acks)
       && Handed(s.acks, s'.acks, out)
  }

  predicate Suffer(s: State, s': State) {
    || (s' == s.(data := s'.data) && Suffers(s.data, s'.data))
    || (s' == s.(acks := s'.acks) && Suffers(s.acks, s'.acks))
  }

  predicate Next(k: Params, s: State, s': State) {
    || SendNew(k, s, s') || SendStale(k, s, s') || Timeout(s, s') || GoOn(k, s, s')
    || ServerAck(s, s') || ClientReceive(s, s') || ClientFlush(s, s') || Suffer(s, s')
  }

  // ---------------------------------------------------------------------------
  // The invariant.
  // ---------------------------------------------------------------------------

  // The state machine's own invariant.
  ghost predicate ClientInv(c: Client) {
    match c.mode
    case InOrder => c.buffered == {} && (c.expected == c.highest + 1 || c.expected == c.highest == 0)
    case Buffering =>
      && c.expected < c.highest && c.highest in c.buffered
      && forall q :: q in c.buffered ==> c.expected < q <= c.highest
    case Flushing =>
      && c.expected <= c.highest && c.highest in c.buffered
      && forall q :: q in c.buffered ==> c.expected <= q <= c.highest
  }

  lemma FlushKeepsClientInv(c: Client)
    requires ClientInv(c) && c.mode == R.Flushing
    ensures ClientInv(Flush(c).0)
    ensures Flush(c).0.mode == R.Flushing ==> Flush(c).0.expected == c.expected + 1 <= c.highest
  {
  }

  // The server's cursors and the client's agree.
  predicate CursorsInv(k: Params, s: State) {
    && s.lowest <= s.client.expected <= s.current <= s.lowest + k.window
    && s.current <= k.total
    && (s.client.mode != R.InOrder ==> s.client.highest < s.current)
    && (s.client.mode == R.Flushing ==> s.lowest < s.client.expected)
  }

  // Data in flight was sent; what is beyond expected is in increasing order and
  // not below the highest number the client has buffered.
  predicate DataInv(c: Client, current: nat, data: seq<Option<nat>>) {
    && (forall i :: 0 <= i < |data| && data[i].Some? ==> data[i].value < current)
    && (forall i, j :: 0 <= i < j < |data| && data[i].Some? && data[j].Some? ==>
          data[j].value <= c.expected || data[i].value <= data[j].value)
    && (c.mode != R.InOrder ==>
          forall i :: 0 <= i < |data| && data[i].Some? ==> data[i].value <= c.expected || data[i].value >= c.highest)
  }

  // An acknowledgement in flight lies between the window's start and expected, and below
  // expected while the client flushes.  A rejected number has been sent, and another one
  // after it; if it is the expected one, the client waits for it.
  predicate AckInv(s: State, a: Ack) {
    && s.lowest <= a.n <= s.client.expected && (s.client.mode == R.Flushing ==> a.n < s.client.expected)
    && (a.Srej? ==> a.n + 1 < s.current && (a.n == s.client.expected ==> s.client.mode == R.Buffering))
  }

  // They come in nondecreasing order, and no number is rejected twice.
  predicate InTurn(a: Ack, b: Ack) {
    a.n <= b.n && (a.Srej? && b.Srej? ==> a.n < b.n)
  }

  predicate AcksInv(s: State) {
    && (forall i :: 0 <= i < |s.acks| && s.acks[i].Some? ==> AckInv(s, s.acks[i].value))
    && (forall i, j :: 0 <= i < j < |s.acks| && s.acks[i].Some? && s.acks[j].Some? ==>
          InTurn(s.acks[i].value, s.acks[j].value))
  }

  // A closed window's polls find it closed; feof holds only when everything was read, and
  // at the latest after the read that follows a full last chunk.
  predicate LoopInv(k: Params, s: State) {
    && (s.at.Waiting? ==> Closed(k, s) && s.at.count <= RESENDS)
    && (s.eof ==> s.current == k.total)
    && (s.current == k.total && !s.eof ==> k.even)
  }

  ghost predicate Inv(k: Params, s: State) {
    && ClientInv(s.client) && CursorsInv(k, s) && LoopInv(k, s)
    && DataInv(s.client, s.current, s.data) && AcksInv(s)
  }

  // No cursor goes back.
  predicate Forward(s: State, s': State) {
    && s'.lowest >= s.lowest && s'.current >= s.current
    && s'.client.expected >= s.client.expected && s'.client.highest >= s.client.highest
  }

  lemma InitInv(k: Params)
    requires k.Valid()
    ensures Inv(k, Init())
  {
  }

  // ---------------------------------------------------------------------------
  // Channels.
  // ---------------------------------------------------------------------------

  lemma HandedOne<T>(ch: seq<Option<T>>, ch': seq<Option<T>>, out: seq<T>)
    requires |out| <= 1
    ensures Handed(ch, ch', out) <==> ch' == ch || (out != [] && (ch' == ch + [Some(out[0])] || ch' == ch + [None]))
  {
    if out != [] {
      assert out[1..] == [];
    }
  }

  lemma HandedOn<T>(ch: seq<Option<T>>, ch': seq<Option<T>>, out: seq<T>)
    requires Handed(ch, ch', out) && out != []
    ensures exists mid :: Handed(ch, mid, [out[0]]) && Handed(mid, ch', out[1..])
  {
    assert [out[0]][1..] == [];
    if Handed(ch, ch', out[1..]) {
      assert Handed(ch, ch, [out[0]]);
    } else if Handed(ch + [Some(out[0])], ch', out[1..]) {
      assert Handed(ch, ch + [Some(out[0])], [out[0]]);
    } else {
      assert Handed(ch, ch + [None], [out[0]]);
    }
  }

  // Sending p keeps the data invariant when p is newest, or at or below expected.
  lemma SendKeepsData(c: Client, current: nat, data: seq<Option<nat>>, p: nat, data': seq<Option<nat>>)
    requires DataInv(c, current, data) && Handed(data, data', [p])
    requires p < current && (p <= c.expected || (p + 1 == current && (c.mode != R.InOrder ==> c.highest <= p)))
    ensures DataInv(c, current, data')
  {
    HandedOne(data, data', [p]);
  }

  lemma MoreCurrent(c: Client, current: nat, data: seq<Option<nat>>)
    requires DataInv(c, current, data)
    ensures DataInv(c, current + 1, data)
  {
  }

  lemma SendsKeepInv(k: Params, s: State, s': State)
    requires Inv(k, s) && (SendNew(k, s, s') || SendStale(k, s, s') || Timeout(s, s'))
    ensures Inv(k, s') && Forward(s, s')
  {
    hide Handed;
    if SendNew(k, s, s') {
      MoreCurrent(s.client, s.current, s.data);
      SendKeepsData(s.client, s'.current, s.data, s.current, s'.data);
    } else if SendStale(k, s, s') {
      if s.current > 0 {
        SendKeepsData(s.client, s.current, s.data, s.current - 1, s'.data);
      } else {
        HandedOne<nat>(s.data, s'.data, []);
      }
    } else {
      SendKeepsData(s.client, s.current, s.data, s.lowest, s'.data);
    }
  }

  // Slides move forward and stay within what was sent; rejected numbers are outstanding.
  lemma AckIsAnswerable(k: Params, s: State)
    requires Inv(k, s) && s.acks != [] && s.acks[0].Some?
    ensures var a := s.acks[0].value;
      s.lowest <= a.n <= s.client.expected <= s.current <= a.n + k.window && (a.Srej? ==> a.n + 1 < s.current)
  {
  }

  lemma ServerAckKeepsInv(k: Params, s: State, s': State)
    requires Inv(k, s) && ServerAck(s, s')
    ensures Inv(k, s') && Forward(s, s')
  {
    hide Handed;
    assert forall i :: 0 <= i < |s'.acks| ==> s'.acks[i] == s.acks[i + 1];
    if Answer(s, s.acks[0]) != [] {
      SendKeepsData(s.client, s.current, s.data, s.acks[0].value.n, s'.data);
    } else {
      HandedOne(s.data, s'.data, Answer(s, s.acks[0]));
    }
  }

  // An arriving number beyond expected is within the window and not below highest.
  lemma ArrivalFits(k: Params, s: State)
    requires Inv(k, s) && s.data != [] && s.data[0].Some?
    ensures s.data[0].value < s.client.expected + k.window
    ensures s.client.mode == R.Buffering && s.data[0].value > s.client.expected ==> s.data[0].value >= s.client.highest
  {
  }

  // An acknowledgement of what is expected keeps the order, unless it is a second SREJ.
  lemma AckAppended(s: State, a: Ack, acks: seq<Option<Ack>>)
    requires AcksInv(s) && AckInv(s, a) && a.n == s.client.expected && Handed(s.acks, acks, [a])
    requires a.Srej? ==> Some(a) !in s.acks
    ensures AcksInv(s.(acks := acks))
  {
    HandedOne(s.acks, acks, [a]);
    forall i | 0 <= i < |s.acks| && s.acks[i].Some? && s.acks[i].value.Srej?
      ensures s.acks[i].value.n == a.n ==> s.acks[i] == Some(Srej(a.n))
    {
    }
  }

  lemma AcksAppended(s: State, out: seq<Ack>, acks: seq<Option<Ack>>)
    requires AcksInv(s) && Handed(s.acks, acks, out) && |out| <= 2
    requires forall a :: a in out ==> AckInv(s, a) && a.n == s.client.expected
    requires out != [] && out[0].Srej? ==> Some(out[0]) !in s.acks
    requires |out| == 2 ==> out[1].Rr?
    ensures AcksInv(s.(acks := acks))
  {
    if out == [] {
      HandedOne(s.acks, acks, out);
    } else {
      HandedOn(s.acks, acks, out);
      var mid :| Handed(s.acks, mid, [out[0]]) && Handed(mid, acks, out[1..]);
      AckAppended(s, out[0], mid);
      if |out| == 1 {
        HandedOne(mid, acks, out[1..]);
      } else {
        assert out[1..] == [out[1]];
        AckAppended(s.(acks := mid), out[1], acks);
      }
    }
  }

  lemma ReceiveKeepsInv(k: Params, s: State, s': State)
    requires Inv(k, s) && ClientReceive(s, s')
    ensures Inv(k, s') && Forward(s, s')
  {
    hide Handed;
    assert forall i :: 0 <= i < |s'.data| ==> s'.data[i] == s.data[i + 1];
    var (c, out) := Arrive(s.client, s.data[0]);
    NotRejected(s);
    AcksAppended(s.(client := c), out, s'.acks);
  }

  // An SREJ for the expected chunk is in flight only while the client waits for it.
  lemma NotRejected(s: State)
    requires AcksInv(s)
    ensures Some(Srej(s.client.expected)) in s.acks ==> s.client.mode == R.Buffering
  {
  }

  lemma FlushKeepsInv(k: Params, s: State, s': State)
    requires Inv(k, s) && ClientFlush(s, s')
    ensures Inv(k, s') && Forward(s, s')
  {
    hide Handed;
    var (c, out) := Flush(s.client);
    NotRejected(s);
    AcksAppended(s.(client := c), out, s'.acks);
  }

  // Where what is left of a channel was.
  lemma Suffered<T>(ch: seq<Option<T>>, ch': seq<Option<T>>) returns (i: nat)
    requires Suffers(ch, ch')
    ensures i < |ch| && (|ch'| == |ch| || |ch'| == |ch| - 1)
    ensures |ch'| == |ch| ==> forall j :: 0 <= j < |ch'| && ch'[j].Some? ==> ch'[j] == ch[j]
    ensures |ch'| < |ch| ==> forall j :: 0 <= j < |ch'| ==> ch'[j] == ch[if j < i then j else j + 1]
  {
    i :| 0 <= i < |ch| && (ch' == ch[..i] + ch[i + 1..] || ch' == ch[..i] + [None] + ch[i + 1..]);
  }

  lemma SufferKeepsData(c: Client, current: nat, data: seq<Option<nat>>, data': seq<Option<nat>>)
    requires DataInv(c, current, data) && Suffers(data, data')
    ensures DataInv(c, current, data')
  {
    hide Suffers;
    var i := Suffered(data, data');
  }

  lemma SufferKeepsAcks(s: State, s': State)
    requires AcksInv(s) && s' == s.(acks := s'.acks) && Suffers(s.acks, s'.acks)
    ensures AcksInv(s')
  {
    hide Suffers, InTurn;
    var i := Suffered(s.acks, s'.acks);
  }

  lemma SufferKeepsInv(k: Params, s: State, s': State)
    requires Inv(k, s) && Suffer(s, s')
    ensures Inv(k, s') && Forward(s, s')
  {
    hide Suffers;
    if s' == s.(data := s'.data) && Suffers(s.data, s'.data) {
      SufferKeepsData(s.client, s.current, s.data, s'.data);
    } else {
      SufferKeepsAcks(s, s');
    }
  }

  lemma GoOnKeepsInv(k: Params, s: State, s': State)
    requires Inv(k, s) && GoOn(k, s, s')
    ensures Inv(k, s') && Forward(s, s')
  {
  }

  lemma NextKeepsInv(k: Params, s: State, s': State)
    requires Inv(k, s) && Next(k, s, s')
    ensures Inv(k, s')
    ensures s'.client.highest >= s.client.highest && s'.client.expected >= s.client.expected
    ensures s'.lowest >= s.lowest && s'.current >= s.current
  {
    hide Inv, SendNew, SendStale, Timeout, GoOn, ServerAck, ClientReceive, ClientFlush, Suffer;
    if SendNew(k, s, s') || SendStale(k, s, s') || Timeout(s, s') {
      SendsKeepInv(k, s, s');
    } else if GoOn(k, s, s') {
      GoOnKeepsInv(k, s, s');
    } else if ServerAck(s, s') {
      ServerAckKeepsInv(k, s, s');
    } else if ClientReceive(s, s') {
      ReceiveKeepsInv(k, s, s');
    } else if ClientFlush(s, s') {
      FlushKeepsInv(k, s, s');
    } else {
      SufferKeepsInv(k, s, s');
    }
  }
}
