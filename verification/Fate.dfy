// Which states of the protocol can still move on, and which can still complete the
// transfer.  Both are told from the state alone, and a state that cannot never will.
module Fate {
  import opened Bytes
  import opened Pdu
  import opened ServerLoop
  import opened Protocol
  import opened Settled
  import R = Rcopy

  // ---------------------------------------------------------------------------
  // What a quiet state still needs.
  // ---------------------------------------------------------------------------

  // An SREJ is on its way that the server will answer with the first missing chunk, or with
  // an old one that wakes the client.
  ghost predicate Armed(s: State) {
    match s.client.mode
    case InOrder => false
    case Buffering => Asked(s)
    case Flushing => AnySrej(s) && Gap(s)
  }

  // The last chunk of the file.  Until the file has ended it needs no SREJ: a read of no bytes
  // sends it again.
  function Newest(k: Params): nat {
    if k.total > 0 then k.total - 1 else 0
  }

  // The first start of a window that the rest of the file does not fill again.
  function LastWindow(k: Params): int {
    k.total - k.window + if k.even then 1 else 0
  }

  // The sends that the server still makes by itself.
  function Sends(k: Params, s: State): int {
    if s.eof then 0 else k.total - s.current + if k.even then 1 else 0
  }

  // How many of them it takes when the window is not closed again before the end.  Behind the
  // answer to each SREJ one has to wake the client, and one more has to make it send the
  // first SREJ, unless one is answered before the next send.
  ghost function Need(k: Params, s: State): int {
    if Missing(s) == {} then
      if s.client.mode == R.Flushing && !(s.at.Draining? && AnySrej(s)) then 1 else 0
    else |Missing(s) - if s.eof then {} else {Newest(k)}| + if s.at.Draining? && Armed(s) then 0 else 1
  }

  // The timeouts at the end of the file will resend the only missing chunk.
  predicate OnlyLowest(k: Params, s: State) {
    Missing(s) == {s.lowest} && s.lowest + k.window == k.total
  }

  // A window that is closed at the end of the file gives one more packet.
  ghost predicate Enough(k: Params, s: State) {
    || OnlyLowest(k, s)
    || (!Unasked(s) && Need(k, s) <= Sends(k, s) + if s.lowest + k.window == k.total then 1 else 0)
  }

  // The last wait of a transfer: a packet for a client that has everything, or the lowest
  // chunk and, for one that waits in BUFFER, a packet behind it.
  ghost predicate LastWait(s: State, resends: nat) {
    || (Missing(s) == {} && (resends < RESENDS || AnySrej(s)))
    || (Missing(s) == {s.lowest} && resends < RESENDS
        && (s.client.mode == R.Buffering ==> resends + 1 < RESENDS || AnySrej(s)))
  }

  ghost predicate EndAlive(k: Params, s: State) {
    match s.at
    case Top => false
    case Waiting(resends) => LastWait(s, resends)
    case Draining => Enough(k, s)
  }

  // The server waits, or will wait, for a packet that nothing makes the client send.
  predicate Stranded(s: State) {
    && s.at.Waiting? && s.acks == []
    && (|| s.at.count == RESENDS
        || (s.at.count + 1 == RESENDS && s.client.mode == R.Buffering && s.lowest == s.client.expected))
  }

  // From here on, everything sent is missing.
  function Edge(s: State): nat {
    if s.client.mode != R.InOrder then s.client.highest + 1
    else if s.client.expected > s.lowest then s.client.expected else s.lowest + 1
  }

  predicate Inner(s: State, p: nat) {
    p in Missing(s) && s.lowest < p < Edge(s)
  }

  ghost predicate OneInner(s: State) {
    forall p, q :: Inner(s, p) && Inner(s, q) ==> p == q
  }

  // The window can come to start exactly at n with everything before the edge filled, or as
  // good as filled.  If n is missing it is the only one, and the SREJ for it can be answered
  // before an RR for it is read.  Otherwise that RR is on its way, and at most one chunk is
  // missing, whose SREJ is answered before the next send.
  ghost predicate LateSlide(s: State, n: nat) {
    if n in Missing(s) then
      && (forall p :: Inner(s, p) ==> p == n)
      && (s.client.mode == R.Buffering && s.client.expected == n && s.at == Waiting(RESENDS) && Some(Rr(n)) !in s.acks
          ==> s.acks == [] || s.acks[0] != Some(Srej(n)))
    else
      && Some(Rr(n)) in s.acks
      && ((forall p :: !Inner(s, p)) || (s.at.Draining? && Armed(s) && OneInner(s)))
  }

  // A closed window whose newest chunks are lost has to open before the client can ask for
  // them: by so little that it closes again, or with enough to send behind it.
  ghost predicate CanOpen(k: Params, s: State) {
    var lost := s.current - Edge(s) - if s.current == k.total then 1 else 0;
    || (exists p :: s.lowest < p < LastWindow(k) && (p in Missing(s) || Some(Rr(p)) in s.acks))
    || lost < Sends(k, s)
    || (lost == Sends(k, s) && !k.even && k.window <= k.total && LateSlide(s, k.total - k.window))
  }

  // Before that, a window that closes again lets its timeouts fill every gap before the edge.
  ghost predicate MiddleAlive(k: Params, s: State) {
    && !Stranded(s)
    && (Unasked(s) ==>
          || s.client.expected < LastWindow(k)
          || (s.client.expected == LastWindow(k) && !k.even && Missing(s) == {s.client.expected}))
    && (Closed(k, s) && Edge(s) < s.current ==> CanOpen(k, s))
  }

  // From a quiet state the transfer can still be completed, if acknowledgements may be damaged.
  ghost predicate QuietAlive(k: Params, s: State) {
    || s.client.expected == k.total
    || if s.eof then EndAlive(k, s)
       else if s.lowest >= LastWindow(k) then Enough(k, s)
       else MiddleAlive(k, s)
  }

  // Acknowledgement i, with those before it lost, is read: the state before what the server
  // answers has come.
  function AfterAck(s: State, i: nat): State
    requires i < |s.acks|
  {
    s.(lowest := Slid(s.lowest, s.acks[i]), acks := s.acks[i + 1..], at := AfterRead(s.at))
  }

  ghost predicate ReadTo(s: State, i: nat, y: State)
    requires ClientInv(s.client) && i < |s.acks|
  {
    || y == AfterAck(s, i)
    || (s.acks[i].Some? && s.acks[i].value.Srej? && Arrives(AfterAck(s, i), s.acks[i].value.n, y))
  }

  // A server that has used up its resends can only read: one of the acknowledgements that
  // are on its way has to leave it with a chance.
  ghost predicate ReadsOn(k: Params, s: State)
    requires ClientInv(s.client)
  {
    exists i, y :: 0 <= i < |s.acks| && ReadTo(s, i, y) && QuietAlive(k, y)
  }

  predicate OnlyReads(k: Params, s: State) {
    !k.noisy && !s.eof && s.at == Waiting(RESENDS) && s.client.expected < k.total
  }

  // A damaged one always does, so the difference is whether they may be damaged.
  ghost predicate Completable(k: Params, s: State)
    requires ClientInv(s.client)
  {
    QuietAlive(k, s) && (OnlyReads(k, s) ==> ReadsOn(k, s))
  }

  // A timeout will resend the lowest chunk.
  predicate Resends(k: Params, s: State) {
    if s.at.Waiting? then s.at.count < RESENDS else Closed(k, s)
  }

  // At the end of the file.
  ghost predicate EndMoves(k: Params, s: State) {
    && !s.at.Top?
    && match s.client.mode
       case InOrder => Resends(k, s) && s.lowest == s.client.expected
       case Buffering => Asked(s) || (Resends(k, s) && s.lowest == s.client.expected)
       case Flushing => Resends(k, s) || (AnySrej(s) && (s.at.Draining? || s.client.expected in s.client.buffered))
  }

  // From a quiet state the client can still get another chunk.
  ghost predicate QuietMoves(k: Params, s: State) {
    && s.client.expected < k.total
    && if s.eof then EndMoves(k, s)
       else !(s.at == Waiting(RESENDS) && s.acks == []) && (Unasked(s) ==> s.client.expected + k.window <= k.total)
  }

  // ---------------------------------------------------------------------------
  // Any state, with the packets on their way to the client.
  // ---------------------------------------------------------------------------

  // All of the file, or more than so many chunks.
  datatype Goal = Complete | Beyond(chunks: nat)

  ghost predicate Holds(k: Params, g: Goal, s: State)
    requires ClientInv(s.client)
  {
    match g
    case Complete => Completable(k, s)
    case Beyond(n) => s.client.expected > n || QuietMoves(k, s)
  }

  // The oldest of the packets is lost, or it arrives.  With None for it, it is damaged, or
  // lost after it has woken the client.
  function Behind(s: State): State
    requires s.data != []
  {
    s.(data := s.data[1..])
  }

  ghost function After(s: State, t: Option<nat>): State
    requires ClientInv(s.client) && s.data != []
  {
    Taken(Behind(s), t)
  }

  // The packets may be lost, or lost after they have woken the client, or arrive, one after
  // the other, so that g can still be reached when none is left.
  ghost predicate May(k: Params, g: Goal, s: State)
    requires Inv(k, s)
    decreases |s.data|
  {
    if s.data == [] then Holds(k, g, s)
    else
      HeadKeepsInv(k, s);
      May(k, g, Behind(s)) || May(k, g, After(s, None)) || May(k, g, After(s, s.data[0]))
  }

  // The transfer can still be completed.
  ghost predicate Alive(k: Params, s: State)
    requires Inv(k, s)
  {
    May(k, Complete, s)
  }

  // The client can still get another chunk.
  ghost predicate Moves(k: Params, s: State)
    requires Inv(k, s)
  {
    May(k, Beyond(s.client.expected), s)
  }

  // ---------------------------------------------------------------------------

  // Counting starts no later than now.
  predicate Counts(g: Goal, s: State) {
    g.Beyond? ==> g.chunks <= s.client.expected
  }

  lemma MayOf(k: Params, g: Goal, s: State)
    requires Inv(k, s) && s.data != []
    ensures ClientInv(s.client) && Inv(k, Behind(s)) && Inv(k, After(s, None)) && Inv(k, After(s, s.data[0]))
    ensures Behind(s).data == After(s, None).data == After(s, s.data[0]).data == s.data[1..]
    ensures Counts(g, s) ==> Counts(g, Behind(s)) && Counts(g, After(s, None)) && Counts(g, After(s, s.data[0]))
    ensures May(k, g, s) <==> May(k, g, Behind(s)) || May(k, g, After(s, None)) || May(k, g, After(s, s.data[0]))
  {
    hide Woken, Completable, QuietMoves;
    HeadKeepsInv(k, s);
    WakeForward(k, s);
    assert Wake(Behind(s)).client == Wake(s).client;
  }
}
