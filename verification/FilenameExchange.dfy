// rcopy.c: the client's wait for the answer to its filename packet, with its resends.
// Poll results and arriving packets are given from outside.
module FilenameExchange {
  import opened Bytes
  import opened Checksum
  import opened Pdu
  import S = Server

  const MAXBUF := 80
  const ATTEMPTS := 9
  const FNAME_RESPONSE: byte := 9

  // verifyFilename: -1 for a packet that is not an answer, and otherwise its status byte.
  function Verify(h: Endian, buffer: seq<byte>, len: nat): (v: int)
    requires |buffer| == MAXBUF && len <= MAXBUF
    ensures -1 <= v < 0x100
  {
    if Cksum(h, buffer[..len]) != 0 || buffer[6] != FNAME_RESPONSE then -1 else buffer[7]
  }

  // recvfrom keeps what fits.
  function Kept(p: seq<byte>): (q: seq<byte>)
    ensures |q| <= MAXBUF && |q| <= |p|
  {
    if |p| <= MAXBUF then p else p[..MAXBUF]
  }

  // The receive buffer when the first n packets have been read: a shorter packet leaves the
  // rest of an earlier one behind it.
  function BufferAfter(replies: seq<seq<byte>>, n: nat): (b: seq<byte>)
    requires n <= |replies|
    ensures |b| == MAXBUF
  {
    if n == 0 then S.Zeros(MAXBUF) else Splice(BufferAfter(replies, n - 1), 0, Kept(replies[n - 1]))
  }

  // What packet i says when it has been read.
  function Status(h: Endian, replies: seq<seq<byte>>, i: nat): (v: int)
    requires i < |replies|
    ensures -1 <= v < 0x100
  {
    Verify(h, BufferAfter(replies, i + 1), |Kept(replies[i])|)
  }

  // A packet with a status byte says it on its own.
  lemma WholeStatus(h: Endian, replies: seq<seq<byte>>, i: nat)
    requires i < |replies| && |replies[i]| >= 8
    ensures var q := if |replies[i]| <= 80 then replies[i] else replies[i][..80];
      Status(h, replies, i) == if Cksum(h, q) != 0 || q[6] != 9 then -1 else q[7] as int
  {
    var q := Kept(replies[i]);
    assert BufferAfter(replies, i + 1)[..|q|] == q;
  }

  // Byte k of the last of the first n packets that has one.
  function Latest(replies: seq<seq<byte>>, n: nat, k: nat): (b: byte)
    requires n <= |replies|
  {
    if n == 0 then 0
    else if k < |replies[n - 1]| then replies[n - 1][k]
    else Latest(replies, n - 1, k)
  }

  // That is packet i when all later ones are too short, and a zero when all are.
  lemma {:induction false} LatestIs(replies: seq<seq<byte>>, n: nat, k: nat, i: nat)
    requires i < n <= |replies| && |replies[i]| > k && forall j :: i < j < n ==> |replies[j]| <= k
    ensures Latest(replies, n, k) == replies[i][k]
  {
    if i < n - 1 {
      LatestIs(replies, n - 1, k, i);
    }
  }

  lemma {:induction false} LatestNone(replies: seq<seq<byte>>, n: nat, k: nat)
    requires n <= |replies| && forall j :: 0 <= j < n ==> |replies[j]| <= k
    ensures Latest(replies, n, k) == 0
  {
    if n > 0 {
      LatestNone(replies, n - 1, k);
    }
  }

  lemma {:induction false} BufferHoldsLatest(replies: seq<seq<byte>>, n: nat, k: nat)
    requires n <= |replies| && k < 80
    ensures BufferAfter(replies, n)[k] == Latest(replies, n, k)
  {
    hide Splice;
    if n > 0 {
      BufferHoldsLatest(replies, n - 1, k);
      SpliceAt(BufferAfter(replies, n - 1), 0, Kept(replies[n - 1]), k);
    }
  }

  // A shorter one is judged with the flag, or the flag and the status byte, that an earlier
  // packet has left in the buffer.
  lemma AnyStatus(h: Endian, replies: seq<seq<byte>>, i: nat)
    requires i < |replies|
    ensures var q := if |replies[i]| <= 80 then replies[i] else replies[i][..80];
      Status(h, replies, i) ==
        if Cksum(h, q) != 0 || Latest(replies, i + 1, 6) != 9 then -1 else Latest(replies, i + 1, 7) as int
  {
    var q := Kept(replies[i]);
    assert BufferAfter(replies, i + 1)[..|q|] == q;
    BufferHoldsLatest(replies, i + 1, 6);
    BufferHoldsLatest(replies, i + 1, 7);
  }

  // The variables of filename_state: the last poll result, the receive buffer and the
  // length last received, the resends so far, and how many packets have been read.
  datatype Wait = Wait(poll: i32, buffer: seq<byte>, len: nat, attempts: nat, read: nat) {
    function Receive(p: seq<byte>): Wait
      requires |buffer| == MAXBUF
    {
      this.(buffer := Splice(buffer, 0, Kept(p)), len := |Kept(p)|, read := read + 1)
    }

    function Resend(poll': i32): Wait {
      this.(poll := poll', attempts := attempts + 1)
    }
  }

  // Waiting: no packet is left, and recvfrom blocks.
  datatype Outcome = Accepted | Refused | TimedOut | Waiting

  datatype Result = Result(outcome: Outcome, resends: nat, read: nat)

  function Start(poll: i32): Wait {
    Wait(poll, S.Zeros(MAXBUF), 0, 0, 0)
  }

  // Without a packet to read, what is in the buffer is not an answer.
  predicate Stale(h: Endian, st: Wait)
  {
    && |st.buffer| == MAXBUF && st.len <= MAXBUF
    && (st.poll <= 0 ==> Verify(h, st.buffer, st.len) == -1)
  }

  lemma StartStale(h: Endian, poll: i32)
    ensures Stale(h, Start(poll))
  {
  }

  // polls[i] is the poll result after resend i + 1.
  predicate Enough(polls: seq<i32>, replies: seq<seq<byte>>, st: Wait) {
    |polls| >= ATTEMPTS && st.attempts <= ATTEMPTS && st.read <= |replies|
  }

  // The buffer holds what has been read so far.
  predicate Follows(replies: seq<seq<byte>>, st: Wait) {
    st.read <= |replies| && st.buffer == BufferAfter(replies, st.read)
  }

  datatype Turn = Done(result: Result) | More(st: Wait)

  // One turn of the loop.
  function TakeTurn(h: Endian, polls: seq<i32>, replies: seq<seq<byte>>, st: Wait): Turn
    requires Enough(polls, replies, st) && Stale(h, st)
  {
    if st.attempts == ATTEMPTS then Done(Result(TimedOut, ATTEMPTS, st.read))
    else if st.poll > 0 && st.read == |replies| then Done(Result(Waiting, st.attempts, st.read))
    else
      var s := if st.poll > 0 then st.Receive(replies[st.read]) else st;
      var v := Verify(h, s.buffer, s.len);
      if st.poll == 0 || v == -1 then More(s.Resend(polls[st.attempts]))
      else if v == 1 then Done(Result(Accepted, st.attempts, s.read))
      else if v == 0 then Done(Result(Refused, st.attempts, s.read))
      else More(s)
  }

  // Every turn makes a resend or reads a packet.
  lemma TurnAdvances(h: Endian, polls: seq<i32>, replies: seq<seq<byte>>, st: Wait)
    requires Enough(polls, replies, st) && Stale(h, st)
    ensures var t := TakeTurn(h, polls, replies, st);
      t.More? ==>
        && Enough(polls, replies, t.st) && Stale(h, t.st)
        && st.attempts <= t.st.attempts <= st.attempts + 1 && st.read <= t.st.read <= st.read + 1
        && (t.st.attempts > st.attempts || t.st.read > st.read)
        && (Follows(replies, st) ==> Follows(replies, t.st))
  {
  }

  function Exchange(h: Endian, polls: seq<i32>, replies: seq<seq<byte>>, st: Wait): Result
    requires Enough(polls, replies, st) && Stale(h, st)
    decreases ATTEMPTS - st.attempts, |replies| - st.read
  {
    TurnAdvances(h, polls, replies, st);
    match TakeTurn(h, polls, replies, st)
    case Done(r) => r
    case More(s) => Exchange(h, polls, replies, s)
  }

  method VerifyFilename(h: Endian, recv: array<byte>, len: nat) returns (v: int)
    requires recv.Length == MAXBUF && len <= MAXBUF
    ensures v == Verify(h, recv[..], len)
  {
    assert recv[..][..len] == recv[..len];
    var sum := InCksum(h, recv, len);
    v := if sum != 0 || recv[6] != FNAME_RESPONSE then -1 else recv[7];
  }

  // firstPoll and polls are the results of pollCall(1000).
  method FilenameState(h: Endian, firstPoll: i32, polls: seq<i32>, replies: seq<seq<byte>>) returns (r: Result)
    requires |polls| >= ATTEMPTS
    ensures Stale(h, Start(firstPoll)) && r == Exchange(h, polls, replies, Start(firstPoll))
    ensures Answers(h, [firstPoll] + polls, replies, r)
  {
    hide Verify, Kept, Splice, Stale, Answers;
    StartStale(h, firstPoll);
    ExchangeAnswers(h, firstPoll, polls, replies, Exchange(h, polls, replies, Start(firstPoll)));
    var recv := new byte[MAXBUF](_ => 0);
    var poll, len: nat, attempts: nat, read: nat := firstPoll, 0, 0, 0;
    assert recv[..] == S.Zeros(MAXBUF);
    while attempts < ATTEMPTS
      invariant attempts <= ATTEMPTS && len <= MAXBUF && read <= |replies|
      invariant Stale(h, Wait(poll, recv[..], len, attempts, read))
      invariant Exchange(h, polls, replies, Wait(poll, recv[..], len, attempts, read)) ==
                Exchange(h, polls, replies, Start(firstPoll))
      decreases ATTEMPTS - attempts, |replies| - read
    {
      ghost var st := Wait(poll, recv[..], len, attempts, read);
      TurnAdvances(h, polls, replies, st);
      if poll > 0 {
        if read == |replies| {
          return Result(Waiting, attempts, read);
        }
        Memcpy(recv, 0, Kept(replies[read]));
        len := |Kept(replies[read])|;
        read := read + 1;
      }
      var v := VerifyFilename(h, recv, len);
      if poll == 0 || v == -1 {
        poll := polls[attempts];
        attempts := attempts + 1;
      } else if v == 1 {
        return Result(Accepted, attempts, read);
      } else if v == 0 {
        return Result(Refused, attempts, read);
      }
    }
    return Result(TimedOut, attempts, read);
  }

  // ---------------------------------------------------------------------------
  // What the loop answers.
  // ---------------------------------------------------------------------------

  lemma TurnStatus(h: Endian, polls: seq<i32>, replies: seq<seq<byte>>, st: Wait)
    requires Enough(polls, replies, st) && Stale(h, st) && Follows(replies, st)
    ensures match TakeTurn(h, polls, replies, st)
      case Done(r) =>
        r.resends == st.attempts && r.read <= |replies| && (st.attempts < ATTEMPTS || r.outcome == TimedOut) &&
        (match r.outcome
         case Accepted => r.read == st.read + 1 && st.poll > 0 && Status(h, replies, st.read) == 1
         case Refused => r.read == st.read + 1 && st.poll > 0 && Status(h, replies, st.read) == 0
         case TimedOut => r.read == st.read && st.attempts == ATTEMPTS
         case Waiting => r.read == st.read == |replies| && st.poll > 0)
      case More(s) =>
        && st.attempts < ATTEMPTS
        && s.read == (if st.poll > 0 then st.read + 1 else st.read) <= |replies|
        && (if st.poll > 0 && Status(h, replies, st.read) > 1
            then s.attempts == st.attempts && s.poll == st.poll
            else s.attempts == st.attempts + 1 && s.poll == polls[st.attempts])
        && (st.poll > 0 ==> Status(h, replies, st.read) !in {0, 1})
  {
    hide Verify;
  }

  // Result r read the packets from number lo on: only the last one decided anything.
  predicate Explains(h: Endian, replies: seq<seq<byte>>, lo: nat, r: Result) {
    && lo <= r.read <= |replies|
    && (forall i :: lo <= i < r.read - 1 ==> Status(h, replies, i) !in {0, 1})
    && match r.outcome
       case Accepted => lo < r.read && Status(h, replies, r.read - 1) == 1
       case Refused => lo < r.read && Status(h, replies, r.read - 1) == 0
       case TimedOut => r.resends == ATTEMPTS && (lo < r.read ==> Status(h, replies, r.read - 1) !in {0, 1})
       case Waiting => r.read == |replies| && (lo < r.read ==> Status(h, replies, r.read - 1) !in {0, 1})
  }

  // The first packet with status 1 or 0 decides, at most nine resends are made, and the
  // wait is given up after the ninth.
  lemma {:induction false} FirstAnswerDecides(h: Endian, polls: seq<i32>, replies: seq<seq<byte>>, st: Wait)
    requires Enough(polls, replies, st) && Stale(h, st) && Follows(replies, st)
    ensures var r := Exchange(h, polls, replies, st);
      st.attempts <= r.resends <= ATTEMPTS && Explains(h, replies, st.read, r)
    decreases ATTEMPTS - st.attempts, |replies| - st.read
  {
    hide TakeTurn, Status, Stale;
    TurnAdvances(h, polls, replies, st);
    TurnStatus(h, polls, replies, st);
    var t := TakeTurn(h, polls, replies, st);
    if t.More? {
      FirstAnswerDecides(h, polls, replies, t.st);
    }
  }

  // How many of the packets from number lo on say nothing.
  function Unanswering(h: Endian, replies: seq<seq<byte>>, lo: nat, hi: nat): (n: nat)
    requires lo <= hi <= |replies|
    decreases hi - lo
  {
    if lo == hi then 0 else (if Status(h, replies, lo) == -1 then 1 else 0) + Unanswering(h, replies, lo + 1, hi)
  }

  // Each of them costs a resend.
  lemma {:induction false} UnansweringCostResends(h: Endian, polls: seq<i32>, replies: seq<seq<byte>>, st: Wait)
    requires Enough(polls, replies, st) && Stale(h, st) && Follows(replies, st)
    ensures var r := Exchange(h, polls, replies, st);
      r.outcome == Waiting ==>
        && r.read == |replies| && r.resends < ATTEMPTS
        && Unanswering(h, replies, st.read, |replies|) <= r.resends - st.attempts
    decreases ATTEMPTS - st.attempts, |replies| - st.read
  {
    hide TakeTurn, Status, Stale;
    TurnAdvances(h, polls, replies, st);
    TurnStatus(h, polls, replies, st);
    var t := TakeTurn(h, polls, replies, st);
    if t.More? {
      UnansweringCostResends(h, polls, replies, t.st);
    }
  }

  lemma {:induction false} UnansweringMore(h: Endian, replies: seq<seq<byte>>, lo: nat, hi: nat)
    requires lo <= hi < |replies|
    ensures Unanswering(h, replies, lo, hi + 1) ==
      Unanswering(h, replies, lo, hi) + if Status(h, replies, hi) == -1 then 1 else 0
    decreases hi - lo
  {
    hide Status;
    if lo < hi {
      UnansweringMore(h, replies, lo + 1, hi);
    }
  }

  // ---------------------------------------------------------------------------
  // Which poll results are used, and what each of them does.
  // ---------------------------------------------------------------------------

  // How many of the first n poll results report no packet.
  function Nonpositive(entries: seq<i32>, n: nat): (c: nat)
    requires n <= |entries|
    ensures c <= n
    ensures c == n <==> forall i :: 0 <= i < n ==> entries[i] <= 0
  {
    if n == 0 then 0 else Nonpositive(entries, n - 1) + if entries[n - 1] > 0 then 0 else 1
  }

  // Result r, over the first poll result followed by those after each resend.  Result k
  // belongs to the time after resend k: one that reports no packet costs a resend, and so
  // does a packet that says nothing.
  predicate Answers(h: Endian, entries: seq<i32>, replies: seq<seq<byte>>, r: Result)
    requires |entries| >= 10
  {
    && r.read <= |replies| && r.resends <= 9
    && (forall i :: 0 <= i < r.read - 1 ==> Status(h, replies, i) !in {0, 1})
    && (r.outcome != TimedOut ==>
          && r.resends < 9 && entries[r.resends] > 0
          && r.resends == Nonpositive(entries, r.resends + 1) + Unanswering(h, replies, 0, r.read))
    && match r.outcome
       case Accepted => r.read > 0 && Status(h, replies, r.read - 1) == 1
       case Refused => r.read > 0 && Status(h, replies, r.read - 1) == 0
       case TimedOut =>
         && r.resends == 9 && (r.read > 0 ==> Status(h, replies, r.read - 1) == -1)
         && 9 == Nonpositive(entries, 9) + Unanswering(h, replies, 0, r.read)
       case Waiting => r.read == |replies| && (r.read > 0 ==> Status(h, replies, r.read - 1) !in {0, 1})
  }

  // Where the loop is when it goes on.
  predicate Ongoing(h: Endian, entries: seq<i32>, replies: seq<seq<byte>>, st: Wait)
    requires |entries| >= 10
  {
    && st.read <= |replies| && st.attempts <= 9 && st.poll == entries[st.attempts]
    && st.attempts == Nonpositive(entries, st.attempts) + Unanswering(h, replies, 0, st.read)
    && (forall i :: 0 <= i < st.read ==> Status(h, replies, i) !in {0, 1})
    && (st.read > 0 && Status(h, replies, st.read - 1) != -1 ==> st.poll > 0 && st.attempts < 9)
  }

  lemma TurnGoesOn(h: Endian, polls: seq<i32>, replies: seq<seq<byte>>, entries: seq<i32>, st: Wait)
    requires Enough(polls, replies, st) && Stale(h, st) && Follows(replies, st)
    requires |entries| == |polls| + 1 && polls == entries[1..] && Ongoing(h, entries, replies, st)
    ensures var t := TakeTurn(h, polls, replies, st);
      if t.Done? then Answers(h, entries, replies, t.result) else Ongoing(h, entries, replies, t.st)
  {
    hide TakeTurn, Status, Stale, Follows, Unanswering;
    TurnStatus(h, polls, replies, st);
    if st.read < |replies| {
      UnansweringMore(h, replies, 0, st.read);
    }
  }

  lemma {:induction false} GoesOn(
      h: Endian, polls: seq<i32>, replies: seq<seq<byte>>, entries: seq<i32>, st: Wait)
    requires Enough(polls, replies, st) && Stale(h, st) && Follows(replies, st)
    requires |entries| == |polls| + 1 && polls == entries[1..] && Ongoing(h, entries, replies, st)
    ensures Answers(h, entries, replies, Exchange(h, polls, replies, st))
    decreases ATTEMPTS - st.attempts, |replies| - st.read
  {
    hide TakeTurn, Status, Stale, Answers, Ongoing;
    TurnAdvances(h, polls, replies, st);
    TurnGoesOn(h, polls, replies, entries, st);
    var t := TakeTurn(h, polls, replies, st);
    if t.More? {
      GoesOn(h, polls, replies, entries, t.st);
    }
  }

  lemma {:induction false} MoreUnanswering(h: Endian, replies: seq<seq<byte>>, lo: nat, hi: nat)
    requires lo < hi <= |replies|
    ensures Unanswering(h, replies, 0, lo) + (if Status(h, replies, hi - 1) == -1 then 1 else 0)
      <= Unanswering(h, replies, 0, hi)
    decreases hi
  {
    hide Status, Unanswering;
    UnansweringMore(h, replies, 0, hi - 1);
    if lo < hi - 1 {
      MoreUnanswering(h, replies, lo, hi - 1);
    }
  }

  lemma {:induction false} MorePositive(entries: seq<i32>, m: nat, n: nat)
    requires m < n <= |entries|
    ensures m - Nonpositive(entries, m) + (if entries[m] > 0 then 1 else 0) <= n - Nonpositive(entries, n)
    decreases n
  {
    if m < n - 1 {
      MorePositive(entries, m, n - 1);
    }
  }

  lemma OneAnswer(h: Endian, entries: seq<i32>, replies: seq<seq<byte>>, r: Result, s: Result)
    requires |entries| >= 10 && Answers(h, entries, replies, r) && Answers(h, entries, replies, s)
    requires r.read <= s.read
    ensures r == s
  {
    hide Status, Unanswering;
    if r.read < s.read {
      MoreUnanswering(h, replies, r.read, s.read);
    }
    if r.resends < s.resends {
      MorePositive(entries, r.resends, s.resends);
    }
    if s.resends < r.resends {
      MorePositive(entries, s.resends, r.resends);
    }
  }

  // These conditions hold of the loop's result and of no other.
  lemma ExchangeAnswers(h: Endian, firstPoll: i32, polls: seq<i32>, replies: seq<seq<byte>>, r: Result)
    requires |polls| >= 9
    ensures Stale(h, Start(firstPoll))
    ensures Answers(h, [firstPoll] + polls, replies, r) <==> r == Exchange(h, polls, replies, Start(firstPoll))
  {
    hide Exchange, Answers;
    StartStale(h, firstPoll);
    var entries := [firstPoll] + polls;
    var s := Exchange(h, polls, replies, Start(firstPoll));
    GoesOn(h, polls, replies, entries, Start(firstPoll));
    if Answers(h, entries, replies, r) {
      if r.read <= s.read {
        OneAnswer(h, entries, replies, r, s);
      } else {
        OneAnswer(h, entries, replies, s, r);
      }
    }
  }

  // An answer that is there when a poll first reports a packet is read and taken.
  lemma FirstPollAnswered(h: Endian, firstPoll: i32, polls: seq<i32>, replies: seq<seq<byte>>, j: nat)
    requires |polls| >= 9 && j < 9 && ([firstPoll] + polls)[j] > 0
    requires forall i :: 0 <= i < j ==> ([firstPoll] + polls)[i] <= 0
    requires |replies| > 0 && Status(h, replies, 0) in {0, 1}
    ensures Stale(h, Start(firstPoll))
    ensures Exchange(h, polls, replies, Start(firstPoll)) ==
      Result(if Status(h, replies, 0) == 1 then Accepted else Refused, j, 1)
  {
    hide Exchange, Status;
    var entries := [firstPoll] + polls;
    assert Nonpositive(entries, j + 1) == Nonpositive(entries, j) == j;
    assert Unanswering(h, replies, 0, 1) == 0;
    ExchangeAnswers(h, firstPoll, polls, replies,
      Result(if Status(h, replies, 0) == 1 then Accepted else Refused, j, 1));
  }

  // Without a packet in time, nine resends and no more.
  lemma NoPollAnswered(h: Endian, firstPoll: i32, polls: seq<i32>, replies: seq<seq<byte>>)
    requires |polls| >= 9 && firstPoll <= 0 && forall i :: 0 <= i < 8 ==> polls[i] <= 0
    ensures Stale(h, Start(firstPoll))
    ensures Exchange(h, polls, replies, Start(firstPoll)) == Result(TimedOut, 9, 0)
  {
    hide Exchange, Status;
    var entries := [firstPoll] + polls;
    assert forall i :: 0 < i < 9 ==> entries[i] == polls[i - 1];
    assert Nonpositive(entries, 9) == 9;
    ExchangeAnswers(h, firstPoll, polls, replies, Result(TimedOut, 9, 0));
  }

  lemma ReadyTurn(h: Endian, polls: seq<i32>, replies: seq<seq<byte>>, st: Wait)
    requires Enough(polls, replies, st) && Stale(h, st) && Follows(replies, st) && st.poll > 0 && st.attempts < ATTEMPTS
    requires st.read < |replies| ==> Status(h, replies, st.read) !in {0, 1}
    ensures var t := TakeTurn(h, polls, replies, st);
      if st.read == |replies| then t == Done(Result(Waiting, st.attempts, st.read))
      else
        && t.More? && t.st.read == st.read + 1
        && (if Status(h, replies, st.read) == -1
            then t.st.attempts == st.attempts + 1 && t.st.poll == polls[st.attempts]
            else t.st.attempts == st.attempts && t.st.poll == st.poll)
  {
    hide Verify;
  }

  // When every poll finds a packet, nothing else costs one, and undecided packets are all read.
  lemma {:induction false} ReadyReadsAll(h: Endian, polls: seq<i32>, replies: seq<seq<byte>>, st: Wait)
    requires Enough(polls, replies, st) && Stale(h, st) && Follows(replies, st)
    requires st.poll > 0 && forall i :: 0 <= i < |polls| ==> polls[i] > 0
    requires forall i :: st.read <= i < |replies| ==> Status(h, replies, i) !in {0, 1}
    requires st.attempts + Unanswering(h, replies, st.read, |replies|) < ATTEMPTS
    ensures Exchange(h, polls, replies, st) ==
      Result(Waiting, st.attempts + Unanswering(h, replies, st.read, |replies|), |replies|)
    decreases |replies| - st.read
  {
    hide TakeTurn, Status, Stale;
    TurnAdvances(h, polls, replies, st);
    ReadyTurn(h, polls, replies, st);
    if st.read < |replies| {
      ReadyReadsAll(h, polls, replies, TakeTurn(h, polls, replies, st).st);
    }
  }

  // The loop can block on these packets exactly when none of them decides and fewer than
  // nine say nothing: a status byte above 1 is read without costing a resend.
  lemma BlocksExactlyWhen(h: Endian, replies: seq<seq<byte>>)
    ensures (exists firstPoll: i32, polls: seq<i32> ::
        && |polls| >= ATTEMPTS && Stale(h, Start(firstPoll))
        && Exchange(h, polls, replies, Start(firstPoll)).outcome == Waiting)
      <==> ((forall i :: 0 <= i < |replies| ==> Status(h, replies, i) !in {0, 1})
            && Unanswering(h, replies, 0, |replies|) < ATTEMPTS)
  {
    hide Status, Stale, Exchange;
    forall firstPoll: i32, polls: seq<i32> |
      && |polls| >= ATTEMPTS && Stale(h, Start(firstPoll))
      && Exchange(h, polls, replies, Start(firstPoll)).outcome == Waiting
      ensures forall i :: 0 <= i < |replies| ==> Status(h, replies, i) !in {0, 1}
      ensures Unanswering(h, replies, 0, |replies|) < ATTEMPTS
    {
      FirstAnswerDecides(h, polls, replies, Start(firstPoll));
      UnansweringCostResends(h, polls, replies, Start(firstPoll));
    }
    if (forall i :: 0 <= i < |replies| ==> Status(h, replies, i) !in {0, 1})
      && Unanswering(h, replies, 0, |replies|) < ATTEMPTS
    {
      var polls: seq<i32> := seq(ATTEMPTS, _ => 1);
      StartStale(h, 1);
      ReadyReadsAll(h, polls, replies, Start(1));
    }
  }

  // ---------------------------------------------------------------------------
  // The loop takes a timeout to be 0, but pollCall returns -1.
  // ---------------------------------------------------------------------------

  function Clamp(poll: i32): i32 {
    if poll < 0 then 0 else poll
  }

  function Clamped(polls: seq<i32>): (r: seq<i32>)
    ensures |r| == |polls| && forall i :: 0 <= i < |r| ==> r[i] == Clamp(polls[i])
  {
    seq(|polls|, i requires 0 <= i < |polls| => Clamp(polls[i]))
  }

  // It makes no difference: a timeout resends either way.
  lemma {:induction false} TimeoutValue(h: Endian, polls: seq<i32>, replies: seq<seq<byte>>, st: Wait)
    requires Enough(polls, replies, st) && Stale(h, st)
    ensures Exchange(h, Clamped(polls), replies, st.(poll := Clamp(st.poll))) == Exchange(h, polls, replies, st)
    decreases ATTEMPTS - st.attempts, |replies| - st.read
  {
    hide Verify;
    TurnAdvances(h, polls, replies, st);
    var t := TakeTurn(h, polls, replies, st);
    if t.More? {
      TimeoutValue(h, polls, replies, t.st);
    }
  }
}
