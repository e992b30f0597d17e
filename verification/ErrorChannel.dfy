// libcpe464: the sending half of the error library.  sendto_Err copies the caller's
// buffer, runs the message events over the copy and then sends it, unless an event
// asked for it to be dropped.
module ErrorChannel {
  import opened Bytes
  import opened Checksum

  // A draw of drand48().
  type unit = x: real | 0.0 <= x < 1.0

  // (int)(n * drand48())
  function Pick(n: nat, r: unit): (i: nat)
    requires n > 0
    ensures i < n
  {
    var p := n as real * r;
    assert 0.0 <= p < n as real by { Scale(n as real, r); }
    p.Floor
  }

  lemma PickExact(n: nat, r: unit, i: nat)
    requires i < n
    ensures Pick(n, r) == i <==> i as real <= n as real * r < i as real + 1.0
  {
  }

  lemma Scale(n: real, r: real)
    requires n > 0.0 && 0.0 <= r < 1.0
    ensures 0.0 <= n * r < n
  {
  }

  // The eight bits of a byte.
  function BitsOf(x: byte): (b: bv8)
    ensures b as int == x
  {
    if x == 0 then 0
    else
      var b := BitsOf(x - 1);
      assert (b + 1) as int == b as int + 1;
      b + 1
  }

  lemma BitsSum(b: bv8)
    ensures (b as int) as bv8 == b
    ensures b as int + (b ^ 0xFF) as int == 0xFF
  {
    assert 0xFF - b == b ^ 0xFF;
    assert (0xFF - b) as int == 0xFF - b as int;
  }

  function Xor(x: byte): (y: byte)
    ensures y == 0xFF - x
  {
    BitsSum(BitsOf(x));
    ((x as bv8) ^ 0xFF) as int
  }

  // Every bit of one byte of the buffer turned over.
  function Flip(p: seq<byte>, i: nat): (q: seq<byte>)
    requires i < |p|
    ensures |q| == |p|
  {
    p[i := 0xFF - p[i]]
  }

  // A flip is an exclusive or with 0xFF of the one byte, and the same flip undoes it.
  lemma FlipIsXor(p: seq<byte>, i: nat)
    requires i < |p|
    ensures Flip(p, i)[i] == ((p[i] as bv8) ^ 0xFF) as int != p[i]
    ensures forall j :: 0 <= j < |p| && j != i ==> Flip(p, i)[j] == p[j]
    ensures Flip(Flip(p, i), i) == p
  {
    assert Xor(p[i]) == 0xFF - p[i];
  }

  // ---------------------------------------------------------------------------
  // Message events.
  // ---------------------------------------------------------------------------

  class ErrorDrop {
    var dropAll: bool
    var dropList: seq<u32>

    constructor ()
      ensures dropAll && dropList == []
    {
      dropAll, dropList := true, [];
    }

    method SetDropSpecific(list: seq<u32>)
      modifies this
      ensures !dropAll && dropList == list
    {
      dropAll := false;
      dropList := list;
    }

    method Run(msgNo: u32) returns (code: int)
      ensures code == if dropAll || msgNo in dropList then 2 else 0
    {
      var toDrop := dropAll;
      var it := 0;
      while it != |dropList|
        invariant it <= |dropList| && toDrop == dropAll && msgNo !in dropList[..it]
        decreases |dropList| - it
      {
        if dropList[it] == msgNo {
          toDrop := true;
          break;
        }
        it := it + 1;
      }
      code := if toDrop then 2 else 0;
    }
  }

  // An IMsgEvent: errorDrop, errorFlipBits, or infoSeqNo, which only counts.
  datatype MsgEvent = DropEvent(drop: ErrorDrop) | FlipEvent | InfoEvent

  // What an event is set up to do.
  datatype Kind = Drop(all: bool, list: seq<u32>) | FlipBits | Info

  function KindOf(e: MsgEvent): Kind
    reads if e.DropEvent? then {e.drop} else {}
  {
    match e
    case DropEvent(d) => Drop(d.dropAll, d.dropList)
    case FlipEvent => FlipBits
    case InfoEvent => Info
  }

  function Drops(es: seq<MsgEvent>): set<ErrorDrop> {
    set e | e in es && e.DropEvent? :: e.drop
  }

  function Kinds(es: seq<MsgEvent>): (ks: seq<Kind>)
    reads Drops(es)
    ensures |ks| == |es| && forall i :: 0 <= i < |es| ==> ks[i] == KindOf(es[i])
  {
    seq(|es|, i requires 0 <= i < |es| reads Drops(es) => KindOf(es[i]))
  }

  // One event on a packet: its return code (0 unchanged, 1 changed, 2 drop) and the bytes after it.
  function RunOne(k: Kind, p: seq<byte>, msgNo: u32, r: unit): (out: (int, seq<byte>))
    requires |p| > 0
    ensures out.0 in {0, 1, 2} && |out.1| == |p|
  {
    match k
    case Drop(all, list) => (if all || msgNo in list then 2 else 0, p)
    case FlipBits => (1, Flip(p, Pick(|p|, r)))
    case Info => (0, p)
  }

  function RunAll(ks: seq<Kind>, rs: seq<unit>, p: seq<byte>, msgNo: u32, changed: bool): (out: (int, seq<byte>))
    requires |p| > 0 && |rs| >= |ks|
    ensures out.0 in {0, 1, 2} && |out.1| == |p|
  {
    if ks == [] then (if changed then 1 else 0, p)
    else
      var (code, q) := RunOne(ks[0], p, msgNo, rs[0]);
      if code == 2 then (2, q) else RunAll(ks[1..], rs[1..], q, msgNo, changed || code == 1)
  }

  // ---------------------------------------------------------------------------
  // The packet manager.
  // ---------------------------------------------------------------------------

  // Random draws of one send: error or not, which event, and where flips land.
  datatype Draws = Draws(rate: unit, pick: unit, flip: unit, standard: seq<unit>)

  datatype Manager = Manager(standard: seq<Kind>, chance: seq<Kind>, rate: real, msgNo: u32)

  function Process(standard: seq<Kind>, chance: seq<Kind>, rate: real, p: seq<byte>, msgNo: u32, d: Draws)
    : (out: (int, seq<byte>))
    requires |p| > 0 && |d.standard| >= |standard|
    ensures out.0 in {0, 1, 2} && |out.1| == |p|
  {
    var (code, q) := RunAll(standard, d.standard, p, msgNo, false);
    if |chance| > 0 && d.rate <= rate then
      var (code2, q2) := RunOne(chance[Pick(|chance|, d.pick)], q, msgNo, d.flip);
      (if code == 2 || code2 == 2 then 2 else code2, q2)
    else (code, q)
  }

  // A 32-bit counter advanced k times.
  function Advance(n: u32, k: nat): u32 {
    (n + k) % 0x1_0000_0000
  }

  lemma AdvanceOnce(n: u32)
    ensures Advance(n, 1) == if n == 0xFFFF_FFFF then 0 else n + 1
  {
  }

  lemma AdvanceMore(n: u32, k: nat)
    ensures Advance(Advance(n, k), 1) == Advance(n, k + 1)
  {
  }

  // One send: the manager afterwards, and the packets put on the wire.
  function Send(m: Manager, p: seq<byte>, d: Draws): (out: (Manager, seq<seq<byte>>))
    requires |p| > 0 && |d.standard| >= |m.standard|
    ensures out.0 == m.(msgNo := if m.msgNo == 0xFFFF_FFFF then 0 else m.msgNo + 1)
    ensures out.1 == [] || (|out.1| == 1 && |out.1[0]| == |p|)
  {
    var n := Advance(m.msgNo, 1);
    var (code, q) := Process(m.standard, m.chance, m.rate, p, n, d);
    (m.(msgNo := n), if code == 2 then [] else [q])
  }

  datatype SendResult = Exited | Returned(value: int)

  class PacketManager {
    var errorRate: real
    var msgNo: u32
    var standard: seq<MsgEvent>
    var chance: seq<MsgEvent>
    var wire: seq<seq<byte>>  // what sendto() has put on the network

    constructor ()
      ensures View() == Manager([], [], 0.0, 0) && wire == []
    {
      errorRate, msgNo, standard, chance, wire := 0.0, 0, [], [], [];
    }

    ghost function View(): Manager
      reads this, Drops(standard), Drops(chance)
    {
      Manager(Kinds(standard), Kinds(chance), errorRate, msgNo)
    }

    // errorFlipBits: all the bits of one byte, drawn from the whole buffer.
    method FlipByte(buf: array<byte>, r: unit)
      requires buf.Length > 0
      modifies buf
      ensures buf[..] == Flip(old(buf[..]), Pick(buf.Length, r))
      ensures var i := Pick(buf.Length, r);
        && buf[i] == Xor(old(buf[i]))
        && forall j :: 0 <= j < buf.Length && j != i ==> buf[j] == old(buf[j])
    {
      hide Xor;
      var byteToFlip := Pick(buf.Length, r);
      buf[byteToFlip] := Xor(buf[byteToFlip]);
    }

    method RunEvent(e: MsgEvent, buf: array<byte>, r: unit, n: u32) returns (code: int)
      requires buf.Length > 0
      modifies buf
      ensures (code, buf[..]) == RunOne(old(KindOf(e)), old(buf[..]), n, r)
      ensures match e
        case DropEvent(d) => code == (if d.dropAll || n in d.dropList then 2 else 0) && buf[..] == old(buf[..])
        case FlipEvent => code == 1 && buf[..] == Flip(old(buf[..]), Pick(buf.Length, r))
        case InfoEvent => code == 0 && buf[..] == old(buf[..])
    {
      match e
      case DropEvent(d) => code := d.Run(n);
      case FlipEvent =>
        FlipByte(buf, r);
        code := 1;
      case InfoEvent => code := 0;
    }

    method RunMsgEvents(events: seq<MsgEvent>, draws: seq<unit>, buf: array<byte>, n: u32) returns (code: int)
      requires buf.Length > 0 && |draws| >= |events|
      modifies buf
      ensures (code, buf[..]) == RunAll(old(Kinds(events)), draws, old(buf[..]), n, false)
    {
      ghost var ks := Kinds(events);
      var hasChanged := false;
      for i := 0 to |events|
        invariant RunAll(ks[i..], draws[i..], buf[..], n, hasChanged) == RunAll(ks, draws, old(buf[..]), n, false)
      {
        assert ks[i..][1..] == ks[i + 1..] && draws[i..][1..] == draws[i + 1..];
        var nResult := RunEvent(events[i], buf, draws[i], n);
        if nResult == 1 {
          hasChanged := true;
        } else if nResult == 2 {
          return 2;
        }
      }
      code := if hasChanged then 1 else 0;
    }

    method ProcessEvents(buf: array<byte>, n: u32, d: Draws) returns (code: int)
      requires buf.Length > 0 && |d.standard| >= |standard|
      modifies buf
      ensures (code, buf[..]) == Process(old(Kinds(standard)), old(Kinds(chance)), errorRate, old(buf[..]), n, d)
    {
      var hasDropped, hasChanged := false, false;
      var nResult := RunMsgEvents(standard, d.standard, buf, n);
      if nResult == 2 {
        hasDropped := true;
      } else if nResult == 1 {
        hasChanged := true;
      }
      if |chance| > 0 && d.rate <= errorRate {
        var randCase := Pick(|chance|, d.pick);
        nResult := RunEvent(chance[randCase], buf, d.flip, n);
        if nResult == 2 {
          hasDropped := true;
        } else {
          hasChanged := nResult != 0;
        }
      }
      code := if hasDropped then 2 else if hasChanged then 1 else 0;
    }

    // accepted is what the system's sendto() returns when it is reached.  The
    // caller's buffer is not in the frame.
    method SendtoErr(buf: array?<byte>, len: nat, hasAddress: bool, d: Draws, accepted: int) returns (r: SendResult)
      requires buf != null ==> len <= buf.Length
      requires |d.standard| >= |standard|
      modifies this
      ensures r.Exited? <==> buf == null || len == 0 || !hasAddress
      ensures r.Exited? ==> unchanged(this)
      ensures r.Returned? ==> msgNo == if old(msgNo) == 0xFFFF_FFFF then 0 else old(msgNo) + 1
      ensures r.Returned? ==>
        var (m, out) := Send(old(View()), buf[..len], d);
        && View() == m
        && wire == old(wire) + (if accepted == len then out else [])
        && r.value == if out == [] || accepted == len then len else accepted
    {
      if buf == null || len == 0 || !hasAddress {
        return Exited;
      }
      ghost var st, ch := Kinds(standard), Kinds(chance);
      msgNo := Advance(msgNo, 1);
      assert Kinds(standard) == st && Kinds(chance) == ch;
      var nResult, pBuf := Transform(buf, len, d);
      if nResult == 2 || accepted == len {
        if nResult != 2 {
          wire := wire + [pBuf];
        }
        assert Kinds(standard) == st && Kinds(chance) == ch;
        return Returned(len);
      }
      return Returned(accepted);
    }

    // The private copy of the buffer, and the events run over it.
    method Transform(buf: array<byte>, len: nat, d: Draws) returns (code: int, sent: seq<byte>)
      requires 0 < len <= buf.Length && |d.standard| >= |standard|
      ensures (code, sent) == Process(old(Kinds(standard)), old(Kinds(chance)), errorRate, buf[..len], msgNo, d)
    {
      ghost var st, ch := Kinds(standard), Kinds(chance);
      var bufTmp := new byte[len](i requires 0 <= i < len reads buf => buf[i]);
      assert Kinds(standard) == st && Kinds(chance) == ch;
      assert bufTmp[..] == buf[..len];
      code := ProcessEvents(bufTmp, msgNo, d);
      sent := bufTmp[..];
    }
  }

  // ---------------------------------------------------------------------------
  // The channel loses packets or delivers them, and damage is always visible.
  // ---------------------------------------------------------------------------

  lemma {:induction false} StandardKeepsBytes(ks: seq<Kind>, rs: seq<unit>, p: seq<byte>, msgNo: u32, changed: bool)
    requires |p| > 0 && |rs| >= |ks| && FlipBits !in ks
    ensures RunAll(ks, rs, p, msgNo, changed).1 == p
  {
    if ks != [] && RunOne(ks[0], p, msgNo, rs[0]).0 != 2 {
      assert forall k :: k in ks[1..] ==> k in ks;
      StandardKeepsBytes(ks[1..], rs[1..], p, msgNo, changed || RunOne(ks[0], p, msgNo, rs[0]).0 == 1);
    }
  }

  // Does this event drop message msgNo?
  predicate Discards(k: Kind, msgNo: u32) {
    k.Drop? && (k.all || msgNo in k.list)
  }

  lemma {:induction false} StandardDrops(ks: seq<Kind>, rs: seq<unit>, p: seq<byte>, msgNo: u32, changed: bool)
    requires |p| > 0 && |rs| >= |ks|
    ensures RunAll(ks, rs, p, msgNo, changed).0 == 2 <==> exists i :: 0 <= i < |ks| && Discards(ks[i], msgNo)
  {
    if ks != [] {
      var (code, q) := RunOne(ks[0], p, msgNo, rs[0]);
      assert forall i :: 0 < i < |ks| ==> ks[i] == ks[1..][i - 1];
      StandardDrops(ks[1..], rs[1..], q, msgNo, changed || code == 1);
      assert forall i :: 0 <= i < |ks| - 1 ==> ks[1..][i] == ks[i + 1];
    }
  }

  // Nothing is put on the network exactly when some standard event drops the message's
  // number, or the draws choose a random event that does.
  lemma LostExactlyWhen(m: Manager, p: seq<byte>, d: Draws)
    requires |p| > 0 && |d.standard| >= |m.standard|
    ensures var n := if m.msgNo == 0xFFFF_FFFF then 0 else m.msgNo + 1;
      Send(m, p, d).1 == [] <==>
        || (exists i :: 0 <= i < |m.standard| && Discards(m.standard[i], n))
        || (|m.chance| > 0 && d.rate <= m.rate && Discards(m.chance[Pick(|m.chance|, d.pick)], n))
  {
    StandardDrops(m.standard, d.standard, p, Advance(m.msgNo, 1), false);
  }

  // Of events ks with draws rs on a packet of size bytes, how many are flips that land at i?
  function FlipsAt(ks: seq<Kind>, rs: seq<unit>, size: nat, i: nat): (n: nat)
    requires size > 0 && |rs| >= |ks|
  {
    if ks == [] then 0
    else (if ks[0] == FlipBits && Pick(size, rs[0]) == i then 1 else 0) + FlipsAt(ks[1..], rs[1..], size, i)
  }

  // When no event drops the packet, each byte ends up turned over or as it was.
  lemma {:induction false} StandardBytes(
      ks: seq<Kind>, rs: seq<unit>, p: seq<byte>, msgNo: u32, changed: bool, i: nat)
    requires i < |p| && |rs| >= |ks| && RunAll(ks, rs, p, msgNo, changed).0 != 2
    ensures RunAll(ks, rs, p, msgNo, changed).1[i] ==
      if FlipsAt(ks, rs, |p|, i) % 2 == 0 then p[i] else 0xFF - p[i]
  {
    if ks != [] {
      var (code, q) := RunOne(ks[0], p, msgNo, rs[0]);
      StandardBytes(ks[1..], rs[1..], q, msgNo, changed || code == 1, i);
    }
  }

  lemma {:induction false} StandardCode(ks: seq<Kind>, rs: seq<unit>, p: seq<byte>, msgNo: u32, changed: bool)
    requires |p| > 0 && |rs| >= |ks| && RunAll(ks, rs, p, msgNo, changed).0 != 2
    ensures RunAll(ks, rs, p, msgNo, changed).0 == if changed || FlipBits in ks then 1 else 0
  {
    if ks != [] {
      var (code, q) := RunOne(ks[0], p, msgNo, rs[0]);
      StandardCode(ks[1..], rs[1..], q, msgNo, changed || code == 1);
      assert FlipBits in ks <==> ks[0] == FlipBits || FlipBits in ks[1..];
    }
  }

  // The return code when nothing is dropped: 1 for a flip, but a random event that runs
  // replaces what the standard events say.
  lemma ProcessCode(m: Manager, p: seq<byte>, n: u32, d: Draws)
    requires |p| > 0 && |d.standard| >= |m.standard|
    ensures var code := Process(m.standard, m.chance, m.rate, p, n, d).0;
      code != 2 ==>
        (code == 1 <==> if |m.chance| > 0 && d.rate <= m.rate then FlipChosen(m, d) else FlipBits in m.standard)
  {
    hide RunAll, Pick, Flip;
    if Process(m.standard, m.chance, m.rate, p, n, d).0 != 2 {
      StandardCode(m.standard, d.standard, p, n, false);
    }
  }

  // Do the draws choose a random flip?
  predicate FlipChosen(m: Manager, d: Draws) {
    |m.chance| > 0 && d.rate <= m.rate && m.chance[Pick(|m.chance|, d.pick)] == FlipBits
  }

  lemma RunOneBytes(k: Kind, p: seq<byte>, msgNo: u32, r: unit)
    requires |p| > 0
    ensures RunOne(k, p, msgNo, r).1 == if k == FlipBits then Flip(p, Pick(|p|, r)) else p
  {
  }

  lemma ProcessBytes(m: Manager, p: seq<byte>, n: u32, d: Draws)
    requires |p| > 0 && |d.standard| >= |m.standard|
    ensures var q := RunAll(m.standard, d.standard, p, n, false).1;
      Process(m.standard, m.chance, m.rate, p, n, d).1 ==
        if FlipChosen(m, d) then Flip(q, Pick(|p|, d.flip)) else q
  {
    hide RunAll, RunOne, Pick, Flip;
    var q := RunAll(m.standard, d.standard, p, n, false).1;
    if |m.chance| > 0 && d.rate <= m.rate {
      RunOneBytes(m.chance[Pick(|m.chance|, d.pick)], q, n, d.flip);
    } else {
      assert !FlipChosen(m, d);
    }
  }

  lemma SendProcesses(m: Manager, p: seq<byte>, d: Draws)
    requires |p| > 0 && |d.standard| >= |m.standard| && Send(m, p, d).1 != []
    ensures Send(m, p, d).1 == [Process(m.standard, m.chance, m.rate, p, Advance(m.msgNo, 1), d).1]
  {
    hide Process, Advance;
  }

  // What is sent is what the standard events leave, with the random flip if one is chosen.
  lemma SentParts(m: Manager, p: seq<byte>, d: Draws)
    requires |p| > 0 && |d.standard| >= |m.standard| && Send(m, p, d).1 != []
    ensures var out := RunAll(m.standard, d.standard, p, Advance(m.msgNo, 1), false);
      && out.0 != 2
      && Send(m, p, d).1 == [if FlipChosen(m, d) then Flip(out.1, Pick(|p|, d.flip)) else out.1]
  {
    hide *;
    var n := Advance(m.msgNo, 1);
    AdvanceOnce(m.msgNo);
    LostExactlyWhen(m, p, d);
    StandardDrops(m.standard, d.standard, p, n, false);
    ProcessBytes(m, p, n, d);
    SendProcesses(m, p, d);
  }

  // A packet that is sent has each byte turned over exactly when the number of flips drawn
  // for it is odd: those among the standard events, and the random one if it runs.
  lemma SentBytes(m: Manager, p: seq<byte>, d: Draws, i: nat)
    requires i < |p| && |d.standard| >= |m.standard| && Send(m, p, d).1 != []
    ensures var extra := if FlipChosen(m, d) && Pick(|p|, d.flip) == i then 1 else 0;
      Send(m, p, d).1[0][i] ==
        if (FlipsAt(m.standard, d.standard, |p|, i) + extra) % 2 == 0 then p[i] else 0xFF - p[i]
  {
    hide Send, RunAll, FlipsAt, FlipChosen, Pick, Advance;
    SentParts(m, p, d);
    StandardBytes(m.standard, d.standard, p, Advance(m.msgNo, 1), false, i);
  }

  lemma SentOrDamaged(m: Manager, p: seq<byte>, d: Draws)
    requires |p| > 0 && |d.standard| >= |m.standard| && FlipBits !in m.standard && Send(m, p, d).1 != []
    ensures Send(m, p, d).1 == [if FlipChosen(m, d) then Flip(p, Pick(|p|, d.flip)) else p]
    ensures Flip(p, Pick(|p|, d.flip)) != p
  {
    hide *;
    StandardKeepsBytes(m.standard, d.standard, p, Advance(m.msgNo, 1), false);
    SentParts(m, p, d);
    FlipChanges(p, Pick(|p|, d.flip));
  }

  // Without standard flips, something other than the packet is put on the network exactly
  // when no standard event drops its number and the draws choose a random flip.
  lemma DamagedExactlyWhen(m: Manager, p: seq<byte>, d: Draws)
    requires |p| > 0 && |d.standard| >= |m.standard| && FlipBits !in m.standard
    ensures var n := if m.msgNo == 0xFFFF_FFFF then 0 else m.msgNo + 1;
      (exists q :: q in Send(m, p, d).1 && q != p) <==>
        && (forall i :: 0 <= i < |m.standard| ==> !Discards(m.standard[i], n))
        && |m.chance| > 0 && d.rate <= m.rate && m.chance[Pick(|m.chance|, d.pick)] == FlipBits
  {
    hide Send, Pick, Flip;
    LostExactlyWhen(m, p, d);
    var out := Send(m, p, d).1;
    if out != [] {
      SentOrDamaged(m, p, d);
      assert out[0] in out;
    }
  }

  // One byte of it is then wrong, in every bit: the one drawn.
  lemma DamagedByte(m: Manager, p: seq<byte>, d: Draws, q: seq<byte>)
    requires |p| > 0 && |d.standard| >= |m.standard| && FlipBits !in m.standard
    requires q in Send(m, p, d).1 && q != p
    ensures Send(m, p, d).1 == [q] && |q| == |p|
    ensures var at := Pick(|p|, d.flip);
      && q[at] == ((p[at] as bv8) ^ 0xFF) as int != p[at]
      && forall i :: 0 <= i < |p| && i != at ==> q[i] == p[i]
  {
    hide *;
    SentOrDamaged(m, p, d);
    FlipIsXor(p, Pick(|p|, d.flip));
  }

  // At most one random event runs per send and flips are only ever random events
  // (a standard flip is commented out), so a packet that verifies is lost, arrives
  // intact, or arrives not verifying.
  lemma ChannelRefinement(g: Endian, m: Manager, p: seq<byte>, d: Draws)
    requires |p| > 0 && |d.standard| >= |m.standard| && FlipBits !in m.standard
    requires Cksum(g, p) == 0
    ensures var out := Send(m, p, d).1;
      out == [] || out == [p] || (|out| == 1 && |out[0]| == |p| && Cksum(g, out[0]) != 0)
  {
    var n := Advance(m.msgNo, 1);
    StandardKeepsBytes(m.standard, d.standard, p, n, false);
    var i := Pick(|p|, d.flip);
    ByteChangeDetected(g, p, i, 0xFF - p[i]);
  }

  // With a flip among the standard events a second flip can cancel the first one
  // in the sum: the packet arrives changed and still verifies.
  lemma StandardFlipEscapes(g: Endian, no: u32)
    ensures var m := Manager([FlipBits], [FlipBits], 1.0, no);
      var p := [0, 0, 0xFF, 0xFF];
      var out := Send(m, p, Draws(0.0, 0.0, 0.5, [0.0])).1;
      Cksum(g, p) == 0 && |out| == 1 && out[0] != p && Cksum(g, out[0]) == 0
  {
    var p, q, r := [0, 0, 0xFF, 0xFF], [0xFF, 0, 0xFF, 0xFF], [0xFF, 0, 0, 0xFF];
    assert Flip(p, 0) == q && Flip(q, 2) == r;
    assert RunAll([FlipBits], [0.0], p, Advance(no, 1), false).1 == q;
    assert p[2..] == [0xFF, 0xFF] && r[2..] == [0, 0xFF];
    assert p[2..][2..] == [] && r[2..][2..] == [];
  }

  // ---------------------------------------------------------------------------
  // Whole runs of sends.
  // ---------------------------------------------------------------------------

  predicate Drawn(m: Manager, ps: seq<seq<byte>>, ds: seq<Draws>) {
    && |ds| == |ps|
    && forall i :: 0 <= i < |ps| ==> |ps[i]| > 0 && |ds[i].standard| >= |m.standard|
  }

  function SendRun(m: Manager, ps: seq<seq<byte>>, ds: seq<Draws>): (out: (Manager, seq<seq<byte>>))
    requires Drawn(m, ps, ds)
    ensures out.0.(msgNo := m.msgNo) == m
  {
    if ps == [] then (m, [])
    else
      var k := |ps| - 1;
      var (m1, sent) := SendRun(m, ps[..k], ds[..k]);
      var (m2, last) := Send(m1, ps[k], ds[k]);
      (m2, sent + last)
  }

  // The number the i-th send of a run carries (m_MsgNo is incremented first).
  function MsgNoOf(m: Manager, i: nat): (n: u32)
    ensures n == (m.msgNo + i + 1) % 0x1_0000_0000
  {
    Advance(m.msgNo, i + 1)
  }

  // Which of the first n sends survive a drop list, in order.
  function Survivors(m: Manager, n: nat, list: seq<u32>): (idx: seq<nat>)
    ensures forall a :: 0 <= a < |idx| ==> idx[a] < n
    ensures forall a, b :: 0 <= a < b < |idx| ==> idx[a] < idx[b]
    ensures forall i: nat :: i < n ==> (i in idx <==> (m.msgNo + i + 1) % 0x1_0000_0000 !in list)
    ensures m.msgNo + n < 0x1_0000_0000 ==> forall i: nat :: i < n ==> (i in idx <==> m.msgNo + i + 1 !in list)
  {
    if n == 0 then []
    else
      var idx := Survivors(m, n - 1, list);
      if MsgNoOf(m, n - 1) in list then idx else idx + [n - 1]
  }

  function Select(ps: seq<seq<byte>>, idx: seq<nat>): (r: seq<seq<byte>>)
    requires forall a :: 0 <= a < |idx| ==> idx[a] < |ps|
    ensures |r| == |idx| && forall a :: 0 <= a < |idx| ==> r[a] == ps[idx[a]]
  {
    seq(|idx|, a requires 0 <= a < |idx| => ps[idx[a]])
  }

  lemma {:induction false} RunCounts(m: Manager, ps: seq<seq<byte>>, ds: seq<Draws>)
    requires Drawn(m, ps, ds)
    ensures SendRun(m, ps, ds).0 == m.(msgNo := (m.msgNo + |ps|) % 0x1_0000_0000)
  {
    if ps != [] {
      RunCounts(m, ps[..|ps| - 1], ds[..|ps| - 1]);
      AdvanceMore(m.msgNo, |ps| - 1);
    }
  }

  // Standard events that only count messages or drop listed ones, and the numbers listed.
  predicate OnlyLists(ks: seq<Kind>) {
    forall i :: 0 <= i < |ks| ==> ks[i].Info? || (ks[i].Drop? && !ks[i].all)
  }

  function Listed(ks: seq<Kind>): (r: seq<u32>)
    ensures forall n :: n in r <==> exists k :: k in ks && k.Drop? && n in k.list
  {
    if ks == [] then [] else (if ks[0].Drop? then ks[0].list else []) + Listed(ks[1..])
  }

  // With such events and no random ones, exactly the sends whose message number is not
  // listed arrive, unchanged and in order.
  lemma {:induction false} DropListDelivery(m: Manager, ps: seq<seq<byte>>, ds: seq<Draws>)
    requires Drawn(m, ps, ds) && OnlyLists(m.standard) && m.chance == []
    ensures SendRun(m, ps, ds).1 == Select(ps, Survivors(m, |ps|, Listed(m.standard)))
  {
    hide Survivors, Select, Listed, Send;
    if ps == [] {
      NoSurvivors(m, ps, Listed(m.standard));
    } else {
      var k, list := |ps| - 1, Listed(m.standard);
      var m1 := SendRun(m, ps[..k], ds[..k]).0;
      DropListDelivery(m, ps[..k], ds[..k]);
      RunCounts(m, ps[..k], ds[..k]);
      AdvanceMore(m.msgNo, k);
      var last := Send(m1, ps[k], ds[k]).1;
      assert last == if MsgNoOf(m, k) in list then [] else [ps[k]] by {
        DropListSend(m1, ps[k], ds[k]);
      }
      SelectMore(ps, Survivors(m, k, list), k);
      SurvivorsMore(m, k, list);
    }
  }

  // Message i of a run that starts at number c, short of the wrap, is dropped exactly when
  // c + i + 1 is in some drop event's list.
  lemma DropListByNumber(m: Manager, ps: seq<seq<byte>>, ds: seq<Draws>, i: nat)
    requires Drawn(m, ps, ds) && OnlyLists(m.standard) && m.chance == []
    requires m.msgNo + |ps| < 0x1_0000_0000 && i < |ps|
    ensures var listed := exists k :: k in m.standard && k.Drop? && m.msgNo + i + 1 in k.list;
      SendRun(m, ps[..i + 1], ds[..i + 1]).1 ==
        SendRun(m, ps[..i], ds[..i]).1 + if listed then [] else [ps[i]]
  {
    hide Send, SendRun, Listed, Advance;
    var m1 := SendRun(m, ps[..i], ds[..i]).0;
    SendRunMore(m, ps, ds, i);
    RunCounts(m, ps[..i], ds[..i]);
    AdvanceOnce(m1.msgNo);
    DropListSend(m1, ps[i], ds[i]);
  }

  lemma SendRunMore(m: Manager, ps: seq<seq<byte>>, ds: seq<Draws>, i: nat)
    requires Drawn(m, ps, ds) && i < |ps|
    ensures Drawn(m, ps[..i], ds[..i]) && Drawn(m, ps[..i + 1], ds[..i + 1])
    ensures var front := SendRun(m, ps[..i], ds[..i]);
      SendRun(m, ps[..i + 1], ds[..i + 1]).1 == front.1 + Send(front.0, ps[i], ds[i]).1
  {
    hide Send;
    var ps', ds' := ps[..i + 1], ds[..i + 1];
    assert ps'[..i] == ps[..i] && ds'[..i] == ds[..i] && |ps'| - 1 == i;
    assert ps'[i] == ps[i] && ds'[i] == ds[i];
  }

  lemma NoSurvivors(m: Manager, ps: seq<seq<byte>>, list: seq<u32>)
    ensures Select(ps, Survivors(m, 0, list)) == []
  {
  }

  lemma SurvivorsMore(m: Manager, n: nat, list: seq<u32>)
    ensures Survivors(m, n + 1, list) == Survivors(m, n, list) + if MsgNoOf(m, n) in list then [] else [n]
  {
  }

  lemma SelectMore(ps: seq<seq<byte>>, idx: seq<nat>, k: nat)
    requires k == |ps| - 1 && forall a :: 0 <= a < |idx| ==> idx[a] < k
    ensures Select(ps, idx) == Select(ps[..k], idx)
    ensures Select(ps, idx + [k]) == Select(ps[..k], idx) + [ps[k]]
  {
  }

  lemma {:induction false} ListsDrop(ks: seq<Kind>, rs: seq<unit>, p: seq<byte>, msgNo: u32)
    requires OnlyLists(ks) && |p| > 0 && |rs| >= |ks|
    ensures RunAll(ks, rs, p, msgNo, false) == (if msgNo in Listed(ks) then 2 else 0, p)
  {
    if ks != [] {
      ListsDrop(ks[1..], rs[1..], p, msgNo);
    }
  }

  lemma DropListSend(m: Manager, p: seq<byte>, d: Draws)
    requires |p| > 0 && OnlyLists(m.standard) && m.chance == [] && |d.standard| >= |m.standard|
    ensures var n := Advance(m.msgNo, 1);
      Send(m, p, d) == (m.(msgNo := n), if n in Listed(m.standard) then [] else [p])
  {
    ListsDrop(m.standard, d.standard, p, Advance(m.msgNo, 1));
  }

  // Each packet in turn is lost, or is on the wire as it was, or damaged so that host g
  // will see it.
  predicate Delivered(g: Endian, ps: seq<seq<byte>>, wire: seq<seq<byte>>) {
    if ps == [] then wire == []
    else
      var k, n := |ps| - 1, |wire| - 1;
      || Delivered(g, ps[..k], wire)
      || (n >= 0 && Delivered(g, ps[..k], wire[..n])
          && (wire[n] == ps[k] || (|wire[n]| == |ps[k]| && Cksum(g, wire[n]) != 0)))
  }

  // What a run puts on the wire, for senders without standard flips.
  lemma {:induction false} RunRefinement(g: Endian, m: Manager, ps: seq<seq<byte>>, ds: seq<Draws>)
    requires Drawn(m, ps, ds) && FlipBits !in m.standard
    requires forall p :: p in ps ==> Cksum(g, p) == 0
    ensures Delivered(g, ps, SendRun(m, ps, ds).1)
  {
    hide Send, Cksum;
    if ps != [] {
      var k := |ps| - 1;
      RunRefinement(g, m, ps[..k], ds[..k]);
      var (m1, sent) := SendRun(m, ps[..k], ds[..k]);
      ChannelRefinement(g, m1, ps[k], ds[k]);
      var last := Send(m1, ps[k], ds[k]).1;
      if last == [] {
        assert sent + last == sent;
      } else {
        assert (sent + last)[..|sent|] == sent && (sent + last)[|sent|] == last[0];
      }
    }
  }

  // Without flips, standard or random, nothing else.
  lemma {:induction false} RunKeepsBytes(m: Manager, ps: seq<seq<byte>>, ds: seq<Draws>)
    requires Drawn(m, ps, ds) && FlipBits !in m.standard && FlipBits !in m.chance
    ensures forall q :: q in SendRun(m, ps, ds).1 ==> q in ps
  {
    hide Send;
    if ps != [] {
      var k := |ps| - 1;
      RunKeepsBytes(m, ps[..k], ds[..k]);
      var (m1, sent) := SendRun(m, ps[..k], ds[..k]);
      SendKeepsBytes(m1, ps[k], ds[k]);
      var last := Send(m1, ps[k], ds[k]).1;
      assert forall q :: q in ps[..k] || q == ps[k] ==> q in ps;
      assert forall q :: q in sent + last ==> q in sent || q in last;
    }
  }

  lemma SendKeepsBytes(m: Manager, p: seq<byte>, d: Draws)
    requires |p| > 0 && |d.standard| >= |m.standard| && FlipBits !in m.standard && FlipBits !in m.chance
    ensures Send(m, p, d).1 == [] || Send(m, p, d).1 == [p]
  {
    StandardKeepsBytes(m.standard, d.standard, p, Advance(m.msgNo, 1), false);
  }

  lemma {:induction false} DeliveredFacts(g: Endian, ps: seq<seq<byte>>, wire: seq<seq<byte>>)
    requires Delivered(g, ps, wire)
    ensures forall q :: q in wire ==> q in ps || (Cksum(g, q) != 0 && exists p :: p in ps && |p| == |q|)
    ensures ps == [] ==> wire == []
  {
    hide Cksum;
    if ps != [] {
      var k, n := |ps| - 1, |wire| - 1;
      assert ps[k] in ps;
      if Delivered(g, ps[..k], wire) {
        DeliveredFacts(g, ps[..k], wire);
      } else {
        DeliveredFacts(g, ps[..k], wire[..n]);
        assert wire == wire[..n] + [wire[n]];
      }
    }
  }

  // ---------------------------------------------------------------------------
  // Which set-ups can let a packet through.
  // ---------------------------------------------------------------------------

  // A message with number n can get through unchanged: no standard event touches it, and
  // the draws can keep the random events off or choose one that does nothing to it.
  predicate CanPass(m: Manager, n: u32) {
    && (forall i :: 0 <= i < |m.standard| ==> m.standard[i] != FlipBits && !Discards(m.standard[i], n))
    && (m.chance == [] || m.rate < 1.0
        || exists i :: 0 <= i < |m.chance| && m.chance[i] != FlipBits && !Discards(m.chance[i], n))
  }

  // A draw of drand48() that picks a given event.
  function PickDraw(n: nat, i: nat): (r: unit)
    requires i < n
    ensures Pick(n, r) == i
  {
    Ratio(i as real, n as real);
    i as real / n as real
  }

  lemma Ratio(x: real, y: real)
    requires 0.0 <= x < y
    ensures 0.0 <= x / y < 1.0 && y * (x / y) == x
  {
  }

  function HighDraw(rate: real): (r: unit)
    requires rate < 1.0
    ensures r > rate
  {
    if rate < 0.0 then 0.0 else (rate + 1.0) / 2.0
  }

  function HighDrawOr(rate: real): unit {
    if rate < 1.0 then HighDraw(rate) else 0.0
  }

  lemma Passes(m: Manager, p: seq<byte>) returns (d: Draws)
    requires |p| > 0 && CanPass(m, Advance(m.msgNo, 1))
    ensures |d.standard| >= |m.standard| && Send(m, p, d) == (m.(msgNo := Advance(m.msgNo, 1)), [p])
  {
    var n := Advance(m.msgNo, 1);
    var i: nat := 0;
    if |m.chance| > 0 && m.rate >= 1.0 {
      i :| 0 <= i < |m.chance| && m.chance[i] != FlipBits && !Discards(m.chance[i], n);
    }
    var pick := if i < |m.chance| then PickDraw(|m.chance|, i) else 0.0;
    d := Draws(HighDrawOr(m.rate), pick, 0.0, seq(|m.standard|, _ => 0.0));
    assert FlipBits !in m.standard;
    StandardKeepsBytes(m.standard, d.standard, p, n, false);
    StandardDrops(m.standard, d.standard, p, n, false);
  }

  lemma FlipChanges(p: seq<byte>, i: nat)
    requires i < |p|
    ensures Flip(p, i) != p
  {
    assert Flip(p, i)[i] == 0xFF - p[i];
  }

  lemma PassesExactly(m: Manager, p: seq<byte>)
    requires |p| > 0 && FlipBits !in m.standard
    ensures (exists d: Draws :: |d.standard| >= |m.standard| && Send(m, p, d).1 == [p])
      <==> CanPass(m, Advance(m.msgNo, 1))
  {
    var n := Advance(m.msgNo, 1);
    if CanPass(m, n) {
      var d := Passes(m, p);
    }
    forall d: Draws | |d.standard| >= |m.standard| && Send(m, p, d).1 == [p]
      ensures CanPass(m, n)
    {
      LostExactlyWhen(m, p, d);
      StandardKeepsBytes(m.standard, d.standard, p, n, false);
      FlipChanges(p, Pick(|p|, d.flip));
      assert forall i :: 0 <= i < |m.standard| ==> m.standard[i] in m.standard;
      if m.chance != [] && m.rate >= 1.0 {
        var i := Pick(|m.chance|, d.pick);
        assert m.chance[i] != FlipBits && !Discards(m.chance[i], n);
      }
    }
  }

  // The set-up can let every message through, or none.
  ghost predicate Delivers(m: Manager) {
    forall n: u32 :: CanPass(m, n)
  }

  ghost predicate Mute(m: Manager) {
    forall n: u32 :: !CanPass(m, n)
  }

  // It can let the next n messages through.
  ghost predicate ClearFor(m: Manager, n: nat) {
    forall i: nat :: i < n ==> CanPass(m, MsgNoOf(m, i))
  }

  lemma ClearForLess(m: Manager, n: nat, less: nat)
    requires ClearFor(m, n) && less <= n
    ensures ClearFor(m, less)
  {
    hide CanPass;
  }

  lemma DeliversIsClear(m: Manager, n: nat)
    requires Delivers(m)
    ensures ClearFor(m, n)
  {
    hide CanPass;
  }

  // A drop list whose numbers the manager has passed does no harm before they come round.
  lemma PassedListIsClear(m: Manager, n: nat)
    requires OnlyLists(m.standard) && (m.chance == [] || m.rate < 1.0)
    requires forall i :: 0 <= i < |Listed(m.standard)| ==> Listed(m.standard)[i] <= m.msgNo
    requires m.msgNo + n < 0x1_0000_0000
    ensures ClearFor(m, n)
  {
    hide Listed;
    forall i: nat | i < n
      ensures CanPass(m, MsgNoOf(m, i))
    {
      assert MsgNoOf(m, i) == m.msgNo + i + 1;
      assert MsgNoOf(m, i) !in Listed(m.standard);
      NotListed(m.standard, MsgNoOf(m, i));
    }
  }

  lemma {:induction false} NotListed(ks: seq<Kind>, n: u32)
    requires OnlyLists(ks) && n !in Listed(ks)
    ensures forall i :: 0 <= i < |ks| ==> ks[i] != FlipBits && !Discards(ks[i], n)
  {
    if ks != [] {
      NotListed(ks[1..], n);
      assert forall i :: 0 < i < |ks| ==> ks[i] == ks[1..][i - 1];
    }
  }

  predicate SameSetUp(m: Manager, m': Manager) {
    m' == m.(msgNo := m'.msgNo)
  }

  lemma PassesLater(m: Manager, m': Manager, n: u32)
    requires SameSetUp(m, m')
    ensures CanPass(m', n) <==> CanPass(m, n)
    ensures Mute(m) ==> !CanPass(m', n)
  {
  }

  lemma AdvanceTwice(n: u32, j: nat, k: nat)
    ensures Advance(Advance(n, j), k) == Advance(n, j + k)
  {
    var M := 0x1_0000_0000;
    assert n + j == M * ((n + j) / M) + (n + j) % M;
    assert (n + j) % M + k + M * ((n + j) / M) == n + j + k;
    SameRest((n + j) % M + k, (n + j) / M);
  }

  lemma SameRest(a: nat, q: nat)
    ensures (a + 0x1_0000_0000 * q) % 0x1_0000_0000 == a % 0x1_0000_0000
  {
  }

  lemma ClearLater(m: Manager, m': Manager, n: nat, done: nat)
    requires ClearFor(m, n) && done <= n && m' == m.(msgNo := Advance(m.msgNo, done))
    ensures ClearFor(m', n - done)
  {
    hide CanPass;
    forall i: nat | i < n - done
      ensures CanPass(m', MsgNoOf(m', i))
    {
      AdvanceTwice(m.msgNo, done, i + 1);
      assert MsgNoOf(m', i) == MsgNoOf(m, done + i) && CanPass(m, MsgNoOf(m, done + i));
      PassesLater(m, m', MsgNoOf(m', i));
    }
  }

  // A run of sends that all get through.
  lemma {:induction false} RunPasses(m: Manager, ps: seq<seq<byte>>, n: nat) returns (ds: seq<Draws>)
    requires ClearFor(m, n) && |ps| <= n && forall p :: p in ps ==> |p| > 0
    ensures Drawn(m, ps, ds)
    ensures SendRun(m, ps, ds).1 == ps && SendRun(m, ps, ds).0 == m.(msgNo := Advance(m.msgNo, |ps|))
    ensures ClearFor(SendRun(m, ps, ds).0, n - |ps|)
  {
    hide Send, CanPass;
    if ps == [] {
      ds := [];
    } else {
      var k := |ps| - 1;
      var front := RunPasses(m, ps[..k], n);
      var m1 := SendRun(m, ps[..k], front).0;
      assert CanPass(m1, MsgNoOf(m1, 0));
      var d := Passes(m1, ps[k]);
      ds := front + [d];
      assert ds[..k] == front;
      AdvanceMore(m.msgNo, k);
      ClearLater(m, SendRun(m, ps, ds).0, n, |ps|);
    }
  }

  lemma {:induction false} MuteRun(g: Endian, m: Manager, ps: seq<seq<byte>>, ds: seq<Draws>)
    requires Mute(m) && Drawn(m, ps, ds) && FlipBits !in m.standard
    requires forall p :: p in ps ==> Cksum(g, p) == 0
    ensures forall q :: q in SendRun(m, ps, ds).1 ==> Cksum(g, q) != 0
    ensures SameSetUp(m, SendRun(m, ps, ds).0)
  {
    if ps != [] {
      var k := |ps| - 1;
      MuteRun(g, m, ps[..k], ds[..k]);
      var m1 := SendRun(m, ps[..k], ds[..k]).0;
      assert ps[k] in ps;
      ChannelRefinement(g, m1, ps[k], ds[k]);
      PassesExactly(m1, ps[k]);
      PassesLater(m, m1, Advance(m1.msgNo, 1));
    }
  }
}
