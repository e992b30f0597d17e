// helperfuncs.c: building a protocol data unit, and rcopyCBuffer.c's getPacketNum,
// which reads one.  Layout: packet number (4), checksum (2), flag (1), payload.
module Pdu {
  import opened Bytes
  import opened Checksum

  const MAX_PDU := 1407
  const HEADER := 7
  const DATA: byte := 16
  const RESENT: byte := 17
  const RR: byte := 5
  const SREJ: byte := 6
  const EOF: byte := 10
  const EOF_ACK: byte := 34

  type Packet = p: seq<byte> | |p| <= MAX_PDU

  // A PDU with its checksum field zeroed, and the finished one.
  function Unsummed(h: Endian, data: seq<byte>, packetNum: u32, flag: byte): seq<byte> {
    Mem32(h, packetNum) + [0, 0] + ([flag] + data)
  }

  function Build(h: Endian, data: seq<byte>, packetNum: u32, flag: byte): (p: seq<byte>)
    ensures |p| == HEADER + |data| && p[6] == flag && p[HEADER..] == data
    ensures p[..4] == Mem32(h, packetNum)
  {
    Mem32(h, packetNum) + Mem16(h, Cksum(h, Unsummed(h, data, packetNum, flag))) + ([flag] + data)
  }

  // getPacketNum: load the first four bytes and apply ntohl.
  function PacketNum(h: Endian, p: seq<byte>): u32
    requires |p| >= 4
  {
    Htonl(h, Load32(h, p))
  }

  // The client's acknowledgements: receive ready, selective reject, end of file.  The
  // packet number field is zero and the payload is the number in network order.
  datatype Ack = Rr(n: nat) | Srej(n: nat) | EofAck(n: nat) {
    function Flag(): byte {
      if Rr? then RR else if Srej? then SREJ else EOF_ACK
    }
  }

  predicate Fit(acks: seq<Ack>) {
    forall a :: a in acks ==> a.n < 0x1_0000_0000
  }

  function AckPdu(h: Endian, a: Ack): (p: seq<byte>)
    requires a.n < 0x1_0000_0000
    ensures |p| == 11
  {
    Build(h, Mem32(h, Htonl(h, a.n)), 0, a.Flag())
  }

  function AckPdus(h: Endian, acks: seq<Ack>): (ps: seq<seq<byte>>)
    requires Fit(acks)
    ensures |ps| == |acks| && forall i :: 0 <= i < |acks| ==> ps[i] == AckPdu(h, acks[i])
  {
    seq(|acks|, i requires 0 <= i < |acks| => AckPdu(h, acks[i]))
  }

  // memcpy into a buffer, at an offset.
  function Splice(s: seq<byte>, at: nat, src: seq<byte>): (r: seq<byte>)
    requires at + |src| <= |s|
    ensures |r| == |s|
  {
    s[..at] + src + s[at + |src|..]
  }

  lemma SpliceAt(s: seq<byte>, at: nat, src: seq<byte>, k: nat)
    requires at + |src| <= |s| && k < |s|
    ensures Splice(s, at, src)[k] == if at <= k < at + |src| then src[k - at] else s[k]
  {
  }

  method Memcpy(dst: array<byte>, at: nat, src: seq<byte>)
    requires at + |src| <= dst.Length
    modifies dst
    ensures dst[..] == Splice(old(dst[..]), at, src)
  {
    ghost var was := dst[..];
    for i := 0 to |src|
      invariant forall j :: 0 <= j < dst.Length ==> dst[j] == if at <= j < at + i then src[j - at] else was[j]
    {
      dst[at + i] := src[i];
    }
  }

  lemma HeaderSplices(s: seq<byte>, num: seq<byte>, field: seq<byte>, flag: byte, data: seq<byte>)
    requires |num| == 4 && |field| == 2 && |s| >= HEADER + |data|
    ensures Splice(Splice(Splice(Splice(s, 0, num), 4, field), 6, [flag]), 7, data)
         == num + field + ([flag] + data) + s[HEADER + |data|..]
  {
    assert Splice(s, 0, num) == num + s[4..];
    assert Splice(num + s[4..], 4, field) == num + field + s[6..];
    assert Splice(num + field + s[6..], 6, [flag]) == num + field + [flag] + s[7..];
    assert Splice(num + field + [flag] + s[7..], 7, data) == num + field + [flag] + data + s[7 + |data|..];
  }

  lemma FieldSplice(num: seq<byte>, was: seq<byte>, field: seq<byte>, rest: seq<byte>, tail: seq<byte>)
    requires |num| == 4 && |field| == |was| == 2
    ensures Splice(num + was + rest + tail, 4, field) == num + field + rest + tail
    ensures (num + was + rest + tail)[..6 + |rest|] == num + was + rest
  {
  }

  // createPDU.  packet_num is copied as it stands in memory: callers are expected
  // to pass it through htonl first.
  method CreatePDU(h: Endian, pdu: array<byte>, data: seq<byte>, packetNum: u32, flag: byte) returns (n: nat)
    requires |data| + HEADER <= pdu.Length && |data| + HEADER <= 65536
    modifies pdu
    ensures n == |data| + HEADER
    ensures pdu[..] == Build(h, data, packetNum, flag) + old(pdu[n..])
  {
    n := |data| + HEADER;
    ghost var was := pdu[..];
    var num := Mem32(h, packetNum);
    Memcpy(pdu, 0, num);
    Memcpy(pdu, 4, [0, 0]);
    Memcpy(pdu, 6, [flag]);
    Memcpy(pdu, 7, data);
    HeaderSplices(was, num, [0, 0], flag, data);
    var checksum := Sum(h, pdu, n, Unsummed(h, data, packetNum, flag), was[n..]);
    FieldSplice(num, [0, 0], Mem16(h, checksum), [flag] + data, was[n..]);
    Memcpy(pdu, 4, Mem16(h, checksum));
  }

  // in_cksum over the first n bytes of a buffer that starts with s.
  method Sum(h: Endian, pdu: array<byte>, n: nat, ghost s: seq<byte>, ghost rest: seq<byte>) returns (c: u16)
    requires pdu[..] == s + rest && |s| == n <= 65536
    ensures c == Cksum(h, s)
  {
    assert pdu[..n] == s;
    c := InCksum(h, pdu, n);
  }

  // ---------------------------------------------------------------------------
  // Every PDU verifies, on hosts of both byte orders.
  // ---------------------------------------------------------------------------

  lemma WordSumOfPdu(h: Endian, head: seq<byte>, field: seq<byte>, rest: seq<byte>)
    requires |head| == 4 && |field| == 2
    ensures WordSum(h, head + field + rest) == WordSum(h, head) + Word(h, field[0], field[1]) + WordSum(h, rest)
  {
    WordSumConcat(h, head + field, rest);
    WordSumConcat(h, head, field);
  }

  // A sum and the complement of its representative close to 65535.
  lemma ComplementCloses(n: nat)
    ensures Rep(n + (0xFFFF - Rep(n))) == 0xFFFF
  {
  }

  lemma ChecksumFieldCloses(h: Endian, num: seq<byte>, rest: seq<byte>, c: u16)
    requires |num| == 4 && c == Cksum(h, num + [0, 0] + rest)
    ensures Cksum(h, num + Mem16(h, c) + rest) == 0
  {
    var zeroed, p := num + [0, 0] + rest, num + Mem16(h, c) + rest;
    WordSumOfPdu(h, num, [0, 0], rest);
    WordSumOfPdu(h, num, Mem16(h, c), rest);
    OnesSumIsRep(h, zeroed);
    OnesSumIsRep(h, p);
    ComplementCloses(WordSum(h, zeroed));
  }

  // The checksum field of a PDU holds the checksum of the PDU with that field zeroed.
  lemma ChecksumField(h: Endian, data: seq<byte>, packetNum: u32, flag: byte)
    ensures var p := Build(h, data, packetNum, flag);
      p[4..6] == Mem16(h, Cksum(h, p[..4] + [0, 0] + p[6..]))
  {
    hide Cksum, Mem16, Mem32;
    var p := Build(h, data, packetNum, flag);
    assert p[6..] == [flag] + data;
  }

  lemma SelfVerifies(h: Endian, g: Endian, data: seq<byte>, packetNum: u32, flag: byte)
    ensures Cksum(g, Build(h, data, packetNum, flag)) == 0
  {
    var c := Cksum(h, Unsummed(h, data, packetNum, flag));
    ChecksumFieldCloses(h, Mem32(h, packetNum), [flag] + data, c);
    ByteOrderIndependence(h, g, Build(h, data, packetNum, flag));
  }

  // A receiver of either byte order reads back the number that the sender put
  // through htonl.
  lemma NumberRoundTrip(h: Endian, g: Endian, data: seq<byte>, n: u32, flag: byte)
    ensures PacketNum(g, Build(h, data, Htonl(h, n), flag)) == n
  {
    var p := Build(h, data, Htonl(h, n), flag);
    NetworkImage(h, n);
    NetworkLoad(g, p);
    Be32Inverse(n);
    assert p[..4] == Be32(n);
    assert p[0] == p[..4][0] && p[1] == p[..4][1] && p[2] == p[..4][2] && p[3] == p[..4][3];
  }
}
