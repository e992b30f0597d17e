// rcopy.c and server.c: the packet that carries the file name, the buffer size and the
// window size, its two encoders, and the server's decoder.
module FilenamePacket {
  import opened Bytes
  import opened Checksum
  import opened Pdu
  import S = Server

  const FNAME: byte := 8

  // A C string without its terminator.
  type Name = s: seq<byte> | 0 !in s

  // uint8_t filename_length = strlen(filename)
  function Length(name: Name): byte {
    |name| % 0x100
  }

  function Fields(name: Name, size: seq<byte>, window: seq<byte>): seq<byte> {
    [Length(name)] + name[..Length(name)] + size + window
  }

  // createFilenamePacket: both numbers go through htons and htonl.
  function Packet(h: Endian, name: Name, size: u16, window: u32): (p: seq<byte>)
    ensures |p| == Length(name) + 2 * HEADER
  {
    Build(h, Fields(name, Mem16(h, Htons(h, size)), Mem32(h, Htonl(h, window))), 0, FNAME)
  }

  // createFilenameData and the createPDU call after it: no swaps, and the whole string
  // length decides how much of the zeroed buffer is sent.  A longer name would not fit.
  predicate Fits(name: Name) {
    |name| + 2 * HEADER <= MAX_PDU + 1
  }

  // recvfrom keeps what fits in the server's buffer.
  function Arrived(p: seq<byte>): Packet {
    if |p| <= MAX_PDU then p else p[..MAX_PDU]
  }

  function LivePacket(h: Endian, name: Name, size: u16, window: u32): (p: seq<byte>)
    requires Fits(name)
    ensures |p| == |name| + 2 * HEADER
  {
    Build(h, Fields(name, Mem16(h, size), Mem32(h, window)) + S.Zeros(|name| - Length(name)), 0, FNAME)
  }

  datatype Request = Request(name: seq<byte>, size: u16, window: u32)

  // The bytes of a buffer up to its first NUL.
  function CString(s: seq<byte>): (c: seq<byte>)
    ensures c <= s && 0 !in c && (|c| < |s| ==> s[|c|] == 0)
  {
    if s == [] || s[0] == 0 then [] else [s[0]] + CString(s[1..])
  }

  // parseFilenamePacket, on the zero-filled receive buffer.
  function Parse(g: Endian, buffer: seq<byte>): Request
    requires |buffer| == MAX_PDU
  {
    var n := buffer[7];
    var size := Htons(g, Word(g, buffer[8 + n], buffer[9 + n]));
    Request(CString(buffer[8..8 + n]), size, Htonl(g, Load32(g, buffer[10 + n..])))
  }

  // In any packet: the name is what comes before the first NUL, or all of it, and both numbers
  // are read most significant byte first.
  lemma ParseReads(g: Endian, b: seq<byte>)
    requires |b| == MAX_PDU
    ensures var r, n := Parse(g, b), b[7] as int;
      && r.name <= b[8..8 + n] && 0 !in r.name && (|r.name| < n ==> b[8 + |r.name|] == 0)
      && r.size == Word(Big, b[8 + n], b[9 + n])
      && r.window == FromBe32(b[10 + n], b[11 + n], b[12 + n], b[13 + n])
  {
    hide Load32, Htonl, FromBe32;
    var n := b[7] as int;
    var w := b[10 + n..];
    assert w[0] == b[10 + n] && w[1] == b[11 + n] && w[2] == b[12 + n] && w[3] == b[13 + n];
    NetworkLoad(g, w);
  }

  method CreateFilenamePacket(h: Endian, packet: array<byte>, name: Name, size: u16, window: u32) returns (n: nat)
    requires packet.Length >= MAX_PDU
    modifies packet
    ensures n == Length(name) + 2 * HEADER && packet[..n] == Packet(h, name, size, window)
  {
    var payload := new byte[MAX_PDU](_ => 0);
    var len: nat := Length(name);
    var sizeWord, windowWord := Mem16(h, Htons(h, size)), Mem32(h, Htonl(h, window));
    ghost var zeros := payload[..];
    Memcpy(payload, 0, [Length(name)]);
    Memcpy(payload, 1, name[..len]);
    Memcpy(payload, 1 + len, sizeWord);
    Memcpy(payload, 3 + len, windowWord);
    PayloadSplices(zeros, [Length(name)], name[..len], sizeWord, windowWord);
    assert payload[..len + 7] == Fields(name, sizeWord, windowWord);
    n := CreatePDU(h, packet, payload[..len + 7], 0, FNAME);
  }

  lemma PayloadSplices(s: seq<byte>, a: seq<byte>, b: seq<byte>, c: seq<byte>, d: seq<byte>)
    requires |a| + |b| + |c| + |d| <= |s|
    ensures Splice(Splice(Splice(Splice(s, 0, a), |a|, b), |a| + |b|, c), |a| + |b| + |c|, d)
         == a + b + c + d + s[|a| + |b| + |c| + |d|..]
  {
    var n := |a| + |b| + |c|;
    assert Splice(s, 0, a) == a + s[|a|..];
    assert Splice(a + s[|a|..], |a|, b) == a + b + s[|a| + |b|..];
    assert Splice(a + b + s[|a| + |b|..], |a| + |b|, c) == a + b + c + s[n..];
    assert Splice(a + b + c + s[n..], n, d) == a + b + c + d + s[n + |d|..];
  }

  // createFilenameData into a zeroed buffer, and createPDU with the full string length.
  method CreateLivePacket(h: Endian, packet: array<byte>, name: Name, size: u16, window: u32) returns (n: nat)
    requires packet.Length == MAX_PDU + 1 && Fits(name)
    modifies packet
    ensures n == |name| + 2 * HEADER && packet[..n] == LivePacket(h, name, size, window)
  {
    hide Mem16, Mem32, Build;
    var data := new byte[MAX_PDU + 1](_ => 0);
    var len: nat := Length(name);
    var sizeWord, windowWord := Mem16(h, size), Mem32(h, window);
    ghost var zeros := data[..];
    Memcpy(data, 0, [Length(name)]);
    Memcpy(data, 1, name[..len]);
    Memcpy(data, 1 + len, sizeWord);
    Memcpy(data, 3 + len, windowWord);
    PayloadSplices(zeros, [Length(name)], name[..len], sizeWord, windowWord);
    ZeroTail(Fields(name, sizeWord, windowWord), zeros, data[..], |name| - len);
    n := CreatePDU(h, packet, data[..|name| + 7], 0, FNAME);
  }

  lemma ZeroTail(fields: seq<byte>, zeros: seq<byte>, s: seq<byte>, k: nat)
    requires |fields| + k <= |zeros| && s == fields + zeros[|fields|..]
    requires forall i :: 0 <= i < |zeros| ==> zeros[i] == 0
    ensures s[..|fields| + k] == fields + S.Zeros(k)
  {
  }

  // parseFilenamePacket up to the fopen call, which reads filename as a C string.
  method ParseFilenamePacket(g: Endian, packet: array<byte>) returns (request: Request)
    requires packet.Length == MAX_PDU
    ensures request == Parse(g, packet[..])
  {
    var filename := new byte[MAX_PDU](_ => 0);
    var length: nat := packet[7];
    ghost var zeros := filename[..];
    Memcpy(filename, 0, packet[8..8 + length]);
    var size := Htons(g, Word(g, packet[8 + length], packet[9 + length]));
    var window := Htonl(g, Load32(g, packet[10 + length..]));
    ParsedParts(g, packet[..], filename[..], zeros);
    request := Request(CString(filename[..]), size, window);
  }

  lemma ParsedParts(g: Endian, b: seq<byte>, filename: seq<byte>, zeros: seq<byte>)
    requires |b| == |zeros| == MAX_PDU && filename == Splice(zeros, 0, b[8..8 + b[7]])
    requires forall i :: 0 <= i < |zeros| ==> zeros[i] == 0
    ensures CString(filename) == CString(b[8..8 + b[7]])
  {
    var name := b[8..8 + b[7]];
    assert filename == name + zeros[|name|..];
    PaddedCString(name, zeros[|name|..]);
  }

  lemma {:induction false} PaddedCString(s: seq<byte>, zeros: seq<byte>)
    requires zeros != [] && zeros[0] == 0
    ensures CString(s + zeros) == CString(s)
  {
    if s != [] {
      assert (s + zeros)[1..] == s[1..] + zeros;
      PaddedCString(s[1..], zeros);
    }
  }

  lemma {:induction false} CStringOfName(s: seq<byte>)
    requires 0 !in s
    ensures CString(s) == s
  {
    if s != [] {
      CStringOfName(s[1..]);
    }
  }

  lemma FieldsAt(name: Name, size: seq<byte>, window: seq<byte>)
    requires |size| == 2 && |window| == 4
    ensures var f, n := Fields(name, size, window), Length(name) as nat;
      && |f| == n + 7 && f[0] == n && f[1..1 + n] == name[..n]
      && f[1 + n] == size[0] && f[2 + n] == size[1]
      && f[3 + n] == window[0] && f[4 + n] == window[1] && f[5 + n] == window[2] && f[6 + n] == window[3]
  {
    var n := Length(name) as nat;
    var g := [Length(name)] + name[..n];
    assert Fields(name, size, window) == g + size + window;
    assert Fields(name, size, window)[1..1 + n] == name[..n];
  }

  // The decoder reads back whatever follows the header, for any host.
  lemma ParseFields(g: Endian, p: seq<byte>, name: Name, size: seq<byte>, window: seq<byte>)
    requires |size| == 2 && |window| == 4 && HEADER + Length(name) + HEADER <= |p| <= MAX_PDU
    requires p[HEADER..HEADER + Length(name) + HEADER] == Fields(name, size, window)
    ensures Parse(g, S.Received(p)) == Request(
      name[..Length(name)], Htons(g, Word(g, size[0], size[1])), FromBe32(window[0], window[1], window[2], window[3]))
  {
    hide CString, Htons, Word, Load32, Htonl, Fields, FromBe32;
    var n, b, f := Length(name) as nat, S.Received(p), Fields(name, size, window);
    FieldsAt(name, size, window);
    assert b[HEADER..HEADER + n + HEADER] == f;
    forall i | 0 <= i < n + HEADER
      ensures b[HEADER + i] == f[i]
    {
      assert b[HEADER + i] == b[HEADER..HEADER + n + HEADER][i];
    }
    assert b[HEADER + 0] == f[0] && b[HEADER + (1 + n)] == f[1 + n] && b[HEADER + (2 + n)] == f[2 + n];
    assert b[8..8 + n] == f[1..1 + n];
    CStringOfName(name[..n]);
    var w := b[10 + n..];
    assert w[0] == b[HEADER + (3 + n)] && w[1] == b[HEADER + (4 + n)];
    assert w[2] == b[HEADER + (5 + n)] && w[3] == b[HEADER + (6 + n)];
    NetworkLoad(g, w);
  }

  // What a server of byte order g decodes from createFilenamePacket: the size and the
  // window always, and the name up to its length modulo 256.  The packet verifies.
  lemma Decodes(h: Endian, g: Endian, name: Name, size: u16, window: u32)
    ensures Parse(g, S.Received(Packet(h, name, size, window))) == Request(name[..Length(name)], size, window)
    ensures Cksum(g, Packet(h, name, size, window)) == 0
  {
    hide Cksum, Unsummed;
    var sz, wd := Mem16(h, Htons(h, size)), Mem32(h, Htonl(h, window));
    var p := Packet(h, name, size, window);
    assert p[HEADER..HEADER + Length(name) + HEADER] == p[HEADER..];
    ParseFields(g, p, name, sz, wd);
    Htons16Image(h, size);
    Htons16Read(g, size);
    NetworkImage(h, window);
    Be32Inverse(window);
    SelfVerifies(h, g, Fields(name, sz, wd), 0, FNAME);
  }

  lemma Htons16Read(g: Endian, v: u16)
    ensures var b := Mem16(Big, v); Htons(g, Word(g, b[0], b[1])) == v
  {
  }

  // So the round trip is exact for every name of at most 255 bytes, and for no longer one.
  lemma RoundTrip(h: Endian, g: Endian, name: Name, size: u16, window: u32)
    ensures Parse(g, S.Received(Packet(h, name, size, window))) == Request(name, size, window) <==> |name| <= 255
  {
    hide Parse, Packet, S.Received;
    Decodes(h, g, name, size, window);
    if |name| <= 255 {
      assert name[..Length(name)] == name;
    }
  }

  // Packet number 0, flag 8, and the length byte; the encoder in use also sends a zero for
  // each byte of the name that the length byte does not count.
  lemma RequestLayout(h: Endian, name: Name, size: u16, window: u32)
    ensures var p := Packet(h, name, size, window);
      p[..4] == [0, 0, 0, 0] && p[6] == 8 && p[7] as int == |name| % 256 && |p| == 14 + |name| % 256
    ensures Fits(name) ==>
      var p := LivePacket(h, name, size, window);
      && p[..4] == [0, 0, 0, 0] && p[6] == 8 && p[7] as int == |name| % 256 && |p| == 14 + |name|
      && forall i :: 14 + |name| % 256 <= i < |p| ==> p[i] == 0
  {
    hide Cksum, Mem16, Unsummed;
    var n := |name| % 256;
    assert Mem32(h, 0) == [0, 0, 0, 0];
    var a := Packet(h, name, size, window);
    assert a[7] == a[7..][0];
    if Fits(name) {
      var p, f := LivePacket(h, name, size, window), Fields(name, Mem16(h, size), Mem32(h, window));
      assert p[7..] == f + S.Zeros(|name| - n) && |f| == n + 7;
      assert p[7] == p[7..][0];
      forall i | 14 + n <= i < |p|
        ensures p[i] == 0
      {
        assert p[i] == p[7..][i - 7] == S.Zeros(|name| - n)[i - 14 - n];
      }
    }
  }

  // The encoder in use stores the numbers in host order: a little-endian client's come
  // out byte-reversed.
  lemma LiveDecodes(h: Endian, g: Endian, name: Name, size: u16, window: u32)
    requires Fits(name)
    ensures Parse(g, S.Received(Arrived(LivePacket(h, name, size, window)))) ==
      Request(name[..Length(name)], Htons(h, size), Htonl(h, window))
    ensures Cksum(g, LivePacket(h, name, size, window)) == 0
  {
    hide Cksum, Unsummed;
    var sz, wd := Mem16(h, size), Mem32(h, window);
    var data := Fields(name, sz, wd) + S.Zeros(|name| - Length(name));
    var p := LivePacket(h, name, size, window);
    assert p[HEADER..] == data;
    assert p[HEADER..HEADER + Length(name) + HEADER] == Fields(name, sz, wd);
    assert Arrived(p)[HEADER..HEADER + Length(name) + HEADER] == p[HEADER..HEADER + Length(name) + HEADER];
    ParseFields(g, Arrived(p), name, sz, wd);
    LiveNumbers(h, g, size, window);
    SelfVerifies(h, g, data, 0, FNAME);
  }

  lemma LiveNumbers(h: Endian, g: Endian, size: u16, window: u32)
    ensures var b := Mem16(h, size); Htons(g, Word(g, b[0], b[1])) == Htons(h, size)
    ensures var b := Mem32(h, window); FromBe32(b[0], b[1], b[2], b[3]) == Htonl(h, window)
  {
    Be32Inverse(window);
  }

  lemma SwapsTell(h: Endian, size: u16, window: u32)
    ensures Htons(h, size) == size <==> h.Big? || Swap16(size) == size
    ensures Htonl(h, window) == window <==> h.Big? || Swap32(window) == window
  {
  }

  // It round-trips exactly for names of at most 255 bytes from a big-endian client, or
  // with numbers that read the same in both byte orders.
  lemma LiveRoundTrip(h: Endian, g: Endian, name: Name, size: u16, window: u32)
    requires Fits(name)
    ensures Parse(g, S.Received(Arrived(LivePacket(h, name, size, window)))) == Request(name, size, window)
      <==> |name| <= 255 && (h.Big? || (Swap16(size) == size && Swap32(window) == window))
  {
    hide Parse, LivePacket, S.Received, Arrived, Htons, Htonl;
    LiveDecodes(h, g, name, size, window);
    SwapsTell(h, size, window);
    if |name| <= 255 {
      assert name[..Length(name)] == name;
    }
  }
}
