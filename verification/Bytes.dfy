// Machine bytes and words, and the two orders in which a host can lay a word
// out in memory.  Every memcpy of a 16 or 32 bit variable in the program goes
// through a memory image; htonl and ntohl are byte swaps on a little-endian host
// and nothing on a big-endian one.
module Bytes {
  type byte = x: int | 0 <= x < 0x100
  type u16 = x: int | 0 <= x < 0x1_0000
  type u32 = x: int | 0 <= x < 0x1_0000_0000
  type i32 = x: int | -0x8000_0000 <= x < 0x8000_0000

  datatype Option<+T> = None | Some(value: T)

  datatype Endian = Little | Big

  // The 16-bit word a host reads from two adjacent bytes.
  function Word(h: Endian, b0: byte, b1: byte): u16 {
    if h.Little? then b0 + 0x100 * b1 else 0x100 * b0 + b1
  }

  // Memory image of a 16-bit variable.
  function Mem16(h: Endian, v: u16): (s: seq<byte>)
    ensures |s| == 2 && Word(h, s[0], s[1]) == v
  {
    if h.Little? then [v % 0x100, v / 0x100] else [v / 0x100, v % 0x100]
  }

  function Swap16(v: u16): u16 {
    0x100 * (v % 0x100) + v / 0x100
  }

  // Network order: most significant byte first.
  function Be32(v: u32): (s: seq<byte>)
    ensures |s| == 4
  {
    [v / 0x100 / 0x100 / 0x100, v / 0x100 / 0x100 % 0x100, v / 0x100 % 0x100, v % 0x100]
  }

  function FromBe32(b0: byte, b1: byte, b2: byte, b3: byte): u32 {
    0x100_0000 * b0 + 0x1_0000 * b1 + 0x100 * b2 + b3
  }

  // Memory image of a 32-bit variable, and the load that undoes it.
  function Mem32(h: Endian, v: u32): (s: seq<byte>)
    ensures |s| == 4
  {
    var b := Be32(v);
    if h.Big? then b else [b[3], b[2], b[1], b[0]]
  }

  function Load32(h: Endian, s: seq<byte>): u32
    requires |s| >= 4
  {
    if h.Big? then FromBe32(s[0], s[1], s[2], s[3]) else FromBe32(s[3], s[2], s[1], s[0])
  }

  function Swap32(v: u32): u32 {
    var b := Be32(v);
    FromBe32(b[3], b[2], b[1], b[0])
  }

  // htonl; ntohl is the same function.
  function Htonl(h: Endian, v: u32): u32 {
    if h.Big? then v else Swap32(v)
  }

  function Htons(h: Endian, v: u16): u16 {
    if h.Big? then v else Swap16(v)
  }

  // The first byte counts most, and a little-endian host stores it last.
  lemma NetworkOrder(v: u32)
    ensures var b := Be32(v);
      && v == 0x100_0000 * (b[0] as int) + 0x1_0000 * (b[1] as int) + 0x100 * (b[2] as int) + b[3]
      && Mem32(Big, v) == b && Mem32(Little, v) == [b[3], b[2], b[1], b[0]]
    ensures forall a: byte, b: byte :: Word(Big, a, b) == 0x100 * (a as int) + b == Word(Little, b, a)
  {
  }

  lemma Be32Inverse(v: u32)
    ensures var b := Be32(v); FromBe32(b[0], b[1], b[2], b[3]) == v
  {
  }

  lemma FromBe32Inverse(b0: byte, b1: byte, b2: byte, b3: byte)
    ensures Be32(FromBe32(b0, b1, b2, b3)) == [b0, b1, b2, b3]
  {
    var v := FromBe32(b0, b1, b2, b3);
    assert v / 0x100 == 0x1_0000 * b0 + 0x100 * b1 + b2;
    assert v / 0x100 / 0x100 == 0x100 * b0 + b1;
  }

  // Storing a variable that went through htonl always leaves the network order
  // in memory, whatever the host.
  lemma NetworkImage(h: Endian, v: u32)
    ensures Mem32(h, Htonl(h, v)) == Be32(v)
  {
    var b := Be32(v);
    FromBe32Inverse(b[3], b[2], b[1], b[0]);
  }

  // Loading four bytes and applying ntohl reads them as a network-order number.
  lemma NetworkLoad(h: Endian, s: seq<byte>)
    requires |s| >= 4
    ensures Htonl(h, Load32(h, s)) == FromBe32(s[0], s[1], s[2], s[3])
  {
    FromBe32Inverse(s[3], s[2], s[1], s[0]);
  }

  lemma Htons16Image(h: Endian, v: u16)
    ensures Mem16(h, Htons(h, v)) == Mem16(Big, v)
  {
  }

  // Two numbers less than size apart share a slot of a circular buffer only if equal.
  lemma SameSlot(p: nat, q: nat, size: nat)
    requires size > 0 && p % size == q % size && p < q + size && q < p + size
    ensures p == q
  {
    var d := p / size - q / size;
    assert p - q == size * d by {
      assert p == size * (p / size) + p % size;
      assert q == size * (q / size) + q % size;
    }
    Scaled(size, d);
  }

  lemma Scaled(size: nat, d: int)
    ensures d >= 1 ==> size * d >= size
    ensures d <= -1 ==> size * d + size <= 0
  {
  }
}
