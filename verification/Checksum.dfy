// libcpe464/checksum.c: the Internet checksum of RFC 1071.
module Checksum {
  import opened Bytes

  // ---------------------------------------------------------------------------
  // Section 1 of RFC 1071: 16-bit one's complement addition with end-around carry,
  // over adjacent pairs of bytes, an odd last byte being padded with a zero byte.
  // ---------------------------------------------------------------------------

  function OnesAdd(a: u16, b: u16): u16 {
    if a + b >= 0x1_0000 then a + b - 0xFFFF else a + b
  }

  function OnesSum(h: Endian, s: seq<byte>): u16 {
    if |s| == 0 then 0
    else if |s| == 1 then Word(h, s[0], 0)
    else OnesAdd(Word(h, s[0], s[1]), OnesSum(h, s[2..]))
  }

  function Cksum(h: Endian, s: seq<byte>): u16 {
    0xFFFF - OnesSum(h, s)
  }

  // An odd packet is summed as if a zero byte followed it.
  lemma {:induction false} OddPadding(h: Endian, s: seq<byte>)
    requires |s| % 2 == 1
    ensures Cksum(h, s + [0]) == Cksum(h, s)
  {
    if |s| > 1 {
      assert (s + [0])[2..] == s[2..] + [0];
      OddPadding(h, s[2..]);
    } else {
      assert s + [0] == [s[0], 0] && [s[0], 0][2..] == [];
      assert OnesSum(h, [s[0], 0]) == OnesAdd(Word(h, s[0], 0), 0);
    }
  }

  // The worked example of RFC 1071, section 3: the sum of these bytes is DDF2 in network
  // order, and F2DD on a host that reads them the other way round.
  lemma Rfc1071Example()
    ensures Cksum(Big, [0, 1, 0xF2, 3, 0xF4, 0xF5, 0xF6, 0xF7]) == 0xFFFF - 0xDDF2
    ensures Cksum(Little, [0, 1, 0xF2, 3, 0xF4, 0xF5, 0xF6, 0xF7]) == 0xFFFF - 0xF2DD
  {
    var s := [0, 1, 0xF2, 3, 0xF4, 0xF5, 0xF6, 0xF7];
    var t, u, v := s[2..], s[4..], s[6..];
    assert t[2..] == u && u[2..] == v && v[2..] == [];
    assert OnesSum(Big, v) == 0xF6F7 && OnesSum(Big, u) == 0xEBED && OnesSum(Big, t) == 0xDDF1;
    assert OnesSum(Little, v) == 0xF7F6 && OnesSum(Little, u) == 0xEDEB && OnesSum(Little, t) == 0xF1DD;
  }

  // ---------------------------------------------------------------------------
  // Deferred carries (RFC 1071, section 2(C)): a plain sum, reduced at the end.
  // ---------------------------------------------------------------------------

  function WordSum(h: Endian, s: seq<byte>): nat {
    if |s| == 0 then 0
    else if |s| == 1 then Word(h, s[0], 0)
    else Word(h, s[0], s[1]) + WordSum(h, s[2..])
  }

  // The 16-bit representative of a sum modulo 65535: zero only for a zero sum.
  function Rep(n: nat): u16 {
    if n == 0 then 0 else (n - 1) % 0xFFFF + 1
  }

  lemma RepIs(n: nat, q: nat, r: nat)
    requires n == 0xFFFF * q + r && 0 < r <= 0xFFFF
    ensures Rep(n) == r
  {
  }

  lemma RepAdd(w: u16, n: nat)
    ensures OnesAdd(w, Rep(n)) == Rep(w + n)
  {
    if n == 0 {
      if w > 0 {
        RepIs(w, 0, w);
      }
    } else {
      var q, r := (n - 1) / 0xFFFF, Rep(n);
      assert n == 0xFFFF * q + r;
      if w + r <= 0xFFFF {
        RepIs(w + n, q, w + r);
      } else {
        RepIs(w + n, q + 1, w + r - 0xFFFF);
      }
    }
  }

  // Carries may be added in at each step or all at the end.
  lemma {:induction false} OnesSumIsRep(h: Endian, s: seq<byte>)
    ensures OnesSum(h, s) == Rep(WordSum(h, s))
  {
    if |s| == 1 {
      RepAdd(Word(h, s[0], 0), 0);
    } else if |s| >= 2 {
      OnesSumIsRep(h, s[2..]);
      RepAdd(Word(h, s[0], s[1]), WordSum(h, s[2..]));
    }
  }

  lemma {:induction false} WordSumBound(h: Endian, s: seq<byte>)
    ensures WordSum(h, s) <= 0xFFFF * ((|s| + 1) / 2)
  {
    if |s| >= 2 {
      WordSumBound(h, s[2..]);
    }
  }

  lemma SumFitsInt(h: Endian, s: seq<byte>)
    requires |s| <= 65536
    ensures WordSum(h, s) < 0x8000_0000
  {
    WordSumBound(h, s);
  }

  function Fold(n: nat): nat {
    n / 0x1_0000 + n % 0x1_0000
  }

  // Two carry folds and a truncation reduce any 31-bit sum to its representative.
  lemma TwoFolds(n: nat)
    requires n < 0x8000_0000
    ensures var m := Fold(n); (m + m / 0x1_0000) % 0x1_0000 == Rep(n)
  {
    var hi, lo := n / 0x1_0000, n % 0x1_0000;
    assert n == 0x1_0000 * hi + lo;
    var m := hi + lo;
    if 0 < m < 0x1_0000 {
      RepIs(n, hi, m);
    } else if m >= 0x1_0000 {
      RepIs(n, hi + 1, m - 0xFFFF);
    }
  }

  lemma WordSumStep(h: Endian, s: seq<byte>, w: nat)
    requires w + 2 <= |s|
    ensures WordSum(h, s[w..]) == Word(h, s[w], s[w + 1]) + WordSum(h, s[w + 2..])
  {
  }

  // answer = ~sum after both folds, truncated to 16 bits.
  method Complement(total: i32) returns (answer: u16)
    requires total >= 0
    ensures answer == 0xFFFF - Rep(total)
  {
    TwoFolds(total);
    var sum := Fold(total);
    sum := sum + sum / 0x1_0000;
    answer := 0xFFFF - sum % 0x1_0000;
  }

  // The accumulator is a signed 32-bit int; the bound on len keeps it from
  // overflowing, and every read stays below len.
  method InCksum(h: Endian, addr: array<byte>, len: nat) returns (answer: u16)
    requires len <= addr.Length && len <= 65536
    ensures answer == Cksum(h, addr[..len])
  {
    ghost var s := addr[..len];
    SumFitsInt(h, s);
    var sum: i32 := 0;
    var w, nleft := 0, len;
    while nleft > 1
      invariant w + nleft == len
      invariant sum >= 0 && sum + WordSum(h, s[w..]) == WordSum(h, s)
    {
      WordSumStep(h, s, w);
      sum := sum + Word(h, addr[w], addr[w + 1]);
      w := w + 2;
      nleft := nleft - 2;
    }
    if nleft == 1 {
      sum := sum + Word(h, addr[w], 0);
    }
    assert sum == WordSum(h, s);
    OnesSumIsRep(h, s);
    answer := Complement(sum);
  }

  // ---------------------------------------------------------------------------
  // Byte-order independence (RFC 1071, section 2(B)).
  // ---------------------------------------------------------------------------

  lemma SwapOfBytes(hi: byte, lo: byte)
    ensures Swap16(0x100 * hi + lo) == 0x100 * lo + hi
  {
  }

  // End-around addition of two words given by their bytes: c1 c0 are the result's.
  lemma SwapOnesAddBytes(a1: byte, a0: byte, b1: byte, b0: byte, c1: byte, c0: byte)
    requires 0x100 * c1 + c0 == OnesAdd(0x100 * a1 + a0, 0x100 * b1 + b0)
    ensures OnesAdd(0x100 * a0 + a1, 0x100 * b0 + b1) == 0x100 * c0 + c1
  {
    var hi, lo := a1 + b1, a0 + b0;
    if 0x100 * hi + lo < 0x1_0000 {
      if lo < 0x100 {
        assert c1 == hi && c0 == lo;
      } else {
        assert c1 == hi + 1 && c0 == lo - 0x100;
      }
    } else if lo + 1 < 0x100 {
      assert c1 == hi - 0x100 && c0 == lo + 1;
    } else if lo + 1 < 0x200 && hi < 0xFF + 0x100 {
      assert c1 == hi - 0xFF && c0 == lo - 0xFF;
    }
  }

  lemma SwapComplement(a: u16)
    ensures Mem16(Big, 0xFFFF - Swap16(a)) == Mem16(Little, 0xFFFF - a)
    ensures Swap16(a) == 0xFFFF <==> a == 0xFFFF
  {
    var hi, lo := a / 0x100, a % 0x100;
    assert 0xFFFF - a == 0x100 * (0xFF - hi) + (0xFF - lo);
    assert 0xFFFF - Swap16(a) == 0x100 * (0xFF - lo) + (0xFF - hi);
  }

  lemma SwapOnesAdd(a: u16, b: u16)
    ensures OnesAdd(Swap16(a), Swap16(b)) == Swap16(OnesAdd(a, b))
  {
    var c := OnesAdd(a, b);
    SwapOnesAddBytes(a / 0x100, a % 0x100, b / 0x100, b % 0x100, c / 0x100, c % 0x100);
  }

  lemma {:induction false} SwapOnesSum(s: seq<byte>)
    ensures OnesSum(Big, s) == Swap16(OnesSum(Little, s))
  {
    if |s| == 1 {
      SwapOfBytes(0, s[0]);
    } else if |s| >= 2 {
      SwapOnesSum(s[2..]);
      SwapOfBytes(s[1], s[0]);
      SwapOnesAdd(Word(Little, s[0], s[1]), OnesSum(Little, s[2..]));
    }
  }

  // A host of either order stores the same two checksum bytes, so packets verify
  // on the other kind of host too.
  lemma ByteOrderIndependence(h: Endian, g: Endian, s: seq<byte>)
    ensures Mem16(h, Cksum(h, s)) == Mem16(g, Cksum(g, s))
    ensures Cksum(h, s) == 0 <==> Cksum(g, s) == 0
  {
    SwapOnesSum(s);
    SwapComplement(OnesSum(Little, s));
  }

  // ---------------------------------------------------------------------------
  // What the sum does when bytes are joined or replaced.
  // ---------------------------------------------------------------------------

  lemma {:induction false} WordSumConcat(h: Endian, a: seq<byte>, b: seq<byte>)
    requires |a| % 2 == 0
    ensures WordSum(h, a + b) == WordSum(h, a) + WordSum(h, b)
  {
    if |a| == 0 {
      assert a + b == b;
    } else {
      assert (a + b)[2..] == a[2..] + b;
      WordSumConcat(h, a[2..], b);
    }
  }

  // How far the sum moves when byte i moves by d.
  function Weighted(h: Endian, i: nat, d: int): int {
    if h.Little? <==> i % 2 == 0 then d else 0x100 * d
  }

  lemma {:induction false} WordSumUpdate(h: Endian, s: seq<byte>, i: nat, b: byte)
    requires i < |s|
    ensures WordSum(h, s[i := b]) == WordSum(h, s) + Weighted(h, i, b - s[i])
  {
    hide Word;
    var t := s[i := b];
    if i >= 2 {
      assert t[2..] == s[2..][i - 2 := b];
      WordSumUpdate(h, s[2..], i - 2, b);
    } else if |s| >= 2 {
      assert t[2..] == s[2..];
      WordUpdate(h, s[0], s[1], t[0], t[1]);
      assert t[1 - i] == s[1 - i];
    } else {
      WordUpdate(h, s[0], 0, t[0], 0);
    }
  }

  lemma WordUpdate(h: Endian, b0: byte, b1: byte, c0: byte, c1: byte)
    ensures Word(h, c0, c1) - Word(h, b0, b1) == Weighted(h, 0, c0 - b0) + Weighted(h, 1, c1 - b1)
  {
  }

  lemma RepApart(m: nat, n: nat)
    requires m < n < m + 0xFFFF
    ensures Rep(m) != Rep(n)
  {
    if m > 0 {
      var a, b := (m - 1) / 0xFFFF, (n - 1) / 0xFFFF;
      assert m == 0xFFFF * a + Rep(m) && n == 0xFFFF * b + Rep(n);
    }
  }

  // Every change of one byte changes the checksum: the sum moves by less than 65535.
  lemma ByteChangeDetected(h: Endian, s: seq<byte>, i: nat, b: byte)
    requires i < |s|
    ensures Cksum(h, s[i := b]) == Cksum(h, s) <==> b == s[i]
  {
    var t := s[i := b];
    WordSumUpdate(h, s, i, b);
    OnesSumIsRep(h, s);
    OnesSumIsRep(h, t);
    if b < s[i] {
      RepApart(WordSum(h, t), WordSum(h, s));
    } else if b > s[i] {
      RepApart(WordSum(h, s), WordSum(h, t));
    } else {
      assert t == s;
    }
  }
}
