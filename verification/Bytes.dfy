/** Bytes and the fixed-width integers the wire formats are made of. */
module Bytes {

  newtype byte = b: int | 0 <= b < 256
  type bytes = seq<byte>

  newtype bit = b: int | 0 <= b < 2

  const U32_LIMIT: nat := 0x1_0000_0000

  type u32 = n: nat | n < U32_LIMIT

  function BigEndian(s: bytes): nat {
    if s == [] then 0 else BigEndian(s[..|s| - 1]) * 256 + s[|s| - 1] as nat
  }

  lemma SplitLast(s: bytes, b: byte)
    ensures BigEndian(s + [b]) == BigEndian(s) * 256 + b as nat
  {
    assert (s + [b])[..|s|] == s;
  }

  function LittleEndian(s: bytes): nat {
    if s == [] then 0 else s[0] as nat + 256 * LittleEndian(s[1..])
  }

  function Power256(width: nat): (p: nat)
    ensures p > 0
  {
    if width == 0 then 1 else 256 * Power256(width - 1)
  }

  /** The lowest width bytes of n, most significant first. */
  function EncodeBigEndian(n: nat, width: nat): (s: bytes)
    ensures |s| == width
  {
    if width == 0 then [] else EncodeBigEndian(n / 256, width - 1) + [(n % 256) as byte]
  }

  lemma {:induction false} BigEndianInverse(n: nat, width: nat)
    requires n < Power256(width)
    ensures BigEndian(EncodeBigEndian(n, width)) == n
  {
    if width > 0 {
      BigEndianInverse(n / 256, width - 1);
      SplitLast(EncodeBigEndian(n / 256, width - 1), (n % 256) as byte);
    }
  }

  /** The four bytes of struct format ">I". */
  function PackU32(n: u32): (s: bytes)
    ensures |s| == 4
    ensures BigEndian(s) == n
  {
    assert Power256(4) == U32_LIMIT by {
      assert Power256(3) == 0x100_0000 by { assert Power256(2) == 0x1_0000; }
    }
    BigEndianInverse(n, 4);
    EncodeBigEndian(n, 4)
  }

  lemma {:induction false} BigEndianBound(s: bytes)
    ensures BigEndian(s) < Power256(|s|)
  {
    if s != [] {
      BigEndianBound(s[..|s| - 1]);
    }
  }

  /** The unsigned number in four bytes. */
  function UnpackU32(s: bytes): (n: u32)
    requires |s| == 4
    ensures n == BigEndian(s)
  {
    assert Power256(4) == U32_LIMIT by {
      assert Power256(3) == 0x100_0000 by { assert Power256(2) == 0x1_0000; }
    }
    BigEndianBound(s);
    BigEndian(s)
  }

  /** Bit k of a byte. */
  function BitOf(b: byte, k: nat): bit
    requires k < 8
  {
    if k == 0 then (b % 2) as bit else BitOf(b / 2, k - 1)
  }

  function Two(k: nat): nat {
    if k == 0 then 1 else 2 * Two(k - 1)
  }

  /** A bit shifted to place k. */
  function Place(b: bit, k: nat): (v: nat)
    ensures v <= Two(k)
  {
    if b == 1 then Two(k) else 0
  }

  /** The number whose bits these are, least significant first. */
  function BitsValue(bits: seq<bit>): nat {
    if bits == [] then 0 else bits[0] as nat + 2 * BitsValue(bits[1..])
  }

  lemma {:induction false} BitsValueAppend(bits: seq<bit>, b: bit)
    ensures BitsValue(bits + [b]) == BitsValue(bits) + Place(b, |bits|)
  {
    if bits == [] {
      assert [b][1..] == [];
    } else {
      BitsValueAppend(bits[1..], b);
      assert (bits + [b])[1..] == bits[1..] + [b];
    }
  }

  /** A byte is the number its own bits make. */
  lemma {:induction false} BitsMakeByte(b: byte, bits: seq<bit>)
    requires |bits| <= 8 && b as nat < Two(|bits|)
    requires forall k :: 0 <= k < |bits| ==> bits[k] == BitOf(b, k)
    ensures BitsValue(bits) == b as nat
  {
    if bits != [] {
      forall k | 0 <= k < |bits| - 1 ensures bits[1..][k] == BitOf(b / 2, k) {
        assert bits[k + 1] == BitOf(b, k + 1);
      }
      BitsMakeByte(b / 2, bits[1..]);
      assert bits[0] == BitOf(b, 0);
    }
  }

  function FlagBit(flag: bool): bit {
    if flag then 1 else 0
  }

  /** The byte whose lowest bits are these flags, least significant first. */
  function FlagsByte(flags: seq<bool>): (b: byte)
    requires |flags| <= 8
    ensures b as nat < Two(|flags|)
  {
    if flags == [] then 0
    else
      assert Two(|flags|) <= 256 by { TwoMonotone(|flags|, 8); }
      FlagBit(flags[0]) as byte + 2 * FlagsByte(flags[1..])
  }

  lemma {:induction false} TwoMonotone(k: nat, n: nat)
    requires k <= n
    ensures Two(k) <= Two(n)
  {
    if k < n {
      TwoMonotone(k, n - 1);
    } else {
      assert Two(k) == Two(n);
    }
  }

  /** Each flag is a bit of the byte, and the bits beyond the flags are zero. */
  lemma {:induction false} FlagsByteBit(flags: seq<bool>, k: nat)
    requires |flags| <= 8 && k < 8
    ensures BitOf(FlagsByte(flags), k) == if k < |flags| then FlagBit(flags[k]) else 0
  {
    if flags == [] {
      ZeroBit(k);
    } else if k > 0 {
      FlagsByteBit(flags[1..], k - 1);
    }
  }

  lemma {:induction false} ZeroBit(k: nat)
    requires k < 8
    ensures BitOf(0, k) == 0
  {
    if k > 0 {
      ZeroBit(k - 1);
    }
  }

  /** A byte is determined by its bits. */
  lemma {:induction false} FlagsOfByte(b: byte, flags: seq<bool>)
    requires |flags| <= 8 && b as nat < Two(|flags|)
    requires forall k :: 0 <= k < |flags| ==> FlagBit(flags[k]) == BitOf(b, k)
    ensures FlagsByte(flags) == b
  {
    if flags != [] {
      forall k | 0 <= k < |flags| - 1 ensures FlagBit(flags[1..][k]) == BitOf(b / 2, k) {
        assert FlagBit(flags[k + 1]) == BitOf(b, k + 1);
      }
      FlagsOfByte(b / 2, flags[1..]);
      assert FlagBit(flags[0]) == BitOf(b, 0);
    }
  }

  /** Exclusive or of the lowest width bits. */
  function Xor(a: nat, b: nat, width: nat): (x: nat)
    ensures x < Two(width)
  {
    if width == 0 then 0 else (a + b) % 2 + 2 * Xor(a / 2, b / 2, width - 1)
  }

  lemma Halves(parity: nat, half: nat)
    requires parity < 2
    ensures (parity + 2 * half) % 2 == parity && (parity + 2 * half) / 2 == half
  {
  }

  lemma Parity(x: nat, a: nat, b: nat)
    requires x % 2 == (a + b) % 2
    ensures (x + b) % 2 == a % 2
  {
  }

  lemma XorStep(x: nat, b: nat, half: nat, width: nat)
    requires width > 0 && x / 2 == half
    ensures Xor(x, b, width) == (x + b) % 2 + 2 * Xor(half, b / 2, width - 1)
  {
  }

  lemma {:induction false} XorTwice(a: nat, b: nat, width: nat)
    requires a < Two(width)
    ensures Xor(Xor(a, b, width), b, width) == a
  {
    if width > 0 {
      var x, half := Xor(a, b, width), Xor(a / 2, b / 2, width - 1);
      Halves((a + b) % 2, half);
      XorTwice(a / 2, b / 2, width - 1);
      Parity(x, a, b);
      XorStep(x, b, half, width);
    }
  }

  /** Exclusive or of two bytes. */
  function XorByte(a: byte, b: byte): byte {
    assert Two(8) == 256;
    Xor(a as nat, b as nat, 8) as byte
  }

  lemma XorByteTwice(a: byte, b: byte)
    ensures XorByte(XorByte(a, b), b) == a
  {
    assert Two(8) == 256;
    XorTwice(a as nat, b as nat, 8);
  }

  /** Bit k of a number. */
  function NatBit(n: nat, k: nat): nat {
    if k == 0 then n % 2 else NatBit(n / 2, k - 1)
  }

  lemma {:induction false} BitIsNatBit(b: byte, k: nat)
    requires k < 8
    ensures BitOf(b, k) as nat == NatBit(b as nat, k)
  {
    if k > 0 {
      BitIsNatBit(b / 2, k - 1);
    }
  }

  lemma {:induction false} XorBits(a: nat, b: nat, width: nat, k: nat)
    requires k < width
    ensures NatBit(Xor(a, b, width), k) == (NatBit(a, k) + NatBit(b, k)) % 2
  {
    Halves((a + b) % 2, Xor(a / 2, b / 2, width - 1));
    if k > 0 {
      XorBits(a / 2, b / 2, width - 1, k - 1);
    }
  }

  /** A bit of the exclusive or is set where the two bits differ. */
  lemma XorByteBit(a: byte, b: byte, k: nat)
    requires k < 8
    ensures BitOf(XorByte(a, b), k) == if BitOf(a, k) == BitOf(b, k) then 0 else 1
  {
    assert Two(8) == 256;
    XorBits(a as nat, b as nat, 8, k);
    hide Xor, NatBit, BitOf;
    BitIsNatBit(a, k);
    BitIsNatBit(b, k);
    BitIsNatBit(XorByte(a, b), k);
  }

  function Duo(a: bool, b: bool): (r: byte)
    ensures r < 4
  {
    (if a then 1 else 0) + if b then 2 else 0
  }

  /** The byte with these bits, the lowest first. */
  function Eight(
    a: bool, b: bool, c: bool, d: bool, e: bool, f: bool, g: bool, h: bool): byte
  {
    Duo(a, b) + 4 * Duo(c, d) + 16 * Duo(e, f) + 64 * Duo(g, h)
  }

  lemma Unfolded(flags: seq<bool>)
    requires 0 < |flags| <= 8
    ensures Two(|flags| - 1) <= 128
    ensures FlagsByte(flags) == FlagBit(flags[0]) as byte + 2 * FlagsByte(flags[1..])
  {
    TwoMonotone(|flags| - 1, 7);
  }

  lemma FirstTwo(flags: seq<bool>)
    requires 2 <= |flags| <= 8
    ensures FlagsByte(flags) as nat
         == Duo(flags[0], flags[1]) as nat + 4 * FlagsByte(flags[2..]) as nat
  {
    Unfolded(flags);
    Unfolded(flags[1..]);
    assert flags[1..][1..] == flags[2..];
    hide FlagsByte, Two;
  }

  lemma EightIsFlags(flags: seq<bool>)
    requires |flags| == 8
    ensures FlagsByte(flags) == Eight(flags[0], flags[1], flags[2], flags[3],
                                      flags[4], flags[5], flags[6], flags[7])
  {
    assert FlagsByte([]) == 0;
    hide FlagsByte, Duo, Two;
    FirstTwo(flags);
    FirstTwo(flags[2..]);
    FirstTwo(flags[4..]);
    FirstTwo(flags[6..]);
    assert flags[2..][2..] == flags[4..] && flags[4..][2..] == flags[6..] && flags[6..][2..] == [];
  }

  lemma {:induction false} EightBits(
    a: bool, b: bool, c: bool, d: bool, e: bool, f: bool, g: bool, h: bool)
    ensures var x := Eight(a, b, c, d, e, f, g, h);
            && BitOf(x, 0) == FlagBit(a) && BitOf(x, 1) == FlagBit(b)
            && BitOf(x, 2) == FlagBit(c) && BitOf(x, 3) == FlagBit(d)
            && BitOf(x, 4) == FlagBit(e) && BitOf(x, 5) == FlagBit(f)
            && BitOf(x, 6) == FlagBit(g) && BitOf(x, 7) == FlagBit(h)
  {
    hide BitOf, FlagsByte, Eight, FlagBit;
    var flags := [a, b, c, d, e, f, g, h];
    EightIsFlags(flags);
    forall k | 0 <= k < 8 ensures BitOf(FlagsByte(flags), k) == FlagBit(flags[k]) {
      FlagsByteBit(flags, k);
    }
  }

  lemma FourAreEight(a: bool, b: bool, c: bool, d: bool)
    ensures FlagsByte([a, b, c, d]) == Eight(a, b, c, d, false, false, false, false)
  {
    assert FlagsByte([]) == 0;
    hide FlagsByte, Duo, Two;
    DuoZero();
    var flags := [a, b, c, d];
    FirstTwo(flags);
    FirstTwo(flags[2..]);
    assert flags[2..][2..] == [];
  }

  lemma DuoZero()
    ensures Duo(false, false) == 0
  {
  }
}
