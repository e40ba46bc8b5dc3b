/** Bytes, 16-bit words, fixed-size blocks and the failure types shared by every other module. */
module Bytes {

  type byte = bv8

  /** A 32-byte block: a slot value, a digest, a nonce or a session key. */
  type Block = s: seq<byte> | |s| == 32 witness seq(32, _ => 0)

  /** A 16-bit register, bit 0 first. */
  type Word = w: seq<bool> | |w| == 16 witness seq(16, _ => false)

  datatype Option<+T> = None | Some(value: T)

  datatype Result<+T, +E> = Ok(value: T) | Err(error: E)

  /** How many layers fold a definition away from the methods that only hand it on. */
  const LAYERS: nat := 3

  // ---------------------------------------------------------------- byte strings

  /** Bytewise exclusive or of two equally long strings. */
  function Xor(a: seq<byte>, b: seq<byte>): (r: seq<byte>)
    requires |a| == |b|
    ensures |r| == |a|
    ensures forall i :: 0 <= i < |a| ==> r[i] == a[i] ^ b[i]
  {
    seq(|a|, i requires 0 <= i < |a| => a[i] ^ b[i])
  }

  /** Exclusive or with the same pad twice gives back the first operand. */
  lemma XorInvolution(a: seq<byte>, pad: seq<byte>)
    requires |a| == |pad|
    ensures Xor(Xor(a, pad), pad) == a
  {
    forall i | 0 <= i < |a|
      ensures Xor(Xor(a, pad), pad)[i] == a[i]
    {
      var x, p := a[i], pad[i];
      assert (x ^ p) ^ p == x;
    }
  }

  function Zeros(n: nat): (r: seq<byte>)
    ensures |r| == n
    ensures forall i :: 0 <= i < n ==> r[i] == 0
  {
    seq(n, _ => 0)
  }

  // ---------------------------------------------------------------- bits

  /** Bit `i` of a byte. */
  predicate Bit(b: byte, i: nat)
    requires i < 8
  {
    (b >> i) & 1 == 1
  }

  /** A byte as bits, bit 0 first. */
  function ByteBits(b: byte): (r: seq<bool>)
    ensures |r| == 8
  {
    seq(8, i requires 0 <= i < 8 => Bit(b, i))
  }

  /** Bits to a byte, bit 0 first. */
  function FromBits(s: seq<bool>): byte {
    if s == [] then 0 else (if s[0] then 1 else 0) | (FromBits(s[1..]) << 1)
  }

  function Weighted(s: seq<bool>): byte
    requires |s| == 8
  {
    (if s[0] then 1 else 0) | (if s[1] then 2 else 0) | (if s[2] then 4 else 0) | (if s[3] then 8 else 0) |
    (if s[4] then 16 else 0) | (if s[5] then 32 else 0) | (if s[6] then 64 else 0) | (if s[7] then 128 else 0)
  }

  lemma FromBitsTail(s: seq<bool>, k: nat)
    requires k < |s|
    ensures FromBits(s[k..]) == (if s[k] then 1 else 0) | (FromBits(s[k + 1..]) << 1)
  {
    assert s[k..][1..] == s[k + 1..];
  }

  lemma FromBitsIsWeighted(s: seq<bool>)
    requires |s| == 8
    ensures FromBits(s) == Weighted(s)
  {
    FromBitsTail(s, 7);
    FromBitsTail(s, 6);
    FromBitsTail(s, 5);
    FromBitsTail(s, 4);
    FromBitsTail(s, 3);
    FromBitsTail(s, 2);
    FromBitsTail(s, 1);
    FromBitsTail(s, 0);
    assert s[0..] == s && s[8..] == [];
  }

  lemma BitsOfByte(s: seq<bool>)
    requires |s| == 8
    ensures ByteBits(FromBits(s)) == s
  {
    FromBitsIsWeighted(s);
    var b := Weighted(s);
    assert Bit(b, 0) == s[0];
    assert Bit(b, 1) == s[1];
    assert Bit(b, 2) == s[2];
    assert Bit(b, 3) == s[3];
    assert Bit(b, 4) == s[4];
    assert Bit(b, 5) == s[5];
    assert Bit(b, 6) == s[6];
    assert Bit(b, 7) == s[7];
  }

  lemma ByteOfBits(b: byte)
    ensures FromBits(ByteBits(b)) == b
  {
    var s := ByteBits(b);
    FromBitsIsWeighted(s);
    assert (if s[0] then 1 else 0) == b & 1;
    assert (if s[1] then 2 else 0) == b & 2;
    assert (if s[2] then 4 else 0) == b & 4;
    assert (if s[3] then 8 else 0) == b & 8;
    assert (if s[4] then 16 else 0) == b & 16;
    assert (if s[5] then 32 else 0) == b & 32;
    assert (if s[6] then 64 else 0) == b & 64;
    assert (if s[7] then 128 else 0) == b & 128;
  }

  lemma LowBitXor(x: byte, y: byte)
    ensures ((x ^ y) & 1 == 1) == ((x & 1 == 1) != (y & 1 == 1))
  {
  }

  lemma ShiftXor(a: byte, b: byte, i: nat)
    requires i < 8
    ensures (a ^ b) >> i == (a >> i) ^ (b >> i)
  {
  }

  lemma BitXor(a: byte, b: byte, i: nat)
    requires i < 8
    ensures Bit(a ^ b, i) == (Bit(a, i) != Bit(b, i))
  {
    ShiftXor(a, b, i);
    LowBitXor(a >> i, b >> i);
  }

  /** Number of set bits. */
  function Ones(bits: seq<bool>): (n: nat)
    ensures n <= |bits|
  {
    if bits == [] then 0 else (if bits[0] then 1 else 0) + Ones(bits[1..])
  }

  lemma {:induction false} OnesConcat(a: seq<bool>, b: seq<bool>)
    ensures Ones(a + b) == Ones(a) + Ones(b)
  {
    if a == [] {
      assert a + b == b;
    } else {
      OnesConcat(a[1..], b);
      assert (a + b)[1..] == a[1..] + b;
    }
  }

  lemma {:induction false} OnesNone(s: seq<bool>)
    requires forall i :: 0 <= i < |s| ==> !s[i]
    ensures Ones(s) == 0
  {
    if s != [] {
      OnesNone(s[1..]);
    }
  }

  /** A number in binary, bit 0 first. */
  function Binary(n: nat, width: nat): (w: seq<bool>)
    ensures |w| == width
    decreases width, n
  {
    if width == 0 then [] else [n % 2 == 1] + Binary(n / 2, width - 1)
  }

  function Number(w: seq<bool>): nat {
    if w == [] then 0 else (if w[0] then 1 else 0) + 2 * Number(w[1..])
  }

  function Pow2(n: nat): nat {
    if n == 0 then 1 else 2 * Pow2(n - 1)
  }

  lemma {:induction false} NumberOfBinary(n: nat, width: nat)
    requires n < Pow2(width)
    ensures Number(Binary(n, width)) == n
    decreases width
  {
    if width != 0 {
      NumberOfBinary(n / 2, width - 1);
      assert Binary(n, width)[1..] == Binary(n / 2, width - 1);
    }
  }

  lemma {:induction false} BinaryOfNumber(w: seq<bool>)
    ensures Binary(Number(w), |w|) == w && Number(w) < Pow2(|w|)
  {
    if w != [] {
      BinaryOfNumber(w[1..]);
    }
  }

  /** A byte as a number. */
  function Count(b: byte): (n: nat)
    ensures n < 256
  {
    BinaryOfNumber(ByteBits(b));
    assert Pow2(8) == 256;
    Number(ByteBits(b))
  }

  function CountByte(n: nat): byte {
    FromBits(Binary(n, 8))
  }

  lemma CountOfByte(n: nat)
    requires n < 256
    ensures Count(CountByte(n)) == n
  {
    BitsOfByte(Binary(n, 8));
    assert Pow2(8) == 256;
    NumberOfBinary(n, 8);
  }

  lemma ByteOfCount(b: byte)
    ensures CountByte(Count(b)) == b
  {
    BinaryOfNumber(ByteBits(b));
    ByteOfBits(b);
  }

  lemma {:induction false} NumberConcat(a: seq<bool>, b: seq<bool>)
    ensures Number(a + b) == Number(a) + Pow2(|a|) * Number(b)
  {
    if a == [] {
      assert a + b == b;
    } else {
      NumberConcat(a[1..], b);
      assert (a + b)[1..] == a[1..] + b;
      assert 2 * (Pow2(|a| - 1) * Number(b)) == Pow2(|a|) * Number(b);
    }
  }

  lemma NumberTail(w: seq<bool>, k: nat)
    requires k < |w|
    ensures Number(w[k..]) == (if w[k] then 1 else 0) + 2 * Number(w[k + 1..])
  {
    assert w[k..][1..] == w[k + 1..];
  }

  function Four(b0: bool, b1: bool, b2: bool, b3: bool): nat {
    (if b0 then 1 else 0) + (if b1 then 2 else 0) + (if b2 then 4 else 0) + (if b3 then 8 else 0)
  }

  lemma NumberOfFour(w: seq<bool>)
    requires |w| == 4
    ensures Number(w) == Four(w[0], w[1], w[2], w[3])
  {
    NumberTail(w, 0);
    NumberTail(w, 1);
    NumberTail(w, 2);
    NumberTail(w, 3);
    assert w[0..] == w && w[4..] == [];
  }

  lemma NumberOfEight(w: seq<bool>)
    requires |w| == 8
    ensures Number(w) == Four(w[0], w[1], w[2], w[3]) + 16 * Four(w[4], w[5], w[6], w[7])
  {
    assert w == w[..4] + w[4..];
    NumberConcat(w[..4], w[4..]);
    assert Pow2(4) == 16;
    NumberOfFour(w[..4]);
    NumberOfFour(w[4..]);
  }

  lemma CountInjective(a: byte, b: byte)
    requires Count(a) == Count(b)
    ensures a == b
  {
    ByteOfCount(a);
    ByteOfCount(b);
  }

  /** The bit pattern of the ten ASCII digits. */
  predicate DigitPattern(b0: bool, b1: bool, b2: bool, b3: bool, b4: bool, b5: bool, b6: bool, b7: bool) {
    !b7 && !b6 && b5 && b4 && !(b3 && (b2 || b1))
  }

  lemma DigitBits(b: byte)
    ensures 0x30 <= b <= 0x39 <==>
            DigitPattern(b & 1 != 0, b & 2 != 0, b & 4 != 0, b & 8 != 0, b & 16 != 0, b & 32 != 0, b & 64 != 0, b & 128 != 0)
  {
  }

  lemma BitMasks(b: byte)
    ensures Bit(b, 0) == (b & 1 != 0) && Bit(b, 1) == (b & 2 != 0) && Bit(b, 2) == (b & 4 != 0) && Bit(b, 3) == (b & 8 != 0)
    ensures Bit(b, 4) == (b & 16 != 0) && Bit(b, 5) == (b & 32 != 0) && Bit(b, 6) == (b & 64 != 0) && Bit(b, 7) == (b & 128 != 0)
  {
  }

  /** '0' is 48 and '9' is 57. */
  lemma DigitsByNumber(b: byte)
    ensures 0x30 <= b <= 0x39 <==> 48 <= Count(b) <= 57
  {
    var w := ByteBits(b);
    NumberOfEight(w);
    DigitBits(b);
    BitMasks(b);
    assert 0x30 <= b <= 0x39 <==> DigitPattern(w[0], w[1], w[2], w[3], w[4], w[5], w[6], w[7]);
  }

  // ---------------------------------------------------------------- 16-bit words on the wire

  /** The word whose little-endian serialisation is `lo, hi`. */
  function WordOf(lo: byte, hi: byte): Word {
    ByteBits(lo) + ByteBits(hi)
  }

  /** Little-endian serialisation of a word. */
  function WordBytes(w: Word): (r: seq<byte>)
    ensures |r| == 2
  {
    [FromBits(w[..8]), FromBits(w[8..])]
  }

  /** Low byte first: a word's number. */
  lemma WordValue(lo: byte, hi: byte)
    ensures Number(WordOf(lo, hi)) == Count(lo) + 256 * Count(hi)
  {
    NumberConcat(ByteBits(lo), ByteBits(hi));
    assert Pow2(8) == 256;
  }

  lemma WordRoundTrip(w: Word)
    ensures WordOf(WordBytes(w)[0], WordBytes(w)[1]) == w
  {
    BitsOfByte(w[..8]);
    BitsOfByte(w[8..]);
  }

  lemma BytesRoundTrip(lo: byte, hi: byte)
    ensures WordBytes(WordOf(lo, hi)) == [lo, hi]
  {
    ByteOfBits(lo);
    ByteOfBits(hi);
    assert WordOf(lo, hi)[..8] == ByteBits(lo);
    assert WordOf(lo, hi)[8..] == ByteBits(hi);
  }
}
