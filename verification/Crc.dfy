/** The bit-serial CRC-16 of the ATECC608B link (polynomial 0x8005) and what it detects. */
module Crc {
  import opened Bytes

  // ---------------------------------------------------------------- the register

  /** Bits 0, 2 and 15: the polynomial 0x8005. */
  predicate Tap(i: int) {
    i == 0 || i == 2 || i == 15
  }

  function ShiftLeft(w: Word): Word {
    [false] + w[..15]
  }

  function Plus(a: Word, b: Word): (r: Word)
    ensures forall i :: 0 <= i < 16 ==> r[i] == (a[i] != b[i])
  {
    seq(16, i requires 0 <= i < 16 => a[i] != b[i])
  }

  function Poly(): (r: Word)
    ensures forall i :: 0 <= i < 16 ==> r[i] == Tap(i)
  {
    seq(16, i => Tap(i))
  }

  function Zero(): (r: Word)
    ensures forall i :: 0 <= i < 16 ==> !r[i]
  {
    seq(16, _ => false)
  }

  /** One clock: shift left and, when data bit and top register bit differ, add the polynomial. */
  function Step(crc: Word, bit: bool): Word {
    if bit != crc[15] then Plus(ShiftLeft(crc), Poly()) else ShiftLeft(crc)
  }

  function Feed(crc: Word, bits: seq<bool>): Word
    decreases |bits|
  {
    if bits == [] then crc else Feed(Step(crc, bits[0]), bits[1..])
  }

  /** A message as the register sees it: bytes in order, least significant bit first. */
  function Bits(data: seq<byte>): (r: seq<bool>)
    ensures |r| == 8 * |data|
  {
    if data == [] then [] else ByteBits(data[0]) + Bits(data[1..])
  }

  function Checksum(data: seq<byte>): Word {
    Feed(Zero(), Bits(data))
  }

  /** The frame ends with the little-endian checksum of everything before its last two bytes. */
  predicate ValidTrailer(frame: seq<byte>) {
    |frame| >= 3 &&
    Checksum(frame[..|frame| - 2]) == WordOf(frame[|frame| - 2], frame[|frame| - 1])
  }

  // ---------------------------------------------------------------- the two loops

  /** The next bit of a byte goes in first. */
  lemma FeedNext(crc: Word, bits: seq<bool>, i: nat, rest: seq<bool>)
    requires i < |bits|
    ensures Feed(crc, bits[i..] + rest) == Feed(Step(crc, bits[i]), bits[i + 1..] + rest)
  {
    assert (bits[i..] + rest)[1..] == bits[i + 1..] + rest;
  }

  method Crc16(data: seq<byte>) returns (crc: Word)
    ensures crc == Checksum(data)
  {
    crc := Zero();
    for n := 0 to |data|
      invariant Feed(crc, Bits(data[n..])) == Checksum(data)
    {
      var b := data[n];
      ghost var rest := Bits(data[n + 1..]);
      assert data[n..][1..] == data[n + 1..];
      assert ByteBits(b)[0..] == ByteBits(b);
      for i := 0 to 8
        invariant Feed(crc, ByteBits(b)[i..] + rest) == Checksum(data)
      {
        FeedNext(crc, ByteBits(b), i, rest);
        var dataBit := Bit(b, i);
        var crcBit := crc[15];
        crc := ShiftLeft(crc);
        if dataBit != crcBit {
          crc := Plus(crc, Poly());
        }
      }
      assert ByteBits(b)[8..] + rest == rest;
    }
    assert data[|data|..] == [];
  }

  method VerifyTrailingCrc(frame: seq<byte>) returns (ok: bool)
    ensures ok == ValidTrailer(frame)
  {
    if |frame| < 3 {
      return false;
    }
    var split := |frame| - 2;
    var computed := Crc16(frame[..split]);
    ok := computed == WordOf(frame[split], frame[split + 1]);
  }

  // ---------------------------------------------------------------- linearity

  function XorBits(a: seq<bool>, b: seq<bool>): (r: seq<bool>)
    requires |a| == |b|
    ensures |r| == |a|
    ensures forall i :: 0 <= i < |a| ==> r[i] == (a[i] != b[i])
  {
    seq(|a|, i requires 0 <= i < |a| => a[i] != b[i])
  }

  lemma StepLinear(c: Word, d: Word, x: bool, y: bool)
    ensures Step(Plus(c, d), x != y) == Plus(Step(c, x), Step(d, y))
  {
  }

  lemma {:induction false} FeedLinear(c: Word, d: Word, a: seq<bool>, b: seq<bool>)
    requires |a| == |b|
    ensures Feed(Plus(c, d), XorBits(a, b)) == Plus(Feed(c, a), Feed(d, b))
    decreases |a|
  {
    if a == [] {
    } else {
      StepLinear(c, d, a[0], b[0]);
      FeedLinear(Step(c, a[0]), Step(d, b[0]), a[1..], b[1..]);
      assert XorBits(a, b)[1..] == XorBits(a[1..], b[1..]);
    }
  }

  lemma ByteBitsXor(a: byte, b: byte)
    ensures ByteBits(a ^ b) == XorBits(ByteBits(a), ByteBits(b))
  {
    forall i | 0 <= i < 8
      ensures ByteBits(a ^ b)[i] == XorBits(ByteBits(a), ByteBits(b))[i]
    {
      BitXor(a, b, i);
    }
  }

  lemma XorBitsConcat(a: seq<bool>, s: seq<bool>, b: seq<bool>, t: seq<bool>)
    requires |a| == |b| && |s| == |t|
    ensures XorBits(a + s, b + t) == XorBits(a, b) + XorBits(s, t)
  {
  }

  lemma {:induction false} BitsXor(a: seq<byte>, b: seq<byte>)
    requires |a| == |b|
    ensures Bits(Xor(a, b)) == XorBits(Bits(a), Bits(b))
  {
    if a != [] {
      BitsXor(a[1..], b[1..]);
      assert Xor(a, b)[1..] == Xor(a[1..], b[1..]);
      ByteBitsXor(a[0], b[0]);
      XorBitsConcat(ByteBits(a[0]), Bits(a[1..]), ByteBits(b[0]), Bits(b[1..]));
    }
  }

  /** The checksum is additive over GF(2) on messages of one length. */
  lemma ChecksumLinear(a: seq<byte>, b: seq<byte>)
    requires |a| == |b|
    ensures Checksum(Xor(a, b)) == Plus(Checksum(a), Checksum(b))
  {
    BitsXor(a, b);
    FeedLinear(Zero(), Zero(), Bits(a), Bits(b));
    assert Plus(Zero(), Zero()) == Zero();
  }

  lemma WordOfXor(a: byte, b: byte, c: byte, d: byte)
    ensures WordOf(a ^ c, b ^ d) == Plus(WordOf(a, b), WordOf(c, d))
  {
    ByteBitsXor(a, c);
    ByteBitsXor(b, d);
  }

  lemma PlusCancel(x: Word, y: Word, z: Word)
    ensures Plus(x, y) == Plus(x, z) <==> y == z
  {
    if Plus(x, y) == Plus(x, z) {
      forall i | 0 <= i < 16
        ensures y[i] == z[i]
      {
        assert Plus(x, y)[i] == Plus(x, z)[i];
      }
    }
  }

  lemma SplitXor(frame: seq<byte>, error: seq<byte>)
    requires |error| == |frame| >= 2
    ensures var n := |frame| - 2;
            var both := Xor(frame, error);
            && both[..n] == Xor(frame[..n], error[..n])
            && WordOf(both[n], both[n + 1]) == Plus(WordOf(frame[n], frame[n + 1]), WordOf(error[n], error[n + 1]))
  {
    var n := |frame| - 2;
    WordOfXor(frame[n], frame[n + 1], error[n], error[n + 1]);
  }

  /** Exactly which errors go unnoticed: those whose trailer part is the checksum of their body part. */
  lemma UndetectedExactly(frame: seq<byte>, error: seq<byte>)
    requires ValidTrailer(frame) && |error| == |frame|
    ensures ValidTrailer(Xor(frame, error)) <==>
            Checksum(error[..|error| - 2]) == WordOf(error[|error| - 2], error[|error| - 1])
  {
    var n := |frame| - 2;
    var body, mask := frame[..n], error[..n];
    SplitXor(frame, error);
    ChecksumLinear(body, mask);
    PlusCancel(Checksum(body), Checksum(mask), WordOf(error[n], error[n + 1]));
  }

  // ---------------------------------------------------------------- parity

  /** An odd number of set bits. */
  predicate Odd(bits: seq<bool>) {
    bits != [] && bits[0] != Odd(bits[1..])
  }

  lemma {:induction false} OddIsOnes(bits: seq<bool>)
    ensures Odd(bits) <==> Ones(bits) % 2 == 1
  {
    if bits != [] {
      OddIsOnes(bits[1..]);
    }
  }

  lemma {:induction false} OddConcat(a: seq<bool>, b: seq<bool>)
    ensures Odd(a + b) <==> Odd(a) != Odd(b)
  {
    if a == [] {
      assert a + b == b;
    } else {
      OddConcat(a[1..], b);
      assert (a + b)[1..] == a[1..] + b;
    }
  }

  lemma {:induction false} OddXor(a: seq<bool>, b: seq<bool>)
    requires |a| == |b|
    ensures Odd(XorBits(a, b)) <==> Odd(a) != Odd(b)
  {
    if a != [] {
      OddXor(a[1..], b[1..]);
      assert XorBits(a, b)[1..] == XorBits(a[1..], b[1..]);
    }
  }

  lemma {:induction false} SilenceIsEven(n: nat)
    ensures !Odd(seq(n, _ => false))
  {
    if n != 0 {
      SilenceIsEven(n - 1);
      assert seq(n, _ => false)[1..] == seq(n - 1, _ => false);
    }
  }

  lemma OddPoly()
    ensures Odd(Poly())
  {
    var gap := seq(12, _ => false);
    assert Poly() == [true, false, true] + (gap + [true]);
    OddConcat([true, false, true], gap + [true]);
    OddConcat(gap, [true]);
    SilenceIsEven(12);
    assert !Odd([true, false, true]) by {
      assert [true, false, true][1..] == [false, true];
      assert [false, true][1..] == [true];
    }
  }

  lemma ShiftParity(crc: Word)
    ensures Odd(crc) <==> Odd(ShiftLeft(crc)) != crc[15]
  {
    assert crc == crc[..15] + [crc[15]];
    OddConcat(crc[..15], [crc[15]]);
    OddConcat([false], crc[..15]);
  }

  /** The polynomial has an even number of terms, so each clock adds the data bit to the parity. */
  lemma StepParity(crc: Word, bit: bool)
    ensures Odd(Step(crc, bit)) <==> Odd(crc) != bit
  {
    ShiftParity(crc);
    if bit != crc[15] {
      OddXor(ShiftLeft(crc), Poly());
      OddPoly();
      assert Step(crc, bit) == XorBits(ShiftLeft(crc), Poly());
    }
  }

  /** Register parity is the parity of everything fed so far. */
  lemma {:induction false} FeedParity(crc: Word, bits: seq<bool>)
    ensures Odd(Feed(crc, bits)) <==> Odd(crc) != Odd(bits)
    decreases |bits|
  {
    if bits != [] {
      StepParity(crc, bits[0]);
      FeedParity(Step(crc, bits[0]), bits[1..]);
    }
  }

  /** The checksum has the parity of the message. */
  lemma ChecksumParity(data: seq<byte>)
    ensures Odd(Checksum(data)) <==> Odd(Bits(data))
  {
    FeedParity(Zero(), Bits(data));
    SilenceIsEven(16);
    assert Zero() == seq(16, _ => false);
  }

  lemma Regroup(x: seq<bool>, y: seq<bool>, z: seq<bool>)
    ensures x + y + z == x + (y + z)
  {
  }

  lemma {:induction false} BitsConcat(a: seq<byte>, b: seq<byte>)
    ensures Bits(a + b) == Bits(a) + Bits(b)
  {
    if a == [] {
      assert a + b == b;
    } else {
      BitsConcat(a[1..], b);
      assert (a + b)[1..] == a[1..] + b;
      Regroup(ByteBits(a[0]), Bits(a[1..]), Bits(b));
    }
  }

  lemma TrailerBits(lo: byte, hi: byte)
    ensures Bits([lo, hi]) == WordOf(lo, hi)
  {
    assert [lo, hi][1..] == [hi];
    assert Bits([hi]) == ByteBits(hi) + [];
  }

  lemma TrailerParity(body: seq<byte>, lo: byte, hi: byte)
    ensures Odd(Bits(body + [lo, hi])) <==> Odd(Bits(body)) != Odd(WordOf(lo, hi))
  {
    BitsConcat(body, [lo, hi]);
    TrailerBits(lo, hi);
    OddConcat(Bits(body), Bits([lo, hi]));
  }

  /** Any odd number of flipped bits, anywhere in body or trailer, is noticed. */
  lemma OddErrorsDetected(frame: seq<byte>, error: seq<byte>)
    requires ValidTrailer(frame) && |error| == |frame|
    requires Ones(Bits(error)) % 2 == 1
    ensures !ValidTrailer(Xor(frame, error))
  {
    var n := |error| - 2;
    UndetectedExactly(frame, error);
    assert error == error[..n] + [error[n], error[n + 1]];
    TrailerParity(error[..n], error[n], error[n + 1]);
    OddIsOnes(Bits(error));
    ChecksumParity(error[..n]);
  }

  // ---------------------------------------------------------------- bursts

  /** Up to 16 bits laid out from the top of the register down. */
  function Packed(bits: seq<bool>): (r: Word)
    requires |bits| <= 16
    ensures forall i :: 0 <= i < 16 ==> r[i] == (15 - i < |bits| && bits[15 - i])
  {
    seq(16, i requires 0 <= i < 16 => 15 - i < |bits| && bits[15 - i])
  }

  /** `n` clocks with no data. */
  function Coast(crc: Word, n: nat): Word
    decreases n
  {
    if n == 0 then crc else Coast(Step(crc, false), n - 1)
  }

  /** The polynomial has a constant term, so a clock with no data never loses the last set bit. */
  lemma StepKeepsNonZero(crc: Word)
    ensures Step(crc, false) == Zero() <==> crc == Zero()
  {
    var next := Step(crc, false);
    if next == Zero() {
      assert !next[0];
      forall i | 0 <= i < 16
        ensures crc[i] == Zero()[i]
      {
        assert i < 15 ==> next[i + 1] == crc[i];
      }
    }
  }

  lemma {:induction false} CoastKeepsNonZero(crc: Word, n: nat)
    ensures Coast(crc, n) == Zero() <==> crc == Zero()
    decreases n
  {
    if n != 0 {
      StepKeepsNonZero(crc);
      CoastKeepsNonZero(Step(crc, false), n - 1);
    }
  }

  lemma PackedStep(crc: Word, bits: seq<bool>)
    requires 0 < |bits| <= 16
    ensures Step(Plus(crc, Packed(bits)), false) == Plus(Step(crc, bits[0]), Packed(bits[1..]))
  {
    StepLinear(crc, Packed(bits), bits[0], bits[0]);
    assert Step(Packed(bits), bits[0]) == Packed(bits[1..]);
  }

  /** Feeding up to 16 bits is adding them to the register at once and then coasting. */
  lemma {:induction false} FeedIsCoast(crc: Word, bits: seq<bool>)
    requires |bits| <= 16
    ensures Feed(crc, bits) == Coast(Plus(crc, Packed(bits)), |bits|)
    decreases |bits|
  {
    if bits == [] {
      assert Plus(crc, Packed(bits)) == crc;
    } else {
      PackedStep(crc, bits);
      FeedIsCoast(Step(crc, bits[0]), bits[1..]);
    }
  }

  lemma {:induction false} FeedConcat(crc: Word, a: seq<bool>, b: seq<bool>)
    ensures Feed(crc, a + b) == Feed(Feed(crc, a), b)
    decreases |a|
  {
    if a == [] {
      assert a + b == b;
    } else {
      FeedConcat(Step(crc, a[0]), a[1..], b);
      assert (a + b)[1..] == a[1..] + b;
    }
  }

  lemma {:induction false} FeedSilence(crc: Word, bits: seq<bool>)
    requires forall i :: 0 <= i < |bits| ==> !bits[i]
    ensures Feed(crc, bits) == Coast(crc, |bits|)
    decreases |bits|
  {
    if bits != [] {
      FeedSilence(Step(crc, false), bits[1..]);
    }
  }

  /** A non-zero pattern of at most 16 bits surrounded by silence leaves the register non-zero. */
  lemma BurstLeavesTrace(bits: seq<bool>, start: nat, hot: nat)
    requires forall i :: 0 <= i < |bits| && bits[i] ==> start <= i < start + 16
    requires hot < |bits| && bits[hot]
    ensures Feed(Zero(), bits) != Zero()
  {
    var end := if start + 16 <= |bits| then start + 16 else |bits|;
    var head, burst, tail := bits[..start], bits[start..end], bits[end..];
    assert bits == head + (burst + tail);
    FeedConcat(Zero(), head, burst + tail);
    FeedSilence(Zero(), head);
    CoastKeepsNonZero(Zero(), |head|);
    FeedConcat(Zero(), burst, tail);
    FeedIsCoast(Zero(), burst);
    var lump := Plus(Zero(), Packed(burst));
    assert lump[15 - (hot - start)] by { assert burst[hot - start]; }
    CoastKeepsNonZero(lump, |burst|);
    FeedSilence(Feed(Zero(), burst), tail);
    CoastKeepsNonZero(Feed(Zero(), burst), |tail|);
  }

  lemma ZeroTrailer()
    ensures WordOf(0, 0) == Zero()
  {
    assert forall i :: 0 <= i < 8 ==> !Bit(0, i);
  }

  /** Any error confined to 16 consecutive body bits, in link order, is noticed. */
  lemma BurstsDetected(frame: seq<byte>, error: seq<byte>, start: nat)
    requires ValidTrailer(frame) && |error| == |frame|
    requires error[|error| - 2] == 0 && error[|error| - 1] == 0
    requires var body := Bits(error[..|error| - 2]);
             && (forall i :: 0 <= i < |body| && body[i] ==> start <= i < start + 16)
             && (exists i :: 0 <= i < |body| && body[i])
    ensures !ValidTrailer(Xor(frame, error))
  {
    var body := Bits(error[..|error| - 2]);
    var hot :| 0 <= hot < |body| && body[hot];
    BurstLeavesTrace(body, start, hot);
    ZeroTrailer();
    UndetectedExactly(frame, error);
  }

  // ---------------------------------------------------------------- the remainder it is

  /** Bit `j` of byte `i` is bit `8i + j` of the message. */
  lemma {:induction false} BitsAt(data: seq<byte>, i: nat, j: nat)
    requires i < |data| && j < 8
    ensures Bits(data)[8 * i + j] == ((data[i] >> j) & 1 == 1)
  {
    if i > 0 {
      BitsAt(data[1..], i - 1, j);
      assert Bits(data)[8 * i + j] == Bits(data[1..])[8 * (i - 1) + j];
    }
  }

  /** The coefficient of x^e in a polynomial over GF(2) written highest power first. */
  function Coef(p: seq<bool>, e: int): bool {
    0 <= e < |p| && p[|p| - 1 - e]
  }

  /** The coefficient of x^k in q (x^16 + x^15 + x^2 + 1). */
  function TimesGenerator(q: seq<bool>, k: int): bool {
    (Coef(q, k - 16) != Coef(q, k - 15)) != (Coef(q, k - 2) != Coef(q, k))
  }

  /** message x^16 = q (x^16 + x^15 + x^2 + 1) + r, with bit k of `r` the coefficient of x^k. */
  ghost predicate Divides(message: seq<bool>, q: seq<bool>, r: Word) {
    && |q| == |message|
    && forall k :: 0 <= k < |message| + 16 ==> Coef(message, k - 16) == (TimesGenerator(q, k) != (k < 16 && r[k]))
  }

  ghost predicate IsRemainder(message: seq<bool>, r: Word) {
    exists q: seq<bool> :: Divides(message, q, r)
  }

  lemma CoefAppend(p: seq<bool>, b: bool, e: int)
    ensures Coef(p + [b], e) == if e == 0 then b else Coef(p, e - 1)
  {
  }

  lemma ProductAppend(q: seq<bool>, c: bool, k: int)
    ensures TimesGenerator(q + [c], k) == (TimesGenerator(q, k - 1) != (c && (k == 0 || k == 2 || k == 15 || k == 16)))
  {
    CoefAppend(q, c, k - 16);
    CoefAppend(q, c, k - 15);
    CoefAppend(q, c, k - 2);
    CoefAppend(q, c, k);
  }

  lemma StepAt(crc: Word, b: bool, k: nat)
    requires k < 16
    ensures Step(crc, b)[k] == ((k > 0 && crc[k - 1]) != ((b != crc[15]) && (k == 0 || k == 2 || k == 15)))
  {
  }

  /** One more bit of message is one more bit of quotient and one clock of the register. */
  lemma DivideStep(message: seq<bool>, q: seq<bool>, r: Word, b: bool)
    requires Divides(message, q, r)
    ensures Divides(message + [b], q + [b != r[15]], Step(r, b))
  {
    var c := b != r[15];
    forall k | 0 <= k < |message| + 17
      ensures Coef(message + [b], k - 16) == (TimesGenerator(q + [c], k) != (k < 16 && Step(r, b)[k]))
    {
      CoefAppend(message, b, k - 16);
      ProductAppend(q, c, k);
      if k < 16 {
        StepAt(r, b, k);
      }
      if k > 0 {
        assert Coef(message, k - 1 - 16) == (TimesGenerator(q, k - 1) != (k - 1 < 16 && r[k - 1]));
      }
    }
  }

  lemma {:induction false} FeedDivides(message: seq<bool>) returns (q: seq<bool>)
    ensures Divides(message, q, Feed(Zero(), message))
  {
    if message == [] {
      q := [];
    } else {
      var before, b := message[..|message| - 1], message[|message| - 1];
      assert message == before + [b];
      var p := FeedDivides(before);
      FeedConcat(Zero(), before, [b]);
      assert Feed(Feed(Zero(), before), [b]) == Step(Feed(Zero(), before), b) by {
        assert [b][1..] == [];
      }
      DivideStep(before, p, Feed(Zero(), before), b);
      q := p + [b != Feed(Zero(), before)[15]];
    }
  }

  /** Division leaves one quotient, found from the top down. */
  lemma {:induction false} QuotientUnique(message: seq<bool>, q: seq<bool>, r: Word, q': seq<bool>, r': Word, e: nat)
    requires Divides(message, q, r) && Divides(message, q', r')
    ensures Coef(q, e) == Coef(q', e)
    decreases |message| - e
  {
    if e < |message| {
      QuotientUnique(message, q, r, q', r', e + 1);
      QuotientUnique(message, q, r, q', r', e + 14);
      QuotientUnique(message, q, r, q', r', e + 16);
      var k := e + 16;
      assert Coef(message, k - 16) == TimesGenerator(q, k) == TimesGenerator(q', k);
    }
  }

  lemma RemainderUnique(message: seq<bool>, q: seq<bool>, r: Word, q': seq<bool>, r': Word)
    requires Divides(message, q, r) && Divides(message, q', r')
    ensures r == r'
  {
    forall k | 0 <= k < 16
      ensures r[k] == r'[k]
    {
      QuotientUnique(message, q, r, q', r', k);
      if k >= 2 {
        QuotientUnique(message, q, r, q', r', k - 2);
      }
      if k == 15 {
        QuotientUnique(message, q, r, q', r', 0);
      }
      assert Coef(message, k - 16) == (TimesGenerator(q, k) != (k < 16 && r[k]));
      assert Coef(message, k - 16) == (TimesGenerator(q', k) != (k < 16 && r'[k]));
    }
  }

  /** The checksum of any message, and no other word, is the remainder of message x^16 divided by x^16 + x^15 + x^2 + 1
      over GF(2), the message's first bit being its highest power. */
  lemma ChecksumIsTheRemainder(data: seq<byte>, r: Word)
    ensures IsRemainder(Bits(data), r) <==> r == Checksum(data)
  {
    var q := FeedDivides(Bits(data));
    assert Divides(Bits(data), q, Checksum(data));
    assert IsRemainder(Bits(data), Checksum(data));
    if IsRemainder(Bits(data), r) {
      var q' :| Divides(Bits(data), q', r);
      RemainderUnique(Bits(data), q, Checksum(data), q', r);
    }
  }
}
