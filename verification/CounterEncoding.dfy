/** The 8-byte storage of a 21-bit monotonic counter: two unary halves and two binary halves, 16 counts apart. */
module CounterEncoding {
  import opened Bytes

  const COUNTER_MAX_VALUE: nat := 2_097_151

  datatype Halves = Halves(linA: Word, linB: Word, binA: nat, binB: nat)

  /** 0xFFFF shifted right by `k`. */
  function Unary(k: nat): (w: Word)
    ensures forall i :: 0 <= i < 16 ==> w[i] == (i + k < 16)
  {
    seq(16, i => i + k < 16)
  }

  function Clamp(value: nat): nat {
    if value < COUNTER_MAX_VALUE then value else COUNTER_MAX_VALUE
  }

  function Split(v: nat): Halves {
    Halves(Unary(v % 32),
           if v >= 16 then Unary((v - 16) % 32) else Unary(0),
           v / 32,
           if v >= 16 then (v - 16) / 32 else 0)
  }

  function BigEndian(w: Word): (r: seq<byte>)
    ensures |r| == 2
  {
    [WordBytes(w)[1], WordBytes(w)[0]]
  }

  function Store(h: Halves): (r: seq<byte>)
    ensures |r| == 8
  {
    BigEndian(h.linA) + BigEndian(h.linB) + BigEndian(Binary(h.binA, 16)) + BigEndian(Binary(h.binB, 16))
  }

  function EncodeCounterValue(value: nat): (r: seq<byte>)
    ensures |r| == 8
  {
    Store(Split(Clamp(value)))
  }

  /** Reading a storage cell: the binary half counts 32s, the cleared unary bits count ones. */
  function DecodeCounter(s: seq<byte>): nat
    requires |s| == 8
  {
    var linA, linB, binA := WordOf(s[1], s[0]), WordOf(s[3], s[2]), WordOf(s[5], s[4]);
    var spentA, spentB := 16 - Ones(linA), 16 - Ones(linB);
    32 * Number(binA) + (if spentA < 16 then spentA else 16 + spentB)
  }

  lemma {:induction false} OnesAll(n: nat)
    ensures Ones(seq(n, _ => true)) == n
  {
    if n != 0 {
      OnesAll(n - 1);
      assert seq(n, _ => true)[1..] == seq(n - 1, _ => true);
    }
  }

  lemma OnesOfUnary(k: nat)
    ensures Ones(Unary(k)) == if k < 16 then 16 - k else 0
  {
    if k < 16 {
      var kept, clear := seq(16 - k, _ => true), seq(k, _ => false);
      assert Unary(k) == kept + clear;
      OnesConcat(kept, clear);
      OnesAll(16 - k);
      OnesNone(clear);
    } else {
      OnesNone(Unary(k));
    }
  }

  lemma BigEndianBack(w: Word)
    ensures WordOf(BigEndian(w)[1], BigEndian(w)[0]) == w
  {
    WordRoundTrip(w);
  }

  /** Count represented by a pair of halves. */
  function Value(h: Halves): nat {
    var spentA, spentB := 16 - Ones(h.linA), 16 - Ones(h.linB);
    32 * h.binA + (if spentA < 16 then spentA else 16 + spentB)
  }

  lemma CellsRead(a: seq<byte>, b: seq<byte>, c: seq<byte>, d: seq<byte>, h: Halves, bin: Word)
    requires |a| == |b| == |c| == |d| == 2
    requires WordOf(a[1], a[0]) == h.linA && WordOf(b[1], b[0]) == h.linB && WordOf(c[1], c[0]) == bin
    requires Number(bin) == h.binA
    ensures DecodeCounter(a + b + c + d) == Value(h)
  {
    var s := a + b + c + d;
    assert s[0] == a[0] && s[1] == a[1] && s[2] == b[0] && s[3] == b[1] && s[4] == c[0] && s[5] == c[1];
  }

  lemma StoreReadsBack(h: Halves)
    requires h.binA < 65536
    ensures DecodeCounter(Store(h)) == Value(h)
  {
    var bin := Binary(h.binA, 16);
    BigEndianBack(h.linA);
    BigEndianBack(h.linB);
    BigEndianBack(bin);
    Pow16();
    NumberOfBinary(h.binA, 16);
    CellsRead(BigEndian(h.linA), BigEndian(h.linB), BigEndian(bin), BigEndian(Binary(h.binB, 16)), h, bin);
  }

  lemma Pow16()
    ensures Pow2(16) == 65536
  {
    assert Pow2(8) == 256;
  }

  lemma SplitHasValue(v: nat)
    ensures Value(Split(v)) == v
  {
    OnesOfUnary(v % 32);
    OnesOfUnary(if v >= 16 then (v - 16) % 32 else 0);
  }

  /** The stored cell always reads back as the clamped count. */
  lemma DecodeEncode(value: nat)
    ensures DecodeCounter(EncodeCounterValue(value)) == Clamp(value)
  {
    var v := Clamp(value);
    StoreReadsBack(Split(v));
    SplitHasValue(v);
  }

  /** `y` is `x` with exactly one set bit cleared. */
  ghost predicate ClearsOne(x: Word, y: Word) {
    exists i :: 0 <= i < 16 && x[i] && y == x[i := false]
  }

  /** A half either stays as it is or starts its next block of 32 counts. */
  ghost predicate KeepsOrRefills(lin: Word, bin: nat, lin': Word, bin': nat) {
    (lin' == lin && bin' == bin) || (lin == Unary(16) && lin' == Unary(0) && bin' == bin + 1)
  }

  lemma UnaryClears(k: nat)
    requires k < 16
    ensures ClearsOne(Unary(k), Unary(k + 1))
  {
    assert Unary(k)[15 - k] && Unary(k + 1) == Unary(k)[15 - k := false];
  }

  lemma UnarySpent(k: nat)
    requires k >= 16
    ensures Unary(k) == Unary(16)
  {
  }

  /** Counting up by one clears a single unary bit; the other half keeps still or refills. */
  lemma StepClearsOneBit(v: nat)
    requires v < COUNTER_MAX_VALUE
    ensures var h, n := Split(v), Split(v + 1);
            || (ClearsOne(h.linA, n.linA) && h.binA == n.binA && KeepsOrRefills(h.linB, h.binB, n.linB, n.binB))
            || (ClearsOne(h.linB, n.linB) && h.binB == n.binB && KeepsOrRefills(h.linA, h.binA, n.linA, n.binA))
  {
    var q, k := v / 32, v % 32;
    if k < 16 {
      UnaryClears(k);
      assert (v + 1) % 32 == k + 1 && (v + 1) / 32 == q;
      if v >= 16 {
        assert (v - 16) % 32 == k + 16 && (v - 16) / 32 == q - 1;
        UnarySpent(k + 16);
        if k < 15 {
          UnarySpent(k + 17);
        } else {
          assert (v + 1 - 16) % 32 == 0 && (v + 1 - 16) / 32 == q;
        }
      }
    } else {
      UnaryClears(k - 16);
      UnarySpent(k);
      assert (v - 16) % 32 == k - 16 && (v - 16) / 32 == q;
      assert (v + 1 - 16) % 32 == k - 15 && (v + 1 - 16) / 32 == q;
      if k < 31 {
        UnarySpent(k + 1);
      } else {
        assert (v + 1) % 32 == 0 && (v + 1) / 32 == q + 1;
      }
    }
  }

  /** The ceiling is that of 21 bits. */
  lemma CeilingIs21Bits()
    ensures COUNTER_MAX_VALUE == Pow2(21) - 1
  {
    assert Pow2(7) == 128;
    assert Pow2(14) == 16384;
  }

  /** The first four bytes are two unary words, high byte first: as many low bits set as counts are left of the sixteen a
      word takes, the second starting sixteen counts after the first. */
  lemma StorageUnary(value: nat, i: nat)
    requires i < 16
    ensures var s := EncodeCounterValue(value);
            var v := if value < 2_097_151 then value else 2_097_151;
            && (WordOf(s[1], s[0])[i] <==> i + v % 32 < 16)
            && (WordOf(s[3], s[2])[i] <==> v < 16 || i + (v - 16) % 32 < 16)
  {
    var s, v := EncodeCounterValue(value), Clamp(value);
    StoredWords(Split(v));
    UnaryBits(WordOf(s[1], s[0]), WordOf(s[3], s[2]), v, i);
  }

  lemma UnaryBits(a: Word, b: Word, v: nat, i: nat)
    requires i < 16 && a == Split(v).linA && b == Split(v).linB
    ensures a[i] <==> i + v % 32 < 16
    ensures b[i] <==> v < 16 || i + (v - 16) % 32 < 16
  {
  }

  lemma BinaryHolds(n: nat)
    requires n < 65536
    ensures Number(Binary(n, 16)) == n
  {
    Pow16();
    NumberOfBinary(n, 16);
  }

  /** The last four are two binary words, high byte first: how often each unary word has been refilled. */
  lemma StorageBinary(value: nat)
    ensures var s := EncodeCounterValue(value);
            var v := if value < 2_097_151 then value else 2_097_151;
            && Number(WordOf(s[5], s[4])) == v / 32
            && Number(WordOf(s[7], s[6])) == if v < 16 then 0 else (v - 16) / 32
  {
    var h := Split(Clamp(value));
    StoredWords(h);
    BinaryHolds(h.binA);
    BinaryHolds(h.binB);
  }

  lemma StoredWords(h: Halves)
    ensures var s := Store(h);
            && WordOf(s[1], s[0]) == h.linA && WordOf(s[3], s[2]) == h.linB
            && WordOf(s[5], s[4]) == Binary(h.binA, 16) && WordOf(s[7], s[6]) == Binary(h.binB, 16)
  {
    BigEndianBack(h.linA);
    BigEndianBack(h.linB);
    BigEndianBack(Binary(h.binA, 16));
    BigEndianBack(Binary(h.binB, 16));
    StorePieces(h);
  }

  lemma StorePieces(h: Halves)
    ensures var s := Store(h);
            && s[0] == BigEndian(h.linA)[0] && s[1] == BigEndian(h.linA)[1]
            && s[2] == BigEndian(h.linB)[0] && s[3] == BigEndian(h.linB)[1]
            && s[4] == BigEndian(Binary(h.binA, 16))[0] && s[5] == BigEndian(Binary(h.binA, 16))[1]
            && s[6] == BigEndian(Binary(h.binB, 16))[0] && s[7] == BigEndian(Binary(h.binB, 16))[1]
  {
  }
}
