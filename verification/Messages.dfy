/** Byte layouts of every hashed message: PIN and PUK records, CheckMac, session keys and write MACs.
    SHA-256 itself is a parameter `sha`. */
module Messages {
  import opened Bytes

  type Hash = seq<byte> -> Block
  type Serial = s: seq<byte> | |s| == 9 witness seq(9, _ => 0)
  type Pin = s: seq<byte> | |s| == 4 witness seq(4, _ => 0)
  type Puk = s: seq<byte> | |s| == 8 witness seq(8, _ => 0)
  /** One of the chip's sixteen slots. */
  type Slot = n: nat | n < 16 witness 0

  const SLOT_PIN_HASH: Slot := 5
  const SLOT_PUK_HASH: Slot := 6
  const SLOT_IO_KEY: Slot := 8
  const OP_GENDIG: byte := 0x15
  const OP_WRITE: byte := 0x12
  const OP_CHECKMAC: byte := 0x28
  const ZONE_DATA: byte := 0x02
  /** Data zone, 32-byte transfer, encrypted. */
  const WRITE_ENCRYPTED: byte := 0xC2

  const PIN_DEFAULT: Pin := [0x30, 0x30, 0x30, 0x30]

  // "pico-hsm-rs-pin-salt-v1" and "pico-hsm-rs-puk-salt-v1"
  const PIN_SALT_DOMAIN: seq<byte> := [0x70, 0x69, 0x63, 0x6F, 0x2D, 0x68, 0x73, 0x6D, 0x2D, 0x72, 0x73, 0x2D, 0x70, 0x69, 0x6E, 0x2D, 0x73, 0x61, 0x6C, 0x74, 0x2D, 0x76, 0x31]
  const PUK_SALT_DOMAIN: seq<byte> := [0x70, 0x69, 0x63, 0x6F, 0x2D, 0x68, 0x73, 0x6D, 0x2D, 0x72, 0x73, 0x2D, 0x70, 0x75, 0x6B, 0x2D, 0x73, 0x61, 0x6C, 0x74, 0x2D, 0x76, 0x31]

  // ---------------------------------------------------------------- codes

  predicate Digit(b: byte) {
    0x30 <= b <= 0x39
  }

  predicate AllDigits(code: seq<byte>) {
    forall i :: 0 <= i < |code| ==> Digit(code[i])
  }

  datatype FormatError = NonDigit(position: nat) | OutOfRange

  /** Position of the first byte that is not a digit. */
  function FirstNonDigit(code: seq<byte>, from: nat): (r: Option<nat>)
    requires from <= |code|
    ensures r.None? <==> forall i :: from <= i < |code| ==> Digit(code[i])
    ensures r.Some? ==> from <= r.value < |code| && !Digit(code[r.value]) &&
                        forall i :: from <= i < r.value ==> Digit(code[i])
    decreases |code| - from
  {
    if from == |code| then None
    else if !Digit(code[from]) then Some(from)
    else FirstNonDigit(code, from + 1)
  }

  method ValidateDigits(code: seq<byte>) returns (r: Option<FormatError>)
    ensures r.None? <==> AllDigits(code)
    ensures r == match FirstNonDigit(code, 0) case None => None case Some(i) => Some(NonDigit(i))
  {
    var position := 0;
    while position < |code|
      invariant position <= |code|
      invariant FirstNonDigit(code, 0) == FirstNonDigit(code, position)
    {
      if !Digit(code[position]) {
        return Some(NonDigit(position));
      }
      position := position + 1;
    }
    r := None;
  }

  function PinSalt(sha: Hash, serial: Serial): Block {
    sha(PIN_SALT_DOMAIN + serial)
  }

  function PukSalt(sha: Hash, serial: Serial): Block {
    sha(PUK_SALT_DOMAIN + serial)
  }

  function PinHash(sha: Hash, serial: Serial, pin: Pin): Block {
    sha(pin + PinSalt(sha, serial))
  }

  function PukHash(sha: Hash, serial: Serial, puk: Puk): Block {
    sha(puk + PukSalt(sha, serial))
  }

  // ---------------------------------------------------------------- CheckMac

  function CheckMacOtherData(key: Slot, serial: Serial): (r: seq<byte>)
    ensures |r| == 13
  {
    [OP_CHECKMAC, 0, CountByte(key), 0, 0, 0, 0, serial[0], serial[0], serial[1], serial[2], serial[3], 0]
  }

  function CheckMacMessage(value: Block, challenge: Block, other: seq<byte>, serial: Serial): seq<byte>
    requires |other| == 13
  {
    value + (challenge + other[0..4] + Zeros(8) + other[4..7] + serial[8..9] + other[7..11] + serial[0..2] + other[11..13])
  }

  function CheckMacResponse(sha: Hash, value: Block, challenge: Block, other: seq<byte>, serial: Serial): Block
    requires |other| == 13
  {
    sha(CheckMacMessage(value, challenge, other, serial))
  }

  // ---------------------------------------------------------------- encrypted writes

  function SerialTag(serial: Serial): seq<byte> {
    serial[8..9] + serial[0..2] + Zeros(25)
  }

  /** GenDig over a data slot: what the chip mixes into TempKey. */
  function GenDigMessage(key: Block, nonce: Block, slot: Slot, serial: Serial): seq<byte> {
    key + ([OP_GENDIG, ZONE_DATA, CountByte(slot), 0] + SerialTag(serial) + nonce)
  }

  function DeriveSessionKey(sha: Hash, ioKey: Block, nonce: Block, slot: Slot, serial: Serial): Block {
    sha(GenDigMessage(ioKey, nonce, slot, serial))
  }

  /** Block in the high byte, slot in bits 3 to 7, word offset in bits 0 to 2. */
  function DataAddress(slot: Slot, blockIndex: nat, offset: nat): Word
    requires blockIndex < 256
  {
    Binary(offset % 8, 3) + Binary(slot, 5) + Binary(blockIndex, 8)
  }

  /** The slot a chip reads out of a data-zone address. */
  function AddressedSlot(address: Word): nat {
    Number(address[3..8])
  }

  /** The driver's `param1` of a Write: zone, transfer size flag, encryption flag. */
  function WriteParam1(zone: byte, whole: bool, encrypted: bool): byte {
    zone | (if whole then 0x80 else 0) | (if encrypted then 0x40 else 0)
  }

  /** It is the value the MAC is computed over. */
  lemma ParametersAgree()
    ensures WriteParam1(ZONE_DATA, true, true) == WRITE_ENCRYPTED == 0xC2
    ensures WriteParam1(ZONE_DATA, true, false) == 0x82 && WriteParam1(ZONE_DATA, false, true) == 0x42
    ensures WriteParam1(ZONE_DATA, false, false) == 0x02
  {
  }

  function WriteMessage(key: Block, param1: byte, param2: Word, serial: Serial, plaintext: Block): seq<byte> {
    key + ([OP_WRITE, param1] + WordBytes(param2) + SerialTag(serial) + plaintext)
  }

  function WriteMac(sha: Hash, key: Block, plaintext: Block, slot: Slot, serial: Serial): Block {
    sha(WriteMessage(key, WRITE_ENCRYPTED, DataAddress(slot, 0, 0), serial, plaintext))
  }

  method EncryptPayload(plaintext: Block, key: Block) returns (ciphertext: Block)
    ensures ciphertext == Xor(plaintext, key)
  {
    var out := new byte[32];
    var i := 0;
    while i < 32
      invariant 0 <= i <= 32
      invariant out[..i] == Xor(plaintext, key)[..i]
    {
      out[i] := plaintext[i] ^ key[i];
      i := i + 1;
    }
    ciphertext := out[..];
  }

  /** The chip addresses the slot the driver named. */
  lemma AddressNamesSlot(slot: Slot, blockIndex: nat, offset: nat)
    requires blockIndex < 256
    ensures AddressedSlot(DataAddress(slot, blockIndex, offset)) == slot
  {
    assert DataAddress(slot, blockIndex, offset)[3..8] == Binary(slot, 5);
    assert Pow2(5) == 32;
    NumberOfBinary(slot, 5);
  }

  // ---------------------------------------------------------------- what is asked of the hash

  /** The two messages do not collide. */
  ghost predicate Apart(sha: Hash, m: seq<byte>, n: seq<byte>) {
    sha(m) == sha(n) ==> m == n
  }

  /** The blocks the chip's generator gives out, by step: a tape of any length, and zeros beyond its end. */
  function Drawn(tape: seq<Block>, i: nat): Block {
    if i < |tape| then tape[i] else Zeros(32)
  }

  /** Two PINs are told apart by their records and by the CheckMac messages over one challenge. */
  ghost predicate PinsApart(sha: Hash, serial: Serial, challenge: Block, p: Pin, q: Pin) {
    var other := CheckMacOtherData(SLOT_PIN_HASH, serial);
    && Apart(sha, p + PinSalt(sha, serial), q + PinSalt(sha, serial))
    && Apart(sha, CheckMacMessage(PinHash(sha, serial, p), challenge, other, serial),
             CheckMacMessage(PinHash(sha, serial, q), challenge, other, serial))
  }

  ghost predicate PuksApart(sha: Hash, serial: Serial, challenge: Block, p: Puk, q: Puk) {
    var other := CheckMacOtherData(SLOT_PUK_HASH, serial);
    && Apart(sha, p + PukSalt(sha, serial), q + PukSalt(sha, serial))
    && Apart(sha, CheckMacMessage(PukHash(sha, serial, p), challenge, other, serial),
             CheckMacMessage(PukHash(sha, serial, q), challenge, other, serial))
  }

  /** No collision between digit codes, at the challenges the chip draws: finitely many messages. */
  ghost predicate DigitsApart(sha: Hash, serial: Serial, tape: seq<Block>) {
    && (forall p: Pin, q: Pin, i: nat {:trigger PinsApart(sha, serial, Drawn(tape, i), p, q)} ::
          AllDigits(p) && AllDigits(q) ==> PinsApart(sha, serial, Drawn(tape, i), p, q))
    && (forall p: Puk, q: Puk, i: nat {:trigger PuksApart(sha, serial, Drawn(tape, i), p, q)} ::
          AllDigits(p) && AllDigits(q) ==> PuksApart(sha, serial, Drawn(tape, i), p, q))
  }

  /** A write of `plaintext` under `key` shows that `stored` was meant: neither the two session keys of one nonce nor the
      two MACs the chip compares collide. */
  ghost predicate WriteShows(sha: Hash, serial: Serial, nonce: Block, stored: Block, key: Block, slot: Slot, plaintext: Block) {
    var host, chip := GenDigMessage(key, nonce, SLOT_IO_KEY, serial), GenDigMessage(stored, nonce, SLOT_IO_KEY, serial);
    var k, l := sha(host), sha(chip);
    key == stored ||
    (&& Apart(sha, host, chip)
     && Apart(sha, WriteMessage(l, WRITE_ENCRYPTED, DataAddress(slot, 0, 0), serial, Xor(Xor(plaintext, k), l)),
              WriteMessage(k, WRITE_ENCRYPTED, DataAddress(slot, 0, 0), serial, plaintext)))
  }

  /** The same at every nonce the chip draws. */
  ghost predicate AlwaysShows(sha: Hash, serial: Serial, tape: seq<Block>, stored: Block, key: Block, slot: Slot, plaintext: Block) {
    forall i: nat {:trigger WriteShows(sha, serial, Drawn(tape, i), stored, key, slot, plaintext)} ::
      WriteShows(sha, serial, Drawn(tape, i), stored, key, slot, plaintext)
  }

  ghost predicate FoldedApart(sha: Hash, serial: Serial, tape: seq<Block>, layers: nat)
    decreases layers, tape
  {
    if layers == 0 then DigitsApart(sha, serial, tape) else FoldedApart(sha, serial, tape, layers - 1)
  }

  ghost predicate FoldedShows(sha: Hash, serial: Serial, tape: seq<Block>, stored: Block, key: Block, slot: Slot, plaintext: Block, layers: nat)
    decreases layers, tape
  {
    if layers == 0 then AlwaysShows(sha, serial, tape, stored, key, slot, plaintext)
    else FoldedShows(sha, serial, tape, stored, key, slot, plaintext, layers - 1)
  }

  ghost predicate CodesApart(sha: Hash, serial: Serial, tape: seq<Block>) {
    FoldedApart(sha, serial, tape, LAYERS)
  }

  ghost predicate KeyShows(sha: Hash, serial: Serial, tape: seq<Block>, stored: Block, key: Block, slot: Slot, plaintext: Block) {
    FoldedShows(sha, serial, tape, stored, key, slot, plaintext, LAYERS)
  }

  lemma {:induction false} UnfoldApart(sha: Hash, serial: Serial, tape: seq<Block>, layers: nat)
    ensures FoldedApart(sha, serial, tape, layers) <==> DigitsApart(sha, serial, tape)
  {
    if layers > 0 {
      UnfoldApart(sha, serial, tape, layers - 1);
    }
  }

  lemma {:induction false} UnfoldShows(sha: Hash, serial: Serial, tape: seq<Block>, stored: Block, key: Block, slot: Slot, plaintext: Block, layers: nat)
    ensures FoldedShows(sha, serial, tape, stored, key, slot, plaintext, layers) <==> AlwaysShows(sha, serial, tape, stored, key, slot, plaintext)
  {
    if layers > 0 {
      UnfoldShows(sha, serial, tape, stored, key, slot, plaintext, layers - 1);
    }
  }
}
