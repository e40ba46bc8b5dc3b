/** Every hashed message and every frame, byte by byte. */
module MessageLayouts {
  import opened Bytes
  import opened Crc
  import opened Packet
  import opened Messages

  // ---------------------------------------------------------------- hashed messages

  /** "pico-hsm-rs-pin-salt-v1" and "pico-hsm-rs-puk-salt-v1", then the nine serial bytes; a record is the code, then the
      salt. */
  lemma RecordLayout(sha: Hash, serial: Serial, pin: Pin, puk: Puk)
    ensures PinHash(sha, serial, pin) ==
            sha(pin + sha([0x70, 0x69, 0x63, 0x6F, 0x2D, 0x68, 0x73, 0x6D, 0x2D, 0x72, 0x73, 0x2D,
                           0x70, 0x69, 0x6E, 0x2D, 0x73, 0x61, 0x6C, 0x74, 0x2D, 0x76, 0x31] + serial))
    ensures PukHash(sha, serial, puk) ==
            sha(puk + sha([0x70, 0x69, 0x63, 0x6F, 0x2D, 0x68, 0x73, 0x6D, 0x2D, 0x72, 0x73, 0x2D,
                           0x70, 0x75, 0x6B, 0x2D, 0x73, 0x61, 0x6C, 0x74, 0x2D, 0x76, 0x31] + serial))
  {
  }

  /** A CheckMac message in nine pieces. */
  lemma CheckMacPieces(record: Block, challenge: Block, other: seq<byte>, serial: Serial)
    requires |other| == 13
    ensures var m := CheckMacMessage(record, challenge, other, serial);
            && |m| == 88 && m[0..32] == record && m[32..64] == challenge && m[64..68] == other[0..4] && m[68..76] == Zeros(8)
            && m[76..79] == other[4..7] && m[79..80] == serial[8..9] && m[80..84] == other[7..11] && m[84..86] == serial[0..2]
            && m[86..88] == other[11..13]
  {
  }

  lemma OtherDataPieces(slot: Slot, serial: Serial)
    ensures var other := CheckMacOtherData(slot, serial);
            && other[0..4] == [0x28, 0, CountByte(slot), 0] && other[4..7] == [0, 0, 0]
            && other[7..11] == [serial[0], serial[0], serial[1], serial[2]] && other[11..13] == [serial[3], 0]
  {
  }

  lemma SerialPieces(serial: Serial)
    ensures serial[8..9] == [serial[8]] && serial[0..2] == [serial[0], serial[1]]
  {
  }

  /** The record, the challenge, the command, zeros for the OTP bytes, and the serial bytes that are mixed in. */
  lemma CheckMacLayout(record: Block, challenge: Block, slot: Slot, serial: Serial)
    ensures var m := CheckMacMessage(record, challenge, CheckMacOtherData(slot, serial), serial);
            && |m| == 88 && m[0..32] == record && m[32..64] == challenge
            && m[64..68] == [0x28, 0, CountByte(slot), 0] && Count(CountByte(slot)) == slot
            && m[68..76] == Zeros(8) && m[76..79] == [0, 0, 0] && m[79..80] == [serial[8]]
            && m[80..84] == [serial[0], serial[0], serial[1], serial[2]] && m[84..86] == [serial[0], serial[1]] && m[86..88] == [serial[3], 0]
  {
    CountOfByte(slot);
    OtherDataPieces(slot, serial);
    SerialPieces(serial);
    CheckMacPieces(record, challenge, CheckMacOtherData(slot, serial), serial);
  }

  /** A command header, the serial bytes mixed in and twenty-five zeros, between two blocks. */
  lemma HeaderPieces(first: Block, header: seq<byte>, serial: Serial, last: Block)
    requires |header| == 4
    ensures var m := first + (header + SerialTag(serial) + last);
            && |m| == 96 && m[0..32] == first && m[32..36] == header && m[36..39] == [serial[8], serial[0], serial[1]]
            && m[39..64] == Zeros(25) && m[64..96] == last
  {
  }

  /** A session key message: I/O key, GenDig command on the data zone and slot, serial bytes, nonce. */
  lemma SessionKeyLayout(key: Block, nonce: Block, slot: Slot, serial: Serial)
    ensures var m := GenDigMessage(key, nonce, slot, serial);
            && |m| == 96 && m[0..32] == key && m[32..36] == [0x15, 0x02, CountByte(slot), 0] && Count(CountByte(slot)) == slot
            && m[36..39] == [serial[8], serial[0], serial[1]] && m[39..64] == Zeros(25) && m[64..96] == nonce
  {
    CountOfByte(slot);
    HeaderPieces(key, [0x15, 0x02, CountByte(slot), 0], serial, nonce);
  }

  /** A data address is eight times the slot, 256 times the block and the word offset in three bits. */
  lemma AddressValue(slot: Slot, blockIndex: nat, offset: nat)
    requires blockIndex < 256
    ensures Number(DataAddress(slot, blockIndex, offset)) == offset % 8 + 8 * slot + 256 * blockIndex
  {
    assert Pow2(3) == 8 && Pow2(5) == 32 && Pow2(8) == 256;
    NumberOfBinary(offset % 8, 3);
    NumberOfBinary(slot, 5);
    NumberOfBinary(blockIndex, 8);
    NumberConcat(Binary(offset % 8, 3) + Binary(slot, 5), Binary(blockIndex, 8));
    NumberConcat(Binary(offset % 8, 3), Binary(slot, 5));
  }

  /** The two bytes of a word, low byte first. */
  lemma WordBytesValue(w: Word)
    ensures Number(w) == Count(WordBytes(w)[0]) + 256 * Count(WordBytes(w)[1])
  {
    WordRoundTrip(w);
    WordValue(WordBytes(w)[0], WordBytes(w)[1]);
  }

  /** A write message: session key, Write command with zone, size and encryption flags (0xC2) and the address low byte
      first, serial bytes, plaintext. */
  lemma WriteLayout(key: Block, param2: Word, serial: Serial, plaintext: Block)
    ensures var m := WriteMessage(key, WRITE_ENCRYPTED, param2, serial, plaintext);
            && |m| == 96 && m[0..32] == key && m[32..34] == [0x12, 0xC2]
            && Count(m[34]) + 256 * Count(m[35]) == Number(param2)
            && m[36..39] == [serial[8], serial[0], serial[1]] && m[39..64] == Zeros(25) && m[64..96] == plaintext
  {
    WordBytesValue(param2);
    var header := [0x12, 0xC2] + WordBytes(param2);
    HeaderPieces(key, header, serial, plaintext);
    var m := WriteMessage(key, WRITE_ENCRYPTED, param2, serial, plaintext);
    assert m == key + (header + SerialTag(serial) + plaintext);
    assert m[32..36] == header && m[34] == m[32..36][2] && m[35] == m[32..36][3] && m[32..34] == header[..2];
  }

  // ---------------------------------------------------------------- frames

  /** A command on the wire: word address 3, count of all that follows, opcode, two parameters low byte first, data, and the
      checksum of everything from the count on, low byte first. */
  lemma CommandLayout(c: Command)
    requires |c.data| <= 155
    ensures var w := [0x03] + CommandFrame(c); var n := |c.data|;
            && |w| == n + 8 && w[0] == 3 && Count(w[1]) == n + 7 && w[2] == c.opcode && w[3] == c.param1
            && Count(w[4]) + 256 * Count(w[5]) == Number(c.param2) && w[6..n + 6] == c.data
            && Count(w[n + 6]) + 256 * Count(w[n + 7]) == Number(Checksum(w[1..n + 6]))
  {
    var f, n := CommandFrame(c), |c.data|;
    var w := [0x03] + f;
    var body := CommandBody(c);
    CountOfByte(n + 7);
    WordBytesValue(c.param2);
    WordBytesValue(Checksum(body));
    assert w[1..n + 6] == f[..n + 5] == body;
    assert w[1] == body[0] && w[2] == body[1] && w[3] == body[2] && w[4] == body[3] && w[5] == body[4];
    assert w[6..n + 6] == body[5..];
    assert w[n + 6] == f[n + 5] == WordBytes(Checksum(body))[0] && w[n + 7] == f[n + 6] == WordBytes(Checksum(body))[1];
  }

  /** An answer: count of the whole, payload, checksum low byte first. */
  lemma ResponseLayout(payload: seq<byte>)
    requires |payload| <= 252
    ensures var f := EncodeResponse(payload); var n := |payload|;
            && |f| == n + 3 && Count(f[0]) == n + 3 && f[1..n + 1] == payload
            && Count(f[n + 1]) + 256 * Count(f[n + 2]) == Number(Checksum(f[..n + 1]))
  {
    var n := |payload|;
    var f, body := EncodeResponse(payload), [CountByte(n + 3)] + payload;
    CountOfByte(n + 3);
    WordBytesValue(Checksum(body));
    assert f[..n + 1] == body && f[0] == body[0] && f[1..n + 1] == body[1..];
    assert f[n + 1] == WordBytes(Checksum(body))[0] && f[n + 2] == WordBytes(Checksum(body))[1];
  }

  /** What is wrong with a frame, in the order it is looked at: fewer than four bytes, a count that is not its length, a
      trailer that is not its checksum. */
  lemma ParseErrorsExactly(f: seq<byte>)
    ensures |f| < 4 <==> ParseResponseFrame(f) == Err(TooShort)
    ensures |f| >= 4 && Count(f[0]) != |f| <==> |f| > 0 && ParseResponseFrame(f) == Err(LengthMismatch(f[0], |f|))
    ensures ParseResponseFrame(f) == Err(BadCrc) <==>
              |f| >= 4 && Count(f[0]) == |f| && Number(Checksum(f[..|f| - 2])) != Count(f[|f| - 2]) + 256 * Count(f[|f| - 1])
  {
    if |f| >= 4 {
      var lo, hi := f[|f| - 2], f[|f| - 1];
      WordValue(lo, hi);
      if Number(Checksum(f[..|f| - 2])) == Number(WordOf(lo, hi)) {
        BinaryOfNumber(Checksum(f[..|f| - 2]));
        BinaryOfNumber(WordOf(lo, hi));
      }
    }
  }
}
