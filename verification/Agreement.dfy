/** Host and chip compute the same hashes: encrypted writes and code checks succeed exactly when the secrets agree. */
module Agreement {
  import opened Bytes
  import opened Messages
  import opened Atecc

  /** The 64-byte payload the host sends: ciphertext, then MAC. */
  function EncryptedPayload(sha: Hash, ioKey: Block, nonce: Block, slot: Slot, serial: Serial, plaintext: Block): (r: seq<byte>)
    ensures |r| == 64
  {
    var key := DeriveSessionKey(sha, ioKey, nonce, SLOT_IO_KEY, serial);
    Xor(plaintext, key) + WriteMac(sha, key, plaintext, slot, serial)
  }

  /** For every plaintext, nonce, serial and slot: with the stored I/O key the chip recovers and stores exactly the
      plaintext, in exactly that slot. */
  lemma RightKeyWrites(sha: Hash, serial: Serial, ioKey: Block, nonce: Block, slot: Slot, plaintext: Block)
    ensures var chipKey := sha(GenDigMessage(ioKey, nonce, SLOT_IO_KEY, serial));
            var address := DataAddress(slot, 0, 0);
            && AddressedSlot(address) == slot
            && Accepts(sha, serial, chipKey, WriteParam1(ZONE_DATA, true, true), address,
                       EncryptedPayload(sha, ioKey, nonce, slot, serial, plaintext)) == Some(plaintext)
  {
    var key := DeriveSessionKey(sha, ioKey, nonce, SLOT_IO_KEY, serial);
    var payload := EncryptedPayload(sha, ioKey, nonce, slot, serial, plaintext);
    AddressNamesSlot(slot, 0, 0);
    ParametersAgree();
    assert payload[..32] == Xor(plaintext, key);
    assert payload[32..] == WriteMac(sha, key, plaintext, slot, serial);
    XorInvolution(plaintext, key);
  }

  /** With any other I/O key the chip refuses, unless the hash collides on the very messages compared. */
  lemma WrongKeyRefused(sha: Hash, serial: Serial, stored: Block, ioKey: Block, nonce: Block, slot: Slot, plaintext: Block)
    requires WriteShows(sha, serial, nonce, stored, ioKey, slot, plaintext) && ioKey != stored
    ensures var chipKey := sha(GenDigMessage(stored, nonce, SLOT_IO_KEY, serial));
            Accepts(sha, serial, chipKey, WriteParam1(ZONE_DATA, true, true), DataAddress(slot, 0, 0),
                    EncryptedPayload(sha, ioKey, nonce, slot, serial, plaintext)) == None
  {
    var hostMsg, chipMsg := GenDigMessage(ioKey, nonce, SLOT_IO_KEY, serial), GenDigMessage(stored, nonce, SLOT_IO_KEY, serial);
    var hostKey, chipKey := sha(hostMsg), sha(chipMsg);
    assert hostMsg[..32] == ioKey && chipMsg[..32] == stored;
    var payload := EncryptedPayload(sha, ioKey, nonce, slot, serial, plaintext);
    assert payload[..32] == Xor(plaintext, hostKey) && payload[32..] == WriteMac(sha, hostKey, plaintext, slot, serial);
    ParametersAgree();
    MessagesDiffer(chipKey, hostKey, slot, serial, Xor(Xor(plaintext, hostKey), chipKey), plaintext);
  }

  lemma MessagesDiffer(k: Block, l: Block, slot: Slot, serial: Serial, p: Block, q: Block)
    requires k != l
    ensures WriteMessage(k, WRITE_ENCRYPTED, DataAddress(slot, 0, 0), serial, p) !=
            WriteMessage(l, WRITE_ENCRYPTED, DataAddress(slot, 0, 0), serial, q)
  {
    assert WriteMessage(k, WRITE_ENCRYPTED, DataAddress(slot, 0, 0), serial, p)[..32] == k;
    assert WriteMessage(l, WRITE_ENCRYPTED, DataAddress(slot, 0, 0), serial, q)[..32] == l;
  }

  /** Responses over one challenge agree exactly when the records do. */
  lemma ResponsesMatchExactly(sha: Hash, serial: Serial, a: Block, b: Block, challenge: Block, other: seq<byte>)
    requires |other| == 13
    requires Apart(sha, CheckMacMessage(a, challenge, other, serial), CheckMacMessage(b, challenge, other, serial))
    ensures (CheckMacResponse(sha, a, challenge, other, serial) == CheckMacResponse(sha, b, challenge, other, serial)) <==> a == b
  {
    assert CheckMacMessage(a, challenge, other, serial)[..32] == a;
    assert CheckMacMessage(b, challenge, other, serial)[..32] == b;
  }

  /** A CheckMac against a stored PIN record succeeds exactly for that PIN, at every challenge the chip draws. */
  lemma PinMatchesExactly(sha: Hash, serial: Serial, tape: seq<Block>, typed: Pin, stored: Pin, draw: nat)
    requires CodesApart(sha, serial, tape) && AllDigits(typed) && AllDigits(stored)
    ensures var other := CheckMacOtherData(SLOT_PIN_HASH, serial);
            (CheckMacResponse(sha, PinHash(sha, serial, stored), Drawn(tape, draw), other, serial) ==
             CheckMacResponse(sha, PinHash(sha, serial, typed), Drawn(tape, draw), other, serial)) <==> stored == typed
  {
    var salt := PinSalt(sha, serial);
    UnfoldApart(sha, serial, tape, LAYERS);
    assert PinsApart(sha, serial, Drawn(tape, draw), stored, typed);
    ResponsesMatchExactly(sha, serial, PinHash(sha, serial, stored), PinHash(sha, serial, typed), Drawn(tape, draw),
                          CheckMacOtherData(SLOT_PIN_HASH, serial));
    assert (typed + salt)[..4] == typed && (stored + salt)[..4] == stored;
  }

  /** And likewise for the PUK. */
  lemma PukMatchesExactly(sha: Hash, serial: Serial, tape: seq<Block>, typed: Puk, stored: Puk, draw: nat)
    requires CodesApart(sha, serial, tape) && AllDigits(typed) && AllDigits(stored)
    ensures var other := CheckMacOtherData(SLOT_PUK_HASH, serial);
            (CheckMacResponse(sha, PukHash(sha, serial, stored), Drawn(tape, draw), other, serial) ==
             CheckMacResponse(sha, PukHash(sha, serial, typed), Drawn(tape, draw), other, serial)) <==> stored == typed
  {
    var salt := PukSalt(sha, serial);
    UnfoldApart(sha, serial, tape, LAYERS);
    assert PuksApart(sha, serial, Drawn(tape, draw), stored, typed);
    ResponsesMatchExactly(sha, serial, PukHash(sha, serial, stored), PukHash(sha, serial, typed), Drawn(tape, draw),
                          CheckMacOtherData(SLOT_PUK_HASH, serial));
    assert (typed + salt)[..8] == typed && (stored + salt)[..8] == stored;
  }

  // ---------------------------------------------------------------- the assumption can be met

  /** A toy hash with the needed separation: enough of the head of each message, padded. */
  function Toy(m: seq<byte>): Block {
    if |m| >= 88 then m[..32]
    else if |m| == 40 then m[..8] + Zeros(24)
    else if |m| == 36 then m[..4] + Zeros(28)
    else Zeros(32)
  }

  /** What is asked of the hash can be met by a function into 32 bytes, for every tape, key and plaintext. */
  lemma SeparationIsSatisfiable(serial: Serial, tape: seq<Block>, stored: Block, key: Block, slot: Slot, plaintext: Block)
    ensures CodesApart(Toy, serial, tape) && KeyShows(Toy, serial, tape, stored, key, slot, plaintext)
  {
    UnfoldApart(Toy, serial, tape, LAYERS);
    UnfoldShows(Toy, serial, tape, stored, key, slot, plaintext, LAYERS);
    forall p: Pin, q: Pin, i: nat
      ensures PinsApart(Toy, serial, Drawn(tape, i), p, q)
    {
      var salt, other := PinSalt(Toy, serial), CheckMacOtherData(SLOT_PIN_HASH, serial);
      assert Toy(p + salt)[..4] == p && Toy(q + salt)[..4] == q;
      LongApart(PinHash(Toy, serial, p), PinHash(Toy, serial, q), CheckMacMessage(PinHash(Toy, serial, p), Drawn(tape, i), other, serial)[32..]);
    }
    forall p: Puk, q: Puk, i: nat
      ensures PuksApart(Toy, serial, Drawn(tape, i), p, q)
    {
      var salt, other := PukSalt(Toy, serial), CheckMacOtherData(SLOT_PUK_HASH, serial);
      assert Toy(p + salt)[..8] == p && Toy(q + salt)[..8] == q;
      LongApart(PukHash(Toy, serial, p), PukHash(Toy, serial, q), CheckMacMessage(PukHash(Toy, serial, p), Drawn(tape, i), other, serial)[32..]);
    }
    forall i: nat
      ensures WriteShows(Toy, serial, Drawn(tape, i), stored, key, slot, plaintext)
    {
      ToyWriteShows(serial, Drawn(tape, i), stored, key, slot, plaintext);
    }
  }

  lemma LongApart(a: Block, b: Block, tail: seq<byte>)
    requires |tail| >= 56
    ensures Apart(Toy, a + tail, b + tail)
  {
    assert (a + tail)[..32] == a && (b + tail)[..32] == b;
  }

  lemma ToyWriteShows(serial: Serial, nonce: Block, stored: Block, key: Block, slot: Slot, plaintext: Block)
    ensures WriteShows(Toy, serial, nonce, stored, key, slot, plaintext)
  {
    var host, chip := GenDigMessage(key, nonce, SLOT_IO_KEY, serial), GenDigMessage(stored, nonce, SLOT_IO_KEY, serial);
    assert host[..32] == key && chip[..32] == stored;
    var k: Block, l: Block := Toy(host), Toy(chip);
    var p: Block := Xor(Xor(plaintext, k), l);
    assert WriteMessage(l, WRITE_ENCRYPTED, DataAddress(slot, 0, 0), serial, p)[..32] == l;
    assert WriteMessage(k, WRITE_ENCRYPTED, DataAddress(slot, 0, 0), serial, plaintext)[..32] == k;
  }
}
