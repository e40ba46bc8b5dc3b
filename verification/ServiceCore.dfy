/** The building blocks of the crypto service: each owns one channel, and each is proved for every pattern of lost
    commands as well as for a clean bus. */
module ServiceCore {
  import opened Bytes
  import opened Errors
  import opened CounterEncoding
  import opened RetryCounter
  import opened Messages
  import opened ChipLog
  import opened Atecc
  import opened Agreement

  /** Same call, nothing signed, and what was confirmed or found exhausted stays so. */
  twostate predicate Quiet(ch: Channel)
    reads ch
  {
    && ch.summary.past == old(ch.summary.past) && ch.summary.current.signings == old(ch.summary.current.signings)
    && (old(ch.summary.current.confirmed) ==> ch.summary.current.confirmed) && old(ch.summary.current.spent) <= ch.summary.current.spent
  }

  /** The channel is usable and between two exchanges. */
  ghost predicate Free(ch: Channel)
    reads ch
  {
    ch.Valid() && !ch.open
  }

  method ReadCounter(ch: Channel, id: CounterId) returns (r: Result<nat, AteccError>)
    requires Free(ch)
    modifies ch
    ensures Free(ch) && ch.chip.memory == old(ch.chip.memory) && Quiet(ch) && ch.step > old(ch.step)
    ensures r.Ok? ==> r.value == ch.Count(id) && ch.power == Resting && ch.gate == GateStep(old(ch.gate), CountRead(id, r.value))
    ensures r.Ok? && Exhausted(r.value, id) ==> id in ch.summary.current.spent
    ensures ch.FaultFree() ==> r.Ok?
  {
    var woke := ch.OpenChannel();
    if woke.Err? {
      return Err(woke.error);
    }
    r := ch.CounterRead(id);
    if r.Err? {
      ch.Drop();
      return;
    }
    var closed := ch.Close();
    if closed.Err? {
      return Err(closed.error);
    }
  }

  /** Did a response over `challenge`, computed for `expected`, match the slot's record? */
  ghost predicate Matches(sha: Hash, serial: Serial, id: CounterId, content: Block, expected: Block, challenge: Block) {
    var other := CheckMacOtherData(CodeSlot(id), serial);
    CheckMacResponse(sha, content, challenge, other, serial) == CheckMacResponse(sha, expected, challenge, other, serial)
  }

  /** The CheckMac itself: one tick, whatever the outcome, unless the test never ran. */
  method AnswerChallenge(ch: Channel, id: CounterId, challenge: Block, response: Block, other: seq<byte>) returns (r: Result<bool, AteccError>)
    requires ch.Valid() && ch.open && |other| == 13 && !Exhausted(ch.Count(id), id)
    modifies ch`step, ch`bus, ch`log, ch`gate, ch`summary, ch`chip
    ensures ch.Valid() && ch.open && Quiet(ch) && ch.step > old(ch.step)
    ensures ch.chip.memory == old(ch.chip.memory) || ch.chip.memory == old(ch.chip.memory).Tick(id)
    ensures r.Ok? ==> && ch.chip.memory == old(ch.chip.memory).Tick(id) && old(ch.Count(id)) < COUNTER_MAX_VALUE
                      && (r.value <==> CheckMacResponse(ch.sha, old(ch.chip.memory.slots)[CodeSlot(id)], challenge, other, ch.serial) == response)
    ensures r == Ok(true) ==> ch.gate == Open && (id == Counter0 ==> ch.summary.current.confirmed)
    ensures ch.FaultFree() ==> if old(ch.Count(id)) == COUNTER_MAX_VALUE
                               then r == Err(Chip(ExecutionError)) && ch.chip.memory == old(ch.chip.memory)
                               else r.Ok?
  {
    ghost var matched;
    r, matched := ch.CheckMac(id, challenge, response, other);
  }

  /** Random challenge and CheckMac in one channel. */
  method CheckmacWithHash(ch: Channel, id: CounterId, expected: Block, serial: Serial) returns (r: Result<bool, AteccError>, ghost draw: nat)
    requires Free(ch) && serial == ch.serial && !Exhausted(ch.Count(id), id)
    modifies ch
    ensures Free(ch) && Quiet(ch) && ch.step > old(ch.step)
    ensures ch.chip.memory == old(ch.chip.memory) || ch.chip.memory == old(ch.chip.memory).Tick(id)
    ensures r.Ok? ==> && ch.chip.memory == old(ch.chip.memory).Tick(id) && ch.power == Resting && old(ch.Count(id)) < COUNTER_MAX_VALUE
                      && (r.value <==> Matches(ch.sha, ch.serial, id, old(ch.chip.memory.slots)[CodeSlot(id)], expected, Drawn(ch.tape, draw)))
    ensures r == Ok(true) ==> ch.gate == Open && (id == Counter0 ==> ch.summary.current.confirmed)
    ensures ch.FaultFree() ==> if old(ch.Count(id)) == COUNTER_MAX_VALUE
                               then r == Err(Chip(ExecutionError)) && ch.chip.memory == old(ch.chip.memory)
                               else r.Ok?
  {
    draw := 0;
    var woke := ch.OpenChannel();
    if woke.Err? {
      return Err(woke.error), draw;
    }
    draw := ch.step;
    var drawn := ch.Random();
    if drawn.Err? {
      ch.Drop();
      return Err(drawn.error), draw;
    }
    var other := CheckMacOtherData(CodeSlot(id), serial);
    var response := CheckMacResponse(ch.sha, expected, drawn.value, other, serial);
    r := AnswerChallenge(ch, id, drawn.value, response, other);
    var closed := ch.Close();
    if closed.Err? {
      return Err(closed.error), draw;
    }
  }

  /** The increments of a refresh, on a channel that stays open unless one is lost. */
  method Increment(ch: Channel, id: CounterId, bumps: nat) returns (r: Result<(), AteccError>)
    requires ch.Valid() && ch.open && ch.gate == Open && ch.Count(id) + bumps <= COUNTER_MAX_VALUE
    modifies ch
    ensures ch.Valid() && ch.open == r.Ok? && ch.gate == Open && Quiet(ch) && ch.step >= old(ch.step)
    ensures ch.chip.memory == old(ch.chip.memory).(counts := old(ch.chip.memory.counts).Set(id, ch.Count(id)))
    ensures old(ch.Count(id)) <= ch.Count(id) <= old(ch.Count(id)) + bumps
    ensures r.Ok? ==> ch.Count(id) == old(ch.Count(id)) + bumps
    ensures ch.FaultFree() ==> r.Ok?
  {
    for k := 0 to bumps
      invariant ch.Valid() && ch.open && ch.gate == Open && Quiet(ch) && ch.step >= old(ch.step)
      invariant ch.Count(id) == old(ch.Count(id)) + k
      invariant ch.chip.memory == old(ch.chip.memory).(counts := old(ch.chip.memory.counts).Set(id, ch.Count(id)))
    {
      var bumped := ch.CounterIncrement(id);
      if bumped == Err(Chip(ExecutionError)) {
        // Tolerated by the service at the hardware ceiling, which a refresh never meets.
        assert false;
      } else if bumped.Err? {
        var _ := ch.Close();
        return Err(bumped.error);
      }
    }
    r := Ok(());
  }

  /** Increment until one past a multiple of the batch. An entitled call may stop short on a lost command, never overshoot. */
  method RefreshCounterBatch(ch: Channel, id: CounterId, batch: nat) returns (r: Result<(), AteccError>)
    requires Free(ch) && ch.gate == Open && batch == Batch(id)
    modifies ch
    ensures Free(ch) && ch.gate == Open && Quiet(ch) && ch.step > old(ch.step)
    ensures ch.chip.memory == old(ch.chip.memory).(counts := old(ch.chip.memory.counts).Set(id, ch.Count(id)))
    ensures old(ch.Count(id)) <= ch.Count(id) <= Refreshed(old(ch.Count(id)), batch)
    ensures r.Ok? ==> ch.Count(id) == Refreshed(old(ch.Count(id)), batch) && ch.power == Resting
    ensures ch.FaultFree() ==> r.Ok?
  {
    RefreshNeverMeetsCeiling(ch.Count(id), id);
    var woke := ch.OpenChannel();
    if woke.Err? {
      return Err(woke.error);
    }
    var current := ch.CounterRead(id);
    if current.Err? {
      ch.Drop();
      return Err(current.error);
    }
    r := Increment(ch, id, Bumps(current.value, batch));
    if r.Ok? {
      var closed := ch.Close();
      if closed.Err? {
        return Err(closed.error);
      }
    }
  }

  /** Random nonce into TempKey, then GenDig on the I/O key: the chip's half of the session key. */
  method LoadSessionKey(ch: Channel) returns (r: Result<Block, AteccError>, ghost draw: nat)
    requires ch.Valid() && ch.open
    modifies ch`step, ch`bus, ch`chip
    ensures ch.Valid() && ch.open && ch.step > old(ch.step)
    ensures ch.chip.memory == old(ch.chip.memory)
    ensures r.Ok? ==> r.value == Drawn(ch.tape, draw)
    ensures r.Ok? ==> ch.chip.tempKey == Some(ch.sha(GenDigMessage(ch.chip.memory.slots[SLOT_IO_KEY], r.value, SLOT_IO_KEY, ch.serial)))
    ensures ch.FaultFree() ==> r.Ok?
  {
    draw := ch.step;
    r := ch.Random();
    if r.Err? {
      return;
    }
    var loaded := ch.NonceTempKey(r.value);
    if loaded.Err? {
      return Err(loaded.error), draw;
    }
    var derived := ch.GenDig(SLOT_IO_KEY);
    if derived.Err? {
      return Err(derived.error), draw;
    }
  }

  /** What a write with `ioKey` may do to memory and reply: with the stored I/O key only the plaintext can land in the
      slot, with another key nothing changes. */
  ghost predicate WriteOutcome(ch: Channel, m: Memory, m': Memory, target: Slot, plaintext: Block, ioKey: Block, ok: bool)
    requires SLOT_IO_KEY in m.slots
  {
    && (m' == m || exists plain: Block :: m' == m.WithSlot(target, plain))
    && (ioKey == m.slots[SLOT_IO_KEY] ==> m' == m.WithSlot(target, plaintext) || (m' == m && !ok))
    && (ioKey != m.slots[SLOT_IO_KEY] && KeyShows(ch.sha, ch.serial, ch.tape, m.slots[SLOT_IO_KEY], ioKey, target, plaintext) ==>
          m' == m && !ok)
  }

  /** Encrypt, authenticate and send, under the session key the chip already holds. */
  method SendEncrypted(ch: Channel, target: Slot, plaintext: Block, ioKey: Block, nonce: Block, serial: Serial, ghost draw: nat)
    returns (r: Result<(), AteccError>)
    requires ch.Valid() && ch.open && ch.gate == Open && serial == ch.serial && target in ch.chip.memory.slots
    requires nonce == Drawn(ch.tape, draw)
    requires ch.chip.tempKey == Some(ch.sha(GenDigMessage(ch.chip.memory.slots[SLOT_IO_KEY], nonce, SLOT_IO_KEY, ch.serial)))
    modifies ch`step, ch`bus, ch`log, ch`gate, ch`summary, ch`chip
    ensures ch.Valid() && ch.open && ch.gate == Open && Quiet(ch) && ch.step > old(ch.step)
    ensures WriteOutcome(ch, old(ch.chip.memory), ch.chip.memory, target, plaintext, ioKey, r.Ok?)
    ensures ch.FaultFree() && ioKey == old(ch.chip.memory.slots)[SLOT_IO_KEY] ==> r.Ok?
    ensures ch.FaultFree() && r.Err? ==> r.error == Chip(ExecutionError)
  {
    var key := DeriveSessionKey(ch.sha, ioKey, nonce, SLOT_IO_KEY, serial);
    var ciphertext := EncryptPayload(plaintext, key);
    var payload := ciphertext + WriteMac(ch.sha, key, plaintext, target, serial);
    ghost var stored := ch.chip.memory.slots[SLOT_IO_KEY];
    ghost var shows := WriteShows(ch.sha, serial, Drawn(ch.tape, draw), stored, ioKey, target, plaintext);
    UnfoldShows(ch.sha, serial, ch.tape, stored, ioKey, target, plaintext, LAYERS);
    PayloadOutcome(ch.sha, serial, ch.chip.memory.slots[SLOT_IO_KEY], ioKey, nonce, target, plaintext, payload);
    r := ch.WriteEncrypted(WriteParam1(ZONE_DATA, true, true), DataAddress(target, 0, 0), payload);
  }

  /** Nonce, GenDig and encrypted write in one channel, so that TempKey survives. */
  method WriteSlotEncrypted(ch: Channel, target: Slot, plaintext: Block, ioKey: Block, serial: Serial) returns (r: Result<(), AteccError>)
    requires Free(ch) && ch.gate == Open && serial == ch.serial && target in ch.chip.memory.slots
    modifies ch
    ensures Free(ch) && ch.gate == Open && Quiet(ch) && ch.step > old(ch.step)
    ensures WriteOutcome(ch, old(ch.chip.memory), ch.chip.memory, target, plaintext, ioKey, r.Ok?)
    ensures r.Ok? ==> ch.power == Resting
    ensures ch.FaultFree() && ioKey == old(ch.chip.memory.slots)[SLOT_IO_KEY] ==> r.Ok?
    ensures ch.FaultFree() && r.Err? ==> r.error == Chip(ExecutionError)
  {
    var woke := ch.OpenChannel();
    if woke.Err? {
      return Err(woke.error);
    }
    var loaded;
    ghost var draw;
    loaded, draw := LoadSessionKey(ch);
    if loaded.Err? {
      ch.Drop();
      return Err(loaded.error);
    }
    r := SendEncrypted(ch, target, plaintext, ioKey, loaded.value, serial, draw);
    if r.Err? {
      ch.Drop();
      return;
    }
    var closed := ch.Close();
    if closed.Err? {
      return Err(closed.error);
    }
  }

  /** What the chip makes of a payload built with `ioKey` when it holds `stored`. */
  lemma PayloadOutcome(sha: Hash, serial: Serial, stored: Block, ioKey: Block, nonce: Block, target: Slot, plaintext: Block, payload: seq<byte>)
    requires payload == EncryptedPayload(sha, ioKey, nonce, target, serial, plaintext)
    ensures AddressedSlot(DataAddress(target, 0, 0)) == target
    ensures var chipKey := sha(GenDigMessage(stored, nonce, SLOT_IO_KEY, serial));
            var accepted := Accepts(sha, serial, chipKey, WriteParam1(ZONE_DATA, true, true), DataAddress(target, 0, 0), payload);
            && (ioKey == stored ==> accepted == Some(plaintext))
            && (ioKey != stored && WriteShows(sha, serial, nonce, stored, ioKey, target, plaintext) ==> accepted == None)
  {
    RightKeyWrites(sha, serial, ioKey, nonce, target, plaintext);
    if ioKey != stored && WriteShows(sha, serial, nonce, stored, ioKey, target, plaintext) {
      WrongKeyRefused(sha, serial, stored, ioKey, nonce, target, plaintext);
    }
  }
}
