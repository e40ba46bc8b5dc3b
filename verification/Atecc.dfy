/** The chip behind its channel: non-volatile memory, volatile registers, a bus that may lose any command before or
    after it takes effect, and ghost records of what was sent and executed. */
module Atecc {
  import opened Bytes
  import opened Errors
  import opened CounterEncoding
  import opened RetryCounter
  import opened Messages
  import opened ChipLog

  /** Counters, data slots, and how often each ECC slot's key has been generated. */
  datatype Memory = Memory(counts: Counts, slots: map<nat, Block>, keys: map<nat, int>) {
    /** The three slots the service works with exist. */
    predicate HasRecords() {
      SLOT_PIN_HASH in slots && SLOT_PUK_HASH in slots && SLOT_IO_KEY in slots
    }

    function Tick(id: CounterId): Memory {
      this.(counts := counts.Set(id, counts.Get(id) + 1))
    }

    function WithSlot(slot: nat, content: Block): Memory {
      this.(slots := slots[slot := content])
    }

    function WithNewKey(slot: nat): Memory
      requires slot in keys
    {
      this.(keys := keys[slot := keys[slot] + 1])
    }
  }

  datatype ChipState = ChipState(memory: Memory, tempKey: Option<Block>, msgDigest: Option<Block>)

  /** A lost exchange reports `error`; the command may have taken effect all the same. */
  datatype Fault = Clean | Lost(error: AteccError, took: bool)

  /** A raw signature stands for what was signed, by which slot's key. */
  datatype Signature = Signature(slot: Slot, generation: int, digest: Block)

  // ---------------------------------------------------------------- the bus record

  /** What went over the bus: wakes and idle tokens that were confirmed, those that were not, and command frames. */
  datatype BusEvent = Woken | WakeLost | Idled | IdleLost | Frame

  datatype Power = Awake | Resting | Uncertain

  /** The chip's power state as far as the bus tells; None once a frame has been sent to a chip not known to be awake. */
  function PowerAfter(bus: seq<BusEvent>): Option<Power> {
    if bus == [] then Some(Resting) else PowerStep(PowerAfter(bus[..|bus| - 1]), bus[|bus| - 1])
  }

  function PowerStep(power: Option<Power>, e: BusEvent): Option<Power> {
    if power.None? then None
    else match e
         case Woken => Some(Awake)
         case Idled => Some(Resting)
         case WakeLost => Some(Uncertain)
         case IdleLost => Some(Uncertain)
         case Frame => if power.value == Awake then power else None
  }

  lemma BusExtend(bus: seq<BusEvent>, e: BusEvent)
    ensures PowerAfter(bus + [e]) == PowerStep(PowerAfter(bus), e)
  {
    assert (bus + [e])[..|bus|] == bus;
  }

  /** While the record is in order: awake means only frames since the last confirmed wake, resting means a confirmed
      idle token was the last thing sent. */
  lemma {:induction false} PowerMeans(bus: seq<BusEvent>)
    requires PowerAfter(bus).Some?
    ensures PowerAfter(bus).value == Awake ==>
              exists w :: 0 <= w < |bus| && bus[w] == Woken && forall k :: w < k < |bus| ==> bus[k] == Frame
    ensures PowerAfter(bus).value == Resting <==> bus == [] || bus[|bus| - 1] == Idled
  {
    if bus != [] {
      var n := |bus| - 1;
      PowerMeans(bus[..n]);
      if bus[n] == Frame {
        var w :| 0 <= w < n && bus[..n][w] == Woken && forall k :: w < k < n ==> bus[..n][k] == Frame;
        assert forall k :: w < k < n ==> bus[k] == bus[..n][k];
      }
    }
  }

  /** Every frame of such a record follows a successful wake with nothing but frames in between. */
  lemma {:induction false} FrameFollowsWake(bus: seq<BusEvent>, i: nat)
    requires PowerAfter(bus).Some? && i < |bus| && bus[i] == Frame
    ensures exists w :: 0 <= w < i && bus[w] == Woken && forall k :: w < k < i ==> bus[k] == Frame
  {
    var n := |bus| - 1;
    if i < n {
      FrameFollowsWake(bus[..n], i);
      var w :| 0 <= w < i && bus[..n][w] == Woken && forall k :: w < k < i ==> bus[..n][k] == Frame;
      assert forall k :: w < k < i ==> bus[k] == bus[..n][k];
    } else {
      PowerMeans(bus[..n]);
      var w :| 0 <= w < n && bus[..n][w] == Woken && forall k :: w < k < n ==> bus[..n][k] == Frame;
      assert forall k :: w < k < n ==> bus[k] == bus[..n][k];
    }
  }

  /** The slot whose use a counter limits. */
  function CodeSlot(id: CounterId): Slot {
    if id == Counter0 then SLOT_PIN_HASH else SLOT_PUK_HASH
  }

  /** Acceptance test of an encrypted write: the chip decrypts, recomputes the MAC over the parameters it received and
      compares. */
  function Accepts(sha: Hash, serial: Serial, tempKey: Block, param1: byte, param2: Word, payload: seq<byte>): (plain: Option<Block>)
    requires |payload| == 64
  {
    var plain: Block := Xor(payload[..32], tempKey);
    if sha(WriteMessage(tempKey, param1, param2, serial, plain)) == payload[32..] then Some(plain) else None
  }

  class Channel {
    const sha: Hash
    const serial: Serial
    const fault: nat -> Fault
    const tape: seq<Block>
    const clock: nat -> nat
    ghost const start: Counts

    var chip: ChipState
    var step: nat
    var open: bool
    ghost var log: Log
    ghost var gate: Gate
    ghost var summary: Summary
    ghost var bus: seq<BusEvent>
    ghost var power: Power

    constructor (sha: Hash, serial: Serial, fault: nat -> Fault, tape: seq<Block>, clock: nat -> nat, memory: Memory)
      requires memory.counts.pin <= COUNTER_MAX_VALUE && memory.counts.puk <= COUNTER_MAX_VALUE
      requires memory.HasRecords()
      requires forall i :: fault(i).Lost? ==> fault(i).error != Chip(ExecutionError)
      requires forall i, j :: i <= j ==> clock(i) <= clock(j)
      ensures Valid() && !open && chip == ChipState(memory, None, None) && log == [] && bus == []
      ensures this.sha == sha && this.serial == serial && this.fault == fault && this.tape == tape && this.clock == clock
      ensures start == memory.counts && gate == Shut
    {
      this.sha, this.serial, this.fault, this.tape, this.clock := sha, serial, fault, tape, clock;
      this.start := memory.counts;
      chip := ChipState(memory, None, None);
      step, open, log, gate, bus := 0, false, [], Shut, [];
      summary, power := Summary([], NOTHING), Resting;
      NothingAccounted(memory.counts, LAYERS);
    }

    function Count(id: CounterId): nat
      reads this
    {
      chip.memory.counts.Get(id)
    }

    ghost predicate FaultFree() {
      forall i :: fault(i) == Clean
    }

    /** Only a chip that refuses reports an execution error; every other failure may come at any time. Time does not go
        back. */
    ghost predicate Physical() {
      && (forall i :: fault(i).Lost? ==> fault(i).error != Chip(ExecutionError))
      && (forall i, j :: i <= j ==> clock(i) <= clock(j))
    }

    ghost predicate Valid()
      reads this
    {
      && Physical()
      && chip.memory.HasRecords()
      && Accounted(log, start, chip.memory.counts, gate, summary, LAYERS)
      && chip.memory.counts.pin <= COUNTER_MAX_VALUE && chip.memory.counts.puk <= COUNTER_MAX_VALUE
      && PowerAfter(bus) == Some(power) && (open ==> power == Awake)
    }

    /** What the folded record says. */
    lemma RecordTells()
      requires Valid()
      ensures Narrates(log, start, chip.memory.counts, gate, summary)
    {
      AccountedMeans(log, start, chip.memory.counts, gate, summary, LAYERS);
    }

    // ---------------------------------------------------------------- recording

    /** A service call begins: from here its deeds are collected anew. */
    ghost method BeginCall()
      requires Valid()
      modifies this`log, this`gate, this`summary
      ensures Valid() && gate == Shut && log == old(log) + [CallStarts]
      ensures summary == Summary(old(summary).All(), NOTHING)
    {
      Record(CallStarts);
    }

    /** Enter an event into the record; the caller brings the counters in line. */
    ghost method Record(e: ChipEvent)
      requires Accounted(log, start, chip.memory.counts, gate, summary, LAYERS) && Permitted(chip.memory.counts, gate, e)
      modifies this`log, this`gate, this`summary
      ensures Accounted(log, start, Ticked(chip.memory.counts, e), gate, summary, LAYERS)
      ensures log == old(log) + [e] && gate == GateStep(old(gate), e) && summary == old(summary).Add(e)
    {
      AccountFor(log, start, chip.memory.counts, gate, summary, LAYERS, e);
      gate := GateStep(gate, e);
      summary := summary.Add(e);
      log := log + [e];
    }

    /** A wake or idle token, confirmed or lost. */
    ghost method Note(e: BusEvent)
      requires PowerAfter(bus) == Some(power) && e != Frame
      modifies this`bus, this`power
      ensures PowerAfter(bus) == Some(power) && bus == old(bus) + [e]
      ensures power == match e case Woken => Awake case Idled => Resting case _ => Uncertain
    {
      BusExtend(bus, e);
      bus := bus + [e];
      power := PowerAfter(bus).value;
    }

    /** Put one frame on the bus. */
    method Send() returns (f: Fault)
      requires PowerAfter(bus) == Some(Awake)
      modifies this`step, this`bus
      ensures PowerAfter(bus) == Some(Awake)
      ensures f == fault(old(step)) && step == old(step) + 1
    {
      f := fault(step);
      step := step + 1;
      BusExtend(bus, Frame);
      bus := bus + [Frame];
    }

    // ---------------------------------------------------------------- opening and closing

    method OpenChannel() returns (r: Result<(), AteccError>)
      requires Valid() && !open
      modifies this`step, this`open, this`bus, this`power
      ensures Valid() && open == r.Ok? && step > old(step)
      ensures FaultFree() ==> r.Ok?
    {
      var f := fault(step);
      step := step + 1;
      if f.Lost? {
        Note(WakeLost);
        return Err(f.error);
      }
      Note(Woken);
      open := true;
      r := Ok(());
    }

    /** Idle token; the message digest buffer does not survive it. */
    method Close() returns (r: Result<(), AteccError>)
      requires Valid() && open
      modifies this`step, this`open, this`bus, this`power, this`chip
      ensures Valid() && !open && step > old(step)
      ensures chip.memory == old(chip.memory)
      ensures r.Ok? ==> power == Resting
      ensures FaultFree() ==> r.Ok?
    {
      var f := fault(step);
      step := step + 1;
      Note(if f.Lost? then IdleLost else Idled);
      open := false;
      if f.Lost? && !f.took {
        return Err(f.error);
      }
      chip := chip.(msgDigest := None);
      r := if f.Lost? then Err(f.error) else Ok(());
    }

    /** A channel dropped on an error path leaves the chip as it is. */
    method Drop()
      requires Valid()
      modifies this`open
      ensures Valid() && !open
    {
      open := false;
    }

    // ---------------------------------------------------------------- commands

    method Random() returns (r: Result<Block, AteccError>)
      requires Valid() && open
      modifies this`step, this`bus
      ensures Valid() && open && step > old(step)
      ensures r.Ok? ==> r.value == Drawn(tape, old(step))
      ensures FaultFree() ==> r.Ok?
    {
      var f := Send();
      r := if f.Lost? then Err(f.error) else Ok(Drawn(tape, step - 1));
    }

    method CounterRead(id: CounterId) returns (r: Result<nat, AteccError>)
      requires Valid() && open
      modifies this`step, this`bus, this`log, this`gate, this`summary
      ensures Valid() && open && step > old(step)
      ensures r.Ok? ==> r.value == Count(id) && log == old(log) + [CountRead(id, r.value)] &&
                        gate == GateStep(old(gate), CountRead(id, r.value)) && summary == old(summary).Add(CountRead(id, r.value))
      ensures r.Err? ==> log == old(log) && gate == old(gate) && summary == old(summary)
      ensures FaultFree() ==> r.Ok?
    {
      var f := Send();
      if f.Lost? {
        return Err(f.error);
      }
      var n := Count(id);
      Record(CountRead(id, n));
      r := Ok(n);
    }

    /** Refused at the ceiling. Only a call entitled to a refresh may issue it. */
    method CounterIncrement(id: CounterId) returns (r: Result<nat, AteccError>)
      requires Valid() && open && gate == Open
      modifies this`step, this`bus, this`log, this`gate, this`summary, this`chip
      ensures Valid() && open && gate == Open && step > old(step)
      ensures chip == old(chip) || (old(Count(id)) < COUNTER_MAX_VALUE &&
                chip == old(chip).(memory := old(chip.memory).Tick(id)))
      ensures log == old(log) || log == old(log) + [Incremented(id, old(Count(id)))]
      ensures summary == old(summary)
      ensures r.Ok? ==> Count(id) == old(Count(id)) + 1
      ensures r == Err(Chip(ExecutionError)) ==> old(Count(id)) == COUNTER_MAX_VALUE
      ensures FaultFree() && old(Count(id)) < COUNTER_MAX_VALUE ==> r.Ok?
    {
      var f := Send();
      if f.Lost? && !f.took {
        return Err(f.error);
      }
      if Count(id) == COUNTER_MAX_VALUE {
        return if f.Lost? then Err(f.error) else Err(Chip(ExecutionError));
      }
      Record(Incremented(id, Count(id)));
      chip := chip.(memory := chip.memory.Tick(id));
      r := if f.Lost? then Err(f.error) else Ok(Count(id));
    }

    /** A limited-use key test whose comparison gives `matched`: one tick whatever the outcome, refused at the
        ceiling. The caller answers for not testing codes on an exhausted batch. */
    method TestCode(id: CounterId, matched: bool) returns (r: Result<bool, AteccError>)
      requires Valid() && open && !Exhausted(Count(id), id)
      modifies this`step, this`bus, this`log, this`gate, this`summary, this`chip
      ensures Valid() && open && step > old(step)
      ensures chip == old(chip) || chip == old(chip).(memory := old(chip.memory).Tick(id))
      ensures log == old(log) || log == old(log) + [CodeChecked(id, old(Count(id)), matched)]
      ensures summary == if log != old(log) then old(summary).Add(CodeChecked(id, old(Count(id)), matched)) else old(summary)
      ensures r.Ok? ==> r.value == matched && old(Count(id)) < COUNTER_MAX_VALUE &&
                        chip == old(chip).(memory := old(chip.memory).Tick(id)) &&
                        log == old(log) + [CodeChecked(id, old(Count(id)), matched)] && gate == (if matched then Open else Shut)
      ensures FaultFree() ==> r == if old(Count(id)) == COUNTER_MAX_VALUE then Err(Chip(ExecutionError)) else Ok(matched)
      ensures FaultFree() && r.Err? ==> chip == old(chip)
    {
      var f := Send();
      if f.Lost? && !f.took {
        return Err(f.error);
      }
      var n := Count(id);
      if n == COUNTER_MAX_VALUE {
        return if f.Lost? then Err(f.error) else Err(Chip(ExecutionError));
      }
      Record(CodeChecked(id, n, matched));
      chip := chip.(memory := chip.memory.Tick(id));
      r := if f.Lost? then Err(f.error) else Ok(matched);
    }

    /** CheckMac on the slot that `id` limits: the chip rebuilds the response from the slot's content. */
    method CheckMac(id: CounterId, challenge: Block, response: Block, other: seq<byte>) returns (r: Result<bool, AteccError>, ghost matched: bool)
      requires Valid() && open && |other| == 13 && !Exhausted(Count(id), id)
      modifies this`step, this`bus, this`log, this`gate, this`summary, this`chip
      ensures Valid() && open && step > old(step)
      ensures matched == (CheckMacResponse(sha, old(chip.memory.slots)[CodeSlot(id)], challenge, other, serial) == response)
      ensures chip == old(chip) || chip == old(chip).(memory := old(chip.memory).Tick(id))
      ensures log == old(log) || log == old(log) + [CodeChecked(id, old(Count(id)), matched)]
      ensures summary == if log != old(log) then old(summary).Add(CodeChecked(id, old(Count(id)), matched)) else old(summary)
      ensures r.Ok? ==> r.value == matched && old(Count(id)) < COUNTER_MAX_VALUE &&
                        chip == old(chip).(memory := old(chip.memory).Tick(id)) &&
                        log == old(log) + [CodeChecked(id, old(Count(id)), matched)] && gate == (if matched then Open else Shut)
      ensures FaultFree() ==> r == if old(Count(id)) == COUNTER_MAX_VALUE then Err(Chip(ExecutionError)) else Ok(matched)
      ensures FaultFree() && r.Err? ==> chip == old(chip)
    {
      var same := CheckMacResponse(sha, chip.memory.slots[CodeSlot(id)], challenge, other, serial) == response;
      matched := same;
      r := TestCode(id, same);
    }

    method NonceTempKey(value: Block) returns (r: Result<(), AteccError>)
      requires Valid() && open
      modifies this`step, this`bus, this`chip
      ensures Valid() && open && step > old(step)
      ensures chip == old(chip) || chip == old(chip).(tempKey := Some(value))
      ensures r.Ok? ==> chip == old(chip).(tempKey := Some(value))
      ensures FaultFree() ==> r.Ok?
    {
      var f := Send();
      if f.Clean? || f.took {
        chip := chip.(tempKey := Some(value));
      }
      r := if f.Lost? then Err(f.error) else Ok(());
    }

    method NonceMsgDigest(value: Block) returns (r: Result<(), AteccError>)
      requires Valid() && open
      modifies this`step, this`bus, this`chip
      ensures Valid() && open && step > old(step)
      ensures chip == old(chip) || chip == old(chip).(msgDigest := Some(value))
      ensures r.Ok? ==> chip == old(chip).(msgDigest := Some(value))
      ensures FaultFree() ==> r.Ok?
    {
      var f := Send();
      if f.Clean? || f.took {
        chip := chip.(msgDigest := Some(value));
      }
      r := if f.Lost? then Err(f.error) else Ok(());
    }

    /** GenDig on the I/O key slot folds the stored key into TempKey. */
    method GenDig(slot: Slot) returns (r: Result<(), AteccError>)
      requires Valid() && open && slot == SLOT_IO_KEY
      modifies this`step, this`bus, this`chip
      ensures Valid() && open && step > old(step)
      ensures chip.memory == old(chip.memory)
      ensures r.Ok? ==> old(chip).tempKey.Some? &&
                        chip.tempKey == Some(sha(GenDigMessage(old(chip).memory.slots[slot], old(chip).tempKey.value, slot, serial)))
      ensures FaultFree() && old(chip).tempKey.Some? ==> r.Ok?
    {
      var f := Send();
      if f.Lost? && !f.took {
        return Err(f.error);
      }
      if chip.tempKey.None? {
        return if f.Lost? then Err(f.error) else Err(Chip(ExecutionError));
      }
      chip := chip.(tempKey := Some(sha(GenDigMessage(chip.memory.slots[slot], chip.tempKey.value, slot, serial))));
      r := if f.Lost? then Err(f.error) else Ok(());
    }

    /** Encrypted 32-byte write: stored exactly when the MAC over the current TempKey matches. */
    method WriteEncrypted(param1: byte, param2: Word, payload: seq<byte>) returns (r: Result<(), AteccError>)
      requires Valid() && open && |payload| == 64 && gate == Open
      modifies this`step, this`bus, this`log, this`gate, this`summary, this`chip
      ensures Valid() && open && gate == old(gate) && step > old(step)
      ensures summary == old(summary)
      ensures var slot, key := AddressedSlot(param2), old(chip).tempKey;
              var plain := if key.Some? && slot in old(chip).memory.slots then Accepts(sha, serial, key.value, param1, param2, payload) else None;
              && ((chip.memory == old(chip.memory) && log == old(log)) ||
                  (plain.Some? && log == old(log) + [SlotWritten(slot, plain.value)] &&
                   chip.memory == old(chip.memory).WithSlot(slot, plain.value)))
              && (r.Ok? ==> plain.Some? && chip.memory == old(chip.memory).WithSlot(slot, plain.value))
              && (FaultFree() ==> r == if plain.Some? then Ok(()) else Err(Chip(ExecutionError)))
    {
      var f := Send();
      if f.Lost? && !f.took {
        return Err(f.error);
      }
      var slot := AddressedSlot(param2);
      if chip.tempKey.None? || slot !in chip.memory.slots {
        return if f.Lost? then Err(f.error) else Err(Chip(ExecutionError));
      }
      var plain := Accepts(sha, serial, chip.tempKey.value, param1, param2, payload);
      if plain.None? {
        return if f.Lost? then Err(f.error) else Err(Chip(ExecutionError));
      }
      Record(SlotWritten(slot, plain.value));
      chip := chip.(memory := chip.memory.WithSlot(slot, plain.value), tempKey := None);
      r := if f.Lost? then Err(f.error) else Ok(());
    }

    /** Generate a key; the public key returned stands for its generation. */
    method GenKey(slot: Slot) returns (r: Result<int, AteccError>)
      requires Valid() && open
      modifies this`step, this`bus, this`log, this`gate, this`summary, this`chip
      ensures Valid() && open && gate == old(gate) && step > old(step)
      ensures summary == old(summary)
      ensures (chip.memory == old(chip.memory) && log == old(log)) ||
              (slot in old(chip.memory.keys) && log == old(log) + [KeyGenerated(slot)] &&
               chip.memory == old(chip.memory).WithNewKey(slot))
      ensures r.Ok? ==> && slot in old(chip.memory.keys) && chip.memory == old(chip.memory).WithNewKey(slot)
                        && r.value == chip.memory.keys[slot]
      ensures FaultFree() ==> if slot in old(chip.memory.keys) then r.Ok? else r == Err(Chip(ExecutionError)) && chip.memory == old(chip.memory)
    {
      var f := Send();
      if f.Lost? && !f.took {
        return Err(f.error);
      }
      if slot !in chip.memory.keys {
        return if f.Lost? then Err(f.error) else Err(Chip(ExecutionError));
      }
      Record(KeyGenerated(slot));
      chip := chip.(memory := chip.memory.WithNewKey(slot));
      r := if f.Lost? then Err(f.error) else Ok(chip.memory.keys[slot]);
    }

    /** Sign what the message digest buffer holds. */
    method SignExternal(slot: Slot) returns (r: Result<Signature, AteccError>)
      requires Valid() && open
      modifies this`step, this`bus, this`log, this`gate, this`summary
      ensures Valid() && open && gate == old(gate) && step > old(step)
      ensures log == old(log) || (chip.msgDigest.Some? && log == old(log) + [DigestSigned(slot, chip.msgDigest.value)])
      ensures summary == if log != old(log) && chip.msgDigest.Some? then old(summary).Add(DigestSigned(slot, chip.msgDigest.value)) else old(summary)
      ensures r.Ok? ==> slot in chip.memory.keys && chip.msgDigest.Some? && log == old(log) + [DigestSigned(slot, chip.msgDigest.value)] &&
                        r.value == Signature(slot, chip.memory.keys[slot], chip.msgDigest.value)
      ensures FaultFree() ==> (r.Ok? <==> slot in chip.memory.keys && chip.msgDigest.Some?) &&
                              (r.Err? ==> r.error == Chip(ExecutionError))
    {
      var f := Send();
      if f.Lost? && !f.took {
        return Err(f.error);
      }
      if slot !in chip.memory.keys || chip.msgDigest.None? {
        return if f.Lost? then Err(f.error) else Err(Chip(ExecutionError));
      }
      Record(DigestSigned(slot, chip.msgDigest.value));
      r := if f.Lost? then Err(f.error) else Ok(Signature(slot, chip.memory.keys[slot], chip.msgDigest.value));
    }

    /** The serial number, read out of the four blocks of the configuration zone. */
    method ReadSerial() returns (r: Result<Serial, AteccError>)
      requires Valid() && open
      modifies this`step, this`bus
      ensures Valid() && open && step > old(step)
      ensures r.Ok? ==> r.value == serial
      ensures FaultFree() ==> r.Ok?
    {
      for k := 0 to 4
        invariant Valid() && step >= old(step) + k
      {
        var f := Send();
        if f.Lost? {
          return Err(f.error);
        }
      }
      r := Ok(serial);
    }
  }
}
