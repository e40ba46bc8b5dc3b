/** The service's building blocks against the abstract token: what a chip that holds a token's codes, budgets and keys
    does to that token. */
module Credentials {
  import opened Bytes
  import opened Errors
  import opened CounterEncoding
  import opened RetryCounter
  import opened Messages
  import opened ChipLog
  import opened Atecc
  import opened Agreement
  import opened Calls
  import opened Session
  import opened Token
  import opened ServiceCore

  // ---------------------------------------------------------------- coupling chip and token

  function BudgetAt(count: nat, batch: nat): Budget
    requires batch >= 2
  {
    Budget(RetriesRemaining(count, batch), COUNTER_MAX_VALUE - count)
  }

  function CodeHash(sha: Hash, serial: Serial, id: CounterId, code: seq<byte>): Block
    requires |code| == CodeLength(id)
  {
    if id == Counter0 then PinHash(sha, serial, code) else PukHash(sha, serial, code)
  }

  /** The slot of one code holds its hash. */
  ghost predicate Stores(sha: Hash, serial: Serial, slots: map<nat, Block>, k: Secrets, id: CounterId) {
    && AllDigits(k.Of(id))
    && CodeSlot(id) in slots && slots[CodeSlot(id)] == CodeHash(sha, serial, id, k.Of(id))
  }

  /** The chip's secrets are these: both codes and the I/O key. */
  ghost predicate Known(sha: Hash, serial: Serial, slots: map<nat, Block>, k: Secrets) {
    && Stores(sha, serial, slots, k, Counter0) && Stores(sha, serial, slots, k, Counter1)
    && SLOT_IO_KEY in slots && slots[SLOT_IO_KEY] == k.ioKey
  }

  /** Secrets, budgets and keys are the token's. */
  ghost predicate Agrees(sha: Hash, serial: Serial, m: Memory, t: Token) {
    && Known(sha, serial, m.slots, t.Codes())
    && t.forPin == BudgetAt(m.counts.pin, PIN_MAX_RETRIES) && t.forPuk == BudgetAt(m.counts.puk, PUK_MAX_RETRIES)
    && m.keys == t.keys && HasIdentity(t.keys)
  }

  /** The two relations folded away behind layers, as methods only hand them on. */
  ghost predicate FoldedKnown(sha: Hash, serial: Serial, slots: map<nat, Block>, k: Secrets, layers: nat)
    decreases layers, k
  {
    if layers == 0 then Known(sha, serial, slots, k) else FoldedKnown(sha, serial, slots, k, layers - 1)
  }

  ghost predicate FoldedAgrees(sha: Hash, serial: Serial, m: Memory, t: Token, layers: nat)
    decreases layers, t
  {
    if layers == 0 then Agrees(sha, serial, m, t) else FoldedAgrees(sha, serial, m, t, layers - 1)
  }

  ghost predicate Remembers(sha: Hash, serial: Serial, slots: map<nat, Block>, k: Secrets) {
    FoldedKnown(sha, serial, slots, k, LAYERS)
  }

  ghost predicate Coupled(sha: Hash, serial: Serial, m: Memory, t: Token) {
    FoldedAgrees(sha, serial, m, t, LAYERS)
  }

  lemma {:induction false} UnfoldKnown(sha: Hash, serial: Serial, slots: map<nat, Block>, k: Secrets, layers: nat)
    ensures FoldedKnown(sha, serial, slots, k, layers) <==> Known(sha, serial, slots, k)
  {
    if layers > 0 {
      UnfoldKnown(sha, serial, slots, k, layers - 1);
    }
  }

  lemma {:induction false} UnfoldAgrees(sha: Hash, serial: Serial, m: Memory, t: Token, layers: nat)
    ensures FoldedAgrees(sha, serial, m, t, layers) <==> Agrees(sha, serial, m, t)
  {
    if layers > 0 {
      UnfoldAgrees(sha, serial, m, t, layers - 1);
    }
  }

  lemma RemembersMeans(sha: Hash, serial: Serial, slots: map<nat, Block>, k: Secrets)
    ensures Remembers(sha, serial, slots, k) <==> Known(sha, serial, slots, k)
  {
    UnfoldKnown(sha, serial, slots, k, LAYERS);
  }

  lemma CoupledMeans(sha: Hash, serial: Serial, m: Memory, t: Token)
    ensures Coupled(sha, serial, m, t) <==> Agrees(sha, serial, m, t)
    ensures Coupled(sha, serial, m, t) ==> Remembers(sha, serial, m.slots, t.Codes())
  {
    UnfoldAgrees(sha, serial, m, t, LAYERS);
    RemembersMeans(sha, serial, m.slots, t.Codes());
  }

  lemma CoupledAnySession(sha: Hash, serial: Serial, m: Memory, t: Token, session: Session)
    ensures Coupled(sha, serial, m, t) <==> Coupled(sha, serial, m, t.(session := session))
  {
    CoupledMeans(sha, serial, m, t);
    CoupledMeans(sha, serial, m, t.(session := session));
  }

  /** The secrets are these and the hash tells digit codes apart; faults are no matter. */
  ghost predicate Secure(ch: Channel, m: Memory, k: Secrets) {
    Remembers(ch.sha, ch.serial, m.slots, k) && CodesApart(ch.sha, ch.serial, ch.tape)
  }

  /** The hash tells `key` from `stored` when it is used to write a code. */
  ghost predicate Tells(ch: Channel, stored: Block, key: Block, id: CounterId, code: seq<byte>)
    requires |code| == CodeLength(id)
  {
    KeyShows(ch.sha, ch.serial, ch.tape, stored, key, CodeSlot(id), CodeHash(ch.sha, ch.serial, id, code))
  }

  /** And when it is used to write a PUK the chip draws. */
  ghost predicate TellsDrawn(ch: Channel, stored: Block, key: Block) {
    forall i: nat {:trigger Drawn(ch.tape, i)} :: Tells(ch, stored, key, Counter1, PukOf(Drawn(ch.tape, i)))
  }

  /** The hash tells whether the request carries the stored I/O key. */
  ghost predicate TellsRequest(ch: Channel, stored: Block, q: Request) {
    match q
    case SetPin(_, newPin, key) => Tells(ch, stored, key, Counter0, newPin)
    case UnblockPin(_, newPin, key) => Tells(ch, stored, key, Counter0, newPin)
    case SetPuk(_, newPuk, key) => Tells(ch, stored, key, Counter1, newPuk)
    case EmergencyReset(key) => TellsDrawn(ch, stored, key)
    case _ => true
  }

  /** A record is as before, or was replaced by someone who had the right code and the I/O key. */
  ghost predicate ChangedBy(ch: Channel, m: Memory, m': Memory, k: Secrets, id: CounterId, code: seq<byte>, target: CounterId, replacement: seq<byte>,
                            ioKey: Block, done: bool)
    requires |replacement| == CodeLength(target) && CodeSlot(target) in m.slots && CodeSlot(target) in m'.slots
  {
    || (m'.slots[CodeSlot(target)] == m.slots[CodeSlot(target)] && !done)
    || (&& code == k.Of(id) && ioKey == k.ioKey && AllDigits(replacement)
        && m'.slots[CodeSlot(target)] == CodeHash(ch.sha, ch.serial, target, replacement))
  }

  /** What an emergency reset may have done to the codes. */
  ghost predicate ResetInPart(ch: Channel, m: Memory, m': Memory, k: Secrets, ioKey: Block, reply: Reply)
    requires m.HasRecords() && m'.HasRecords()
  {
    var pin, puk := m'.slots[SLOT_PIN_HASH], m'.slots[SLOT_PUK_HASH];
    && (pin == m.slots[SLOT_PIN_HASH] || (ioKey == k.ioKey && pin == PinHash(ch.sha, ch.serial, PIN_DEFAULT)))
    && (puk == m.slots[SLOT_PUK_HASH] || (ioKey == k.ioKey && exists p: Puk :: AllDigits(p) && puk == PukHash(ch.sha, ch.serial, p)))
    && (reply.NewPuk? ==> && ioKey == k.ioKey && AllDigits(reply.issued) && pin == PinHash(ch.sha, ch.serial, PIN_DEFAULT)
                          && puk == PukHash(ch.sha, ch.serial, reply.issued))
  }

  /** The conditions of the refinement: a clean bus and a hash that tells digit codes apart. */
  ghost predicate Ideal(ch: Channel) {
    ch.FaultFree() && CodesApart(ch.sha, ch.serial, ch.tape)
  }

  lemma BudgetsAgree(sha: Hash, serial: Serial, m: Memory, t: Token, id: CounterId)
    requires Coupled(sha, serial, m, t)
    ensures t.BudgetOf(id).tries == RetriesRemaining(m.counts.Get(id), Batch(id))
    ensures t.BudgetOf(id).life == COUNTER_MAX_VALUE - m.counts.Get(id)
  {
    CoupledMeans(sha, serial, m, t);
  }

  lemma CoupledTick(sha: Hash, serial: Serial, m: Memory, t: Token, id: CounterId)
    requires Coupled(sha, serial, m, t) && !Exhausted(m.counts.Get(id), id)
    ensures t.BudgetOf(id).tries > 0
    ensures Coupled(sha, serial, m.Tick(id), t.WithBudget(id, t.BudgetOf(id).Spent()))
  {
    CoupledMeans(sha, serial, m, t);
    CoupledMeans(sha, serial, m.Tick(id), t.WithBudget(id, t.BudgetOf(id).Spent()));
    ExhaustedIsSaturated(m.counts.Get(id), id);
    MissCostsOneTry(m.counts.Get(id), Batch(id));
  }

  lemma CoupledRefresh(sha: Hash, serial: Serial, m: Memory, t: Token, id: CounterId)
    requires Coupled(sha, serial, m, t)
    ensures var n := Refreshed(m.counts.Get(id), Batch(id));
            Coupled(sha, serial, m.(counts := m.counts.Set(id, n)), t.WithBudget(id, t.BudgetOf(id).Renewed(Batch(id))))
  {
    var n := Refreshed(m.counts.Get(id), Batch(id));
    CoupledMeans(sha, serial, m, t);
    CoupledMeans(sha, serial, m.(counts := m.counts.Set(id, n)), t.WithBudget(id, t.BudgetOf(id).Renewed(Batch(id))));
    RefreshIsLeast(m.counts.Get(id), Batch(id));
    RefreshCost(m.counts.Get(id), Batch(id));
  }

  lemma CoupledWrite(sha: Hash, serial: Serial, m: Memory, t: Token, id: CounterId, code: seq<byte>)
    requires Coupled(sha, serial, m, t) && |code| == CodeLength(id) && AllDigits(code)
    ensures Coupled(sha, serial, m.WithSlot(CodeSlot(id), CodeHash(sha, serial, id, code)), t.WithCode(id, code))
  {
    CoupledMeans(sha, serial, m, t);
    CoupledMeans(sha, serial, m.WithSlot(CodeSlot(id), CodeHash(sha, serial, id, code)), t.WithCode(id, code));
  }

  lemma CoupledKeys(sha: Hash, serial: Serial, m: Memory, t: Token)
    requires Coupled(sha, serial, m, t) && HasIdentity(t.keys)
    ensures var keys := Regenerated(t.keys, IDENTITY_SLOTS);
            m.keys == t.keys && Coupled(sha, serial, m.(keys := keys), t.(keys := keys))
  {
    var keys := Regenerated(t.keys, IDENTITY_SLOTS);
    CoupledMeans(sha, serial, m, t);
    CoupledMeans(sha, serial, m.(keys := keys), t.(keys := keys));
  }

  lemma CoupledNewKey(sha: Hash, serial: Serial, m: Memory, t: Token, slot: Slot)
    requires Coupled(sha, serial, m, t) && slot in m.keys
    ensures m.keys == t.keys && Coupled(sha, serial, m.WithNewKey(slot), t.(keys := t.keys[slot := t.keys[slot] + 1]))
  {
    CoupledMeans(sha, serial, m, t);
    CoupledMeans(sha, serial, m.WithNewKey(slot), t.(keys := t.keys[slot := t.keys[slot] + 1]));
  }

  lemma HitExactly(sha: Hash, serial: Serial, tape: seq<Block>, m: Memory, t: Token, id: CounterId, code: seq<byte>, draw: nat)
    requires Remembers(sha, serial, m.slots, t.Codes()) && CodesApart(sha, serial, tape)
    requires CodeSlot(id) in m.slots && |code| == CodeLength(id) && AllDigits(code)
    ensures Matches(sha, serial, id, m.slots[CodeSlot(id)], CodeHash(sha, serial, id, code), Drawn(tape, draw)) <==> code == t.CodeOf(id)
  {
    RemembersMeans(sha, serial, m.slots, t.Codes());
    if id == Counter0 {
      PinMatchesExactly(sha, serial, tape, code, t.pin, draw);
    } else {
      PukMatchesExactly(sha, serial, tape, code, t.puk, draw);
    }
  }

  // ---------------------------------------------------------------- frames

  /** From `m` to `m'` only these slots, counters and keys may have changed, and counters only upwards. */
  ghost predicate Confined(m: Memory, m': Memory, slots: set<nat>, ids: set<CounterId>, keys: set<nat>) {
    && m'.slots.Keys == m.slots.Keys && (forall s :: s in m.slots && s !in slots ==> m'.slots[s] == m.slots[s])
    && m'.keys.Keys == m.keys.Keys && (forall k :: k in m.keys && k !in keys ==> m'.keys[k] == m.keys[k])
    && m.counts.pin <= m'.counts.pin && m.counts.puk <= m'.counts.puk
    && (Counter0 !in ids ==> m'.counts.pin == m.counts.pin) && (Counter1 !in ids ==> m'.counts.puk == m.counts.puk)
  }

  ghost predicate FoldedConfined(m: Memory, m': Memory, slots: set<nat>, ids: set<CounterId>, keys: set<nat>, layers: nat)
    decreases layers, slots
  {
    if layers == 0 then Confined(m, m', slots, ids, keys) else FoldedConfined(m, m', slots, ids, keys, layers - 1)
  }

  ghost predicate Within(m: Memory, m': Memory, slots: set<nat>, ids: set<CounterId>, keys: set<nat>) {
    FoldedConfined(m, m', slots, ids, keys, LAYERS)
  }

  lemma {:induction false} UnfoldConfined(m: Memory, m': Memory, slots: set<nat>, ids: set<CounterId>, keys: set<nat>, layers: nat)
    ensures FoldedConfined(m, m', slots, ids, keys, layers) <==> Confined(m, m', slots, ids, keys)
  {
    if layers > 0 {
      UnfoldConfined(m, m', slots, ids, keys, layers - 1);
    }
  }

  lemma WithinMeans(m: Memory, m': Memory, slots: set<nat>, ids: set<CounterId>, keys: set<nat>)
    ensures Within(m, m', slots, ids, keys) <==> Confined(m, m', slots, ids, keys)
  {
    UnfoldConfined(m, m', slots, ids, keys, LAYERS);
  }

  /** Nothing changed, or one counter ticked. */
  lemma WithinSelf(m: Memory, slots: set<nat>, ids: set<CounterId>, keys: set<nat>)
    ensures Within(m, m, slots, ids, keys)
    ensures forall id :: id in ids ==> Within(m, m.Tick(id), slots, ids, keys)
  {
    WithinMeans(m, m, slots, ids, keys);
    forall id | id in ids
      ensures Within(m, m.Tick(id), slots, ids, keys)
    {
      WithinMeans(m, m.Tick(id), slots, ids, keys);
    }
  }

  /** One step after another. */
  lemma WithinBoth(m: Memory, m': Memory, m'': Memory, slots: set<nat>, slots': set<nat>, ids: set<CounterId>, ids': set<CounterId>,
                   keys: set<nat>, keys': set<nat>, allSlots: set<nat>, allIds: set<CounterId>, allKeys: set<nat>)
    requires Within(m, m', slots, ids, keys) && Within(m', m'', slots', ids', keys')
    requires slots <= allSlots && slots' <= allSlots && ids <= allIds && ids' <= allIds && keys <= allKeys && keys' <= allKeys
    ensures Within(m, m', allSlots, allIds, allKeys) && Within(m, m'', allSlots, allIds, allKeys)
  {
    WithinMeans(m, m', slots, ids, keys);
    WithinMeans(m', m'', slots', ids', keys');
    WithinMeans(m, m', allSlots, allIds, allKeys);
    WithinMeans(m, m'', allSlots, allIds, allKeys);
  }

  /** Records and counters outside the frame stay, and the slots are all still there. */
  lemma WithinKeeps(m: Memory, m': Memory, slots: set<nat>, ids: set<CounterId>, keys: set<nat>, slot: nat)
    requires Within(m, m', slots, ids, keys) && m.HasRecords()
    ensures m'.HasRecords()
    ensures slot in m.slots ==> slot in m'.slots && (slot !in slots ==> m'.slots[slot] == m.slots[slot])
    ensures (Counter0 !in ids ==> m'.counts.pin == m.counts.pin) && (Counter1 !in ids ==> m'.counts.puk == m.counts.puk)
  {
    WithinMeans(m, m', slots, ids, keys);
  }

  /** One code replaced in its slot. */
  lemma RemembersWrite(sha: Hash, serial: Serial, m: Memory, m': Memory, ids: set<CounterId>, k: Secrets, id: CounterId, code: seq<byte>)
    requires Remembers(sha, serial, m.slots, k) && |code| == CodeLength(id) && AllDigits(code)
    requires Within(m, m', {CodeSlot(id)}, ids, {})
    requires CodeSlot(id) in m'.slots && m'.slots[CodeSlot(id)] == CodeHash(sha, serial, id, code)
    ensures Remembers(sha, serial, m'.slots, k.With(id, code))
  {
    WithinMeans(m, m', {CodeSlot(id)}, ids, {});
    RemembersMeans(sha, serial, m.slots, k);
    RemembersMeans(sha, serial, m'.slots, k.With(id, code));
  }

  // ---------------------------------------------------------------- the two writes of a reset

  lemma ResetStopped(ch: Channel, m: Memory, m': Memory, k: Secrets, puk: Puk, ioKey: Block, reply: Reply)
    requires m.HasRecords() && m'.HasRecords() && reply.Fail?
    requires Within(m, m', {SLOT_PUK_HASH}, {Counter1}, {}) && ChangedBy(ch, m, m', k, Counter1, k.puk, Counter1, puk, ioKey, false)
    ensures ResetInPart(ch, m, m', k, ioKey, reply)
  {
    WithinKeeps(m, m', {SLOT_PUK_HASH}, {Counter1}, {}, SLOT_PIN_HASH);
  }

  lemma ResetFinished(ch: Channel, m: Memory, m': Memory, m'': Memory, k: Secrets, puk: Puk, ioKey: Block, reply: Reply)
    requires m.HasRecords() && m'.HasRecords() && m''.HasRecords() && (reply == NewPuk(puk) || reply.Fail?)
    requires Within(m, m', {SLOT_PUK_HASH}, {Counter1}, {}) && ChangedBy(ch, m, m', k, Counter1, k.puk, Counter1, puk, ioKey, true)
    requires Within(m', m'', {SLOT_PIN_HASH}, {Counter0}, {})
    requires ChangedBy(ch, m', m'', k.(puk := puk), Counter0, k.pin, Counter0, PIN_DEFAULT, ioKey, reply.NewPuk?)
    ensures ResetInPart(ch, m, m'', k, ioKey, reply)
  {
    WithinKeeps(m, m', {SLOT_PUK_HASH}, {Counter1}, {}, SLOT_PIN_HASH);
    WithinKeeps(m', m'', {SLOT_PIN_HASH}, {Counter0}, {}, SLOT_PUK_HASH);
  }

  // ---------------------------------------------------------------- testing a code

  datatype CodeTest = Hit | Miss(triesRemaining: nat)

  /** Token and verdict after testing a code on a batch that is not exhausted. */
  ghost predicate TestedAsToken(sha: Hash, serial: Serial, t: Token, id: CounterId, code: seq<byte>, r: Result<CodeTest, AteccError>, m': Memory) {
    var b := t.BudgetOf(id);
    if b.life == 0 then r == Err(Chip(ExecutionError)) && Coupled(sha, serial, m', t)
    else
      && b.tries > 0 && r == Ok(if code == t.CodeOf(id) then Hit else Miss(b.tries - 1))
      && Coupled(sha, serial, m', t.WithBudget(id, b.Spent()))
  }

  /** CheckMac with the code's hash. */
  method CheckHash(ch: Channel, id: CounterId, code: seq<byte>, serial: Serial, ghost t: Token) returns (r: Result<bool, AteccError>)
    requires Free(ch) && serial == ch.serial && !Exhausted(ch.Count(id), id)
    requires |code| == CodeLength(id) && AllDigits(code)
    modifies ch
    ensures Free(ch) && Quiet(ch) && ch.step > old(ch.step)
    ensures ch.chip.memory == old(ch.chip.memory) || ch.chip.memory == old(ch.chip.memory).Tick(id)
    ensures r.Ok? ==> ch.power == Resting && ch.chip.memory == old(ch.chip.memory).Tick(id)
    ensures r == Ok(true) ==> ch.gate == Open && (id == Counter0 ==> ch.summary.current.confirmed)
    ensures Secure(ch, old(ch.chip.memory), t.Codes()) && r == Ok(true) ==> code == t.CodeOf(id)
    ensures Ideal(ch) && Coupled(ch.sha, ch.serial, old(ch.chip.memory), t) ==>
              if t.BudgetOf(id).life == 0 then r == Err(Chip(ExecutionError)) && ch.chip.memory == old(ch.chip.memory)
              else r == Ok(code == t.CodeOf(id))
  {
    ghost var draw;
    ghost var m := ch.chip.memory;
    CoupledMeans(ch.sha, ch.serial, m, t);
    r, draw := CheckmacWithHash(ch, id, CodeHash(ch.sha, serial, id, code), serial);
    if Secure(ch, m, t.Codes()) {
      HitExactly(ch.sha, ch.serial, ch.tape, m, t, id, code, draw);
    }
  }

  /** Test a code; on a miss, read the counter again for the tries left. */
  method TryCode(ch: Channel, id: CounterId, code: seq<byte>, serial: Serial, ghost t: Token) returns (r: Result<CodeTest, AteccError>)
    requires Free(ch) && serial == ch.serial && !Exhausted(ch.Count(id), id)
    requires |code| == CodeLength(id) && AllDigits(code)
    modifies ch
    ensures Free(ch) && Quiet(ch) && ch.step > old(ch.step)
    ensures ch.chip.memory == old(ch.chip.memory) || ch.chip.memory == old(ch.chip.memory).Tick(id)
    ensures r.Ok? ==> ch.power == Resting && ch.chip.memory == old(ch.chip.memory).Tick(id)
    ensures r == Ok(Hit) ==> ch.gate == Open && (id == Counter0 ==> ch.summary.current.confirmed)
    ensures Secure(ch, old(ch.chip.memory), t.Codes()) && r == Ok(Hit) ==> code == t.CodeOf(id)
    ensures r.Ok? && r.value.Miss? ==> r.value.triesRemaining == RetriesRemaining(ch.Count(id), Batch(id))
    ensures Ideal(ch) && Coupled(ch.sha, ch.serial, old(ch.chip.memory), t) ==>
              TestedAsToken(ch.sha, ch.serial, t, id, code, r, ch.chip.memory)
  {
    if Coupled(ch.sha, ch.serial, ch.chip.memory, t) {
      CoupledTick(ch.sha, ch.serial, ch.chip.memory, t, id);
      BudgetsAgree(ch.sha, ch.serial, ch.chip.memory, t, id);
      BudgetsAgree(ch.sha, ch.serial, ch.chip.memory.Tick(id), t.WithBudget(id, t.BudgetOf(id).Spent()), id);
    }
    var matched := CheckHash(ch, id, code, serial, t);
    if matched.Err? {
      return Err(matched.error);
    }
    if matched.value {
      return Ok(Hit);
    }
    var count := ReadCounter(ch, id);
    if count.Err? {
      return Err(count.error);
    }
    r := Ok(Miss(RetriesRemaining(count.value, Batch(id))));
  }

  // ---------------------------------------------------------------- replacing a code

  /** The I/O key is not the stored one, and the hash tells. */
  ghost predicate WrongKey(ch: Channel, m: Memory, ioKey: Block, id: CounterId, code: seq<byte>)
    requires SLOT_IO_KEY in m.slots && |code| == CodeLength(id)
  {
    ioKey != m.slots[SLOT_IO_KEY] && Tells(ch, m.slots[SLOT_IO_KEY], ioKey, id, code)
  }

  lemma RightKeyTells(ch: Channel, stored: Block, id: CounterId, code: seq<byte>)
    requires |code| == CodeLength(id)
    ensures Tells(ch, stored, stored, id, code)
  {
    UnfoldShows(ch.sha, ch.serial, ch.tape, stored, stored, CodeSlot(id), CodeHash(ch.sha, ch.serial, id, code), LAYERS);
  }

  /** Encrypted write of a code's hash into its slot. */
  method ReplaceCode(ch: Channel, id: CounterId, code: seq<byte>, ioKey: Block, serial: Serial, ghost t: Token) returns (r: Result<(), AteccError>)
    requires Free(ch) && ch.gate == Open && serial == ch.serial
    requires |code| == CodeLength(id) && AllDigits(code)
    modifies ch
    ensures Free(ch) && ch.gate == Open && Quiet(ch) && ch.step > old(ch.step)
    ensures Within(old(ch.chip.memory), ch.chip.memory, {CodeSlot(id)}, {}, {})
    ensures r.Ok? ==> ch.power == Resting
    ensures r.Ok? && ioKey == old(ch.chip.memory.slots)[SLOT_IO_KEY] ==>
              ch.chip.memory.slots[CodeSlot(id)] == CodeHash(ch.sha, ch.serial, id, code)
    ensures WrongKey(ch, old(ch.chip.memory), ioKey, id, code) ==> r.Err? && ch.chip.memory == old(ch.chip.memory)
    ensures Remembers(ch.sha, ch.serial, old(ch.chip.memory.slots), t.Codes()) && Tells(ch, t.ioKey, ioKey, id, code) ==>
              ChangedBy(ch, old(ch.chip.memory), ch.chip.memory, t.Codes(), id, t.CodeOf(id), id, code, ioKey, r.Ok?)
    ensures ch.FaultFree() && Coupled(ch.sha, ch.serial, old(ch.chip.memory), t) && Tells(ch, t.ioKey, ioKey, id, code) ==>
              if ioKey == t.ioKey
              then r.Ok? && Coupled(ch.sha, ch.serial, ch.chip.memory, t.WithCode(id, code))
              else r == Err(Chip(ExecutionError)) && Coupled(ch.sha, ch.serial, ch.chip.memory, t)
  {
    ghost var m := ch.chip.memory;
    CoupledMeans(ch.sha, ch.serial, m, t);
    RemembersMeans(ch.sha, ch.serial, m.slots, t.Codes());
    WithinSelf(m, {CodeSlot(id)}, {}, {});
    r := WriteSlotEncrypted(ch, CodeSlot(id), CodeHash(ch.sha, serial, id, code), ioKey, serial);
    WithinMeans(m, ch.chip.memory, {CodeSlot(id)}, {}, {});
    if Coupled(ch.sha, ch.serial, m, t) {
      CoupledWrite(ch.sha, ch.serial, m, t, id, code);
    }
  }

  // ---------------------------------------------------------------- renewing a batch

  method RenewBatch(ch: Channel, id: CounterId, ghost t: Token) returns (r: Result<(), AteccError>)
    requires Free(ch) && ch.gate == Open
    modifies ch
    ensures Free(ch) && ch.gate == Open && Quiet(ch) && ch.step > old(ch.step)
    ensures Within(old(ch.chip.memory), ch.chip.memory, {}, {id}, {})
    ensures ch.Count(id) <= Refreshed(old(ch.Count(id)), Batch(id))
    ensures r.Ok? ==> ch.power == Resting && FreshBatch(ch.Count(id), id)
    ensures ch.FaultFree() && Coupled(ch.sha, ch.serial, old(ch.chip.memory), t) ==>
              r.Ok? && Coupled(ch.sha, ch.serial, ch.chip.memory, t.WithBudget(id, t.BudgetOf(id).Renewed(Batch(id))))
  {
    ghost var m := ch.chip.memory;
    r := RefreshCounterBatch(ch, id, Batch(id));
    RefreshIsLeast(m.counts.Get(id), Batch(id));
    WithinMeans(m, ch.chip.memory, {}, {id}, {});
    if Coupled(ch.sha, ch.serial, m, t) {
      CoupledRefresh(ch.sha, ch.serial, m, t, id);
    }
  }

  /** Write a code's hash, then renew a batch: in that order, so that a failed write earns nothing. */
  method ReplaceAndRenew(ch: Channel, id: CounterId, target: CounterId, code: seq<byte>, ioKey: Block, serial: Serial, ghost t: Token)
    returns (r: Result<(), AteccError>)
    requires Free(ch) && ch.gate == Open && serial == ch.serial
    requires |code| == CodeLength(target) && AllDigits(code)
    modifies ch
    ensures Free(ch) && ch.gate == Open && Quiet(ch) && ch.step > old(ch.step)
    ensures Within(old(ch.chip.memory), ch.chip.memory, {CodeSlot(target)}, {id}, {})
    ensures r.Ok? ==> ch.power == Resting && FreshBatch(ch.Count(id), id)
    ensures r.Ok? && ioKey == old(ch.chip.memory.slots)[SLOT_IO_KEY] ==>
              ch.chip.memory.slots[CodeSlot(target)] == CodeHash(ch.sha, ch.serial, target, code)
    ensures WrongKey(ch, old(ch.chip.memory), ioKey, target, code) ==> r.Err? && ch.chip.memory == old(ch.chip.memory)
    ensures Remembers(ch.sha, ch.serial, old(ch.chip.memory.slots), t.Codes()) && Tells(ch, t.ioKey, ioKey, target, code) ==>
              ChangedBy(ch, old(ch.chip.memory), ch.chip.memory, t.Codes(), id, t.CodeOf(id), target, code, ioKey, r.Ok?)
    ensures ch.FaultFree() && Coupled(ch.sha, ch.serial, old(ch.chip.memory), t) && Tells(ch, t.ioKey, ioKey, target, code) ==>
              if ioKey == t.ioKey
              then r.Ok? && Coupled(ch.sha, ch.serial, ch.chip.memory, Renew(t.WithCode(target, code), id))
              else r == Err(Chip(ExecutionError)) && Coupled(ch.sha, ch.serial, ch.chip.memory, t)
  {
    ghost var m := ch.chip.memory;
    r := ReplaceCode(ch, target, code, ioKey, serial, t);
    ghost var m' := ch.chip.memory;
    WithinKeeps(m, m', {CodeSlot(target)}, {}, {}, SLOT_IO_KEY);
    WithinSelf(m', {}, {id}, {});
    if r.Ok? {
      r := RenewBatch(ch, id, t.WithCode(target, code));
    }
    WithinKeeps(m', ch.chip.memory, {}, {id}, {}, CodeSlot(target));
    WithinBoth(m, m', ch.chip.memory, {CodeSlot(target)}, {}, {}, {id}, {}, {}, {CodeSlot(target)}, {id}, {});
  }

  // ---------------------------------------------------------------- fresh keys and a fresh PUK

  const IDENTITY: set<nat> := {0, 1, 2, 3, 4, 7}

  lemma {:induction false} RegeneratedFrame(keys: map<nat, int>, slots: seq<Slot>)
    requires forall i :: 0 <= i < |slots| ==> slots[i] in keys
    ensures forall k :: k in keys && k !in slots ==> Regenerated(keys, slots)[k] == keys[k]
  {
    if slots != [] {
      RegeneratedFrame(keys, slots[..|slots| - 1]);
    }
  }

  /** The first `n` identity keys were regenerated, nothing else happened. */
  ghost predicate Rekeyed(m: Memory, m': Memory, n: nat) {
    && n <= |IDENTITY_SLOTS| && (forall i :: 0 <= i < n ==> IDENTITY_SLOTS[i] in m.keys)
    && m' == m.(keys := Regenerated(m.keys, IDENTITY_SLOTS[..n]))
  }

  lemma RekeyedWithin(m: Memory, m': Memory, n: nat)
    requires Rekeyed(m, m', n)
    ensures Within(m, m', {}, {}, IDENTITY)
    ensures n == |IDENTITY_SLOTS| ==> HasIdentity(m.keys) && m' == m.(keys := Regenerated(m.keys, IDENTITY_SLOTS))
  {
    WithinMeans(m, m', {}, {}, IDENTITY);
    RegeneratedFrame(m.keys, IDENTITY_SLOTS[..n]);
    forall k: nat | k in IDENTITY_SLOTS[..n]
      ensures k in IDENTITY
    {
    }
    assert IDENTITY_SLOTS[..|IDENTITY_SLOTS|] == IDENTITY_SLOTS;
  }

  lemma RekeyedStep(m: Memory, m': Memory, k: nat)
    requires Rekeyed(m, m', k) && k < |IDENTITY_SLOTS|
    ensures IDENTITY_SLOTS[k] in m'.keys ==>
              Rekeyed(m, m'.WithNewKey(IDENTITY_SLOTS[k]), k + 1) && m'.WithNewKey(IDENTITY_SLOTS[k]) != m'
  {
    assert IDENTITY_SLOTS[..k + 1][..k] == IDENTITY_SLOTS[..k];
    if IDENTITY_SLOTS[k] in m'.keys {
      assert m'.WithNewKey(IDENTITY_SLOTS[k]).keys[IDENTITY_SLOTS[k]] != m'.keys[IDENTITY_SLOTS[k]];
    }
  }

  /** The loop of key generations on an open channel. */
  method GenerateEach(ch: Channel) returns (r: Result<(), AteccError>, ghost n: nat)
    requires ch.Valid() && ch.open && ch.gate == Open
    modifies ch
    ensures ch.Valid() && ch.open && ch.gate == Open && Quiet(ch) && ch.step >= old(ch.step)
    ensures Rekeyed(old(ch.chip.memory), ch.chip.memory, n)
    ensures r.Ok? ==> n == |IDENTITY_SLOTS|
    ensures ch.FaultFree() && HasIdentity(old(ch.chip.memory.keys)) ==> r.Ok?
  {
    ghost var m := ch.chip.memory;
    n := 0;
    for k := 0 to |IDENTITY_SLOTS|
      invariant ch.Valid() && ch.open && ch.gate == Open && Quiet(ch) && ch.step >= old(ch.step)
      invariant n == k && Rekeyed(m, ch.chip.memory, n)
    {
      ghost var before := ch.chip.memory;
      RekeyedStep(m, before, k);
      var generated := ch.GenKey(IDENTITY_SLOTS[k]);
      n := if ch.chip.memory == before then k else k + 1;
      if generated.Err? {
        return Err(generated.error), n;
      }
    }
    r := Ok(());
  }

  /** GenKey on every identity slot, in one channel. */
  method RegenerateKeys(ch: Channel) returns (r: Result<(), AteccError>, ghost n: nat)
    requires Free(ch) && ch.gate == Open
    modifies ch
    ensures Free(ch) && ch.gate == Open && Quiet(ch) && ch.step > old(ch.step)
    ensures Rekeyed(old(ch.chip.memory), ch.chip.memory, n)
    ensures r.Ok? ==> ch.power == Resting && n == |IDENTITY_SLOTS|
    ensures ch.FaultFree() && HasIdentity(old(ch.chip.memory.keys)) ==> r.Ok?
  {
    n := 0;
    assert Regenerated(ch.chip.memory.keys, IDENTITY_SLOTS[..0]) == ch.chip.memory.keys;
    var woke := ch.OpenChannel();
    if woke.Err? {
      return Err(woke.error), n;
    }
    r, n := GenerateEach(ch);
    if r.Err? {
      ch.Drop();
      return;
    }
    var closed := ch.Close();
    if closed.Err? {
      return Err(closed.error), n;
    }
  }

  /** The digit a random byte gives: '0' plus the byte modulo 10. */
  function DigitOf(random: byte): (digit: byte)
    ensures Digit(digit) && Count(digit) == 48 + Count(random) % 10
  {
    CountOfByte(48 + Count(random) % 10);
    DigitsByNumber(CountByte(48 + Count(random) % 10));
    CountByte(48 + Count(random) % 10)
  }

  /** The PUK made of a random block: eight digits out of its first eight bytes. */
  function PukOf(random: Block): (puk: Puk)
    ensures AllDigits(puk)
  {
    seq(8, i requires 0 <= i < 8 => DigitOf(random[i]))
  }

  lemma DigitOfCount(u: byte, digit: byte)
    requires Digit(digit) && Count(u) + 48 == Count(digit)
    ensures DigitOf(u) == digit
  {
    DigitsByNumber(digit);
    CountInjective(DigitOf(u), digit);
  }

  lemma DigitIsDrawn(digit: byte) returns (u: byte)
    requires Digit(digit)
    ensures DigitOf(u) == digit
  {
    DigitsByNumber(digit);
    u := ByteWithCount(Count(digit) - 48);
    DigitOfCount(u, digit);
  }

  lemma ByteWithCount(n: nat) returns (u: byte)
    requires n < 256
    ensures Count(u) == n
  {
    CountOfByte(n);
    u := CountByte(n);
  }

  lemma {:induction false} DigitsAreDrawn(code: seq<byte>) returns (us: seq<byte>)
    requires AllDigits(code)
    ensures |us| == |code| && forall i :: 0 <= i < |code| ==> DigitOf(us[i]) == code[i]
  {
    us := [];
    if code != [] {
      var n := |code| - 1;
      var front := DigitsAreDrawn(code[..n]);
      var last := DigitIsDrawn(code[n]);
      us := front + [last];
    }
  }

  /** Every eight-digit PUK is drawn for some block. */
  lemma EveryPukIsDrawn(puk: Puk) returns (random: Block)
    requires AllDigits(puk)
    ensures PukOf(random) == puk
  {
    var us := DigitsAreDrawn(puk);
    random := us + Zeros(24);
    assert forall i :: 0 <= i < 8 ==> random[i] == us[i];
  }

  method GenerateRandomPuk(ch: Channel) returns (r: Result<Puk, AteccError>, ghost draw: nat)
    requires Free(ch)
    modifies ch
    ensures Free(ch) && ch.gate == old(ch.gate) && Quiet(ch) && ch.step > old(ch.step)
    ensures ch.chip.memory == old(ch.chip.memory)
    ensures r.Ok? ==> ch.power == Resting && r.value == PukOf(Drawn(ch.tape, draw)) && old(ch.step) <= draw < ch.step
    ensures ch.FaultFree() ==> r.Ok?
  {
    draw := 0;
    var woke := ch.OpenChannel();
    if woke.Err? {
      return Err(woke.error), draw;
    }
    draw := ch.step;
    var random := ch.Random();
    if random.Err? {
      ch.Drop();
      return Err(random.error), draw;
    }
    var closed := ch.Close();
    if closed.Err? {
      return Err(closed.error), draw;
    }
    var puk := PukDigits(random.value);
    r := Ok(puk);
  }

  method PukDigits(random: Block) returns (puk: Puk)
    ensures puk == PukOf(random)
    ensures forall i :: 0 <= i < 8 ==> Count(puk[i]) == 48 + Count(random[i]) % 10
  {
    var digits := new byte[8];
    for i := 0 to 8
      invariant forall k :: 0 <= k < i ==> digits[k] == DigitOf(random[k])
    {
      digits[i] := DigitOf(random[i]);
    }
    puk := digits[..];
  }
}
