/** The crypto service: the PIN and PUK protocol over the chip, its session and its serial cache. Every operation is
    proved for any pattern of lost commands, and against the abstract token when none is lost. */
module CryptoService {
  import opened Bytes
  import opened Errors
  import opened RetryCounter
  import opened Messages
  import opened ChipLog
  import opened Atecc
  import opened Calls
  import opened Session
  import opened Token
  import opened ServiceCore
  import opened Credentials

  function Failed(e: AteccError): Reply {
    Fail(ServiceError.Atecc(e))
  }

  class CryptoService {
    const atecc: Channel
    var session: Session
    var serial: Option<Serial>

    constructor (atecc: Channel)
      requires Free(atecc)
      ensures this.atecc == atecc && Ready() && session == Session.New()
    {
      this.atecc, session, serial := atecc, Session.New(), None;
    }

    /** Between two chip exchanges, with a cache that tells the truth. */
    ghost predicate Ready()
      reads this, atecc
    {
      Free(atecc) && (serial.Some? ==> serial.value == atecc.serial)
    }

    /** A new call was announced to the chip's record. */
    ghost predicate Announced()
      reads this, atecc
    {
      Ready() && atecc.gate == Shut && atecc.summary.current == NOTHING
    }

    /** Chip and session together are what the token is. */
    ghost predicate Mirrors(t: Token)
      reads this, atecc
    {
      Coupled(atecc.sha, atecc.serial, atecc.chip.memory, t) && session == t.session
    }

    /** Faults or not, the call is over, still the same call, and `at` is a reading of the clock during it. */
    twostate predicate Settled(at: nat)
      reads this, atecc
    {
      && Ready() && atecc.summary.past == old(atecc.summary.past) && atecc.step >= old(atecc.step)
      && atecc.clock(old(atecc.step)) <= at <= atecc.clock(atecc.step)
    }

    /** If the chip mirrored `t` and nothing was lost, the call went as the token would have it. */
    twostate predicate Simulates(t: Token, q: Request, reply: Reply, next: (Reply, Token))
      reads this, atecc
    {
      Ideal(atecc) && TellsRequest(atecc, t.ioKey, q) && old(Mirrors(t)) ==> reply == next.0 && Mirrors(next.1)
    }

    // -------------------------------------------------------------- shared steps

    /** The serial number, read from the chip at most once. */
    method CachedSerial() returns (r: Result<Serial, AteccError>)
      requires Ready()
      modifies this`serial, atecc
      ensures Ready() && atecc.gate == old(atecc.gate) && Quiet(atecc) && atecc.step >= old(atecc.step)
      ensures atecc.chip.memory == old(atecc.chip.memory)
      ensures r.Ok? ==> r.value == atecc.serial && serial == Some(r.value)
      ensures old(serial).Some? ==> r == Ok(old(serial).value) && atecc.step == old(atecc.step)
      ensures atecc.FaultFree() ==> r.Ok?
    {
      if serial.Some? {
        return Ok(serial.value);
      }
      var woke := atecc.OpenChannel();
      if woke.Err? {
        return Err(woke.error);
      }
      r := atecc.ReadSerial();
      if r.Err? {
        atecc.Drop();
        return;
      }
      var closed := atecc.Close();
      if closed.Err? {
        return Err(closed.error);
      }
      serial := Some(r.value);
    }

    method ReadTries(id: CounterId) returns (r: Result<nat, AteccError>)
      requires Ready()
      modifies atecc
      ensures Ready() && Quiet(atecc) && atecc.step > old(atecc.step)
      ensures atecc.chip.memory == old(atecc.chip.memory)
      ensures r.Ok? ==> && r.value == RetriesRemaining(atecc.Count(id), Batch(id))
                        && (r.value == 0 <==> Exhausted(atecc.Count(id), id))
                        && (r.value == 0 ==> id in atecc.summary.current.spent)
                        && atecc.gate == GateStep(old(atecc.gate), CountRead(id, atecc.Count(id)))
      ensures atecc.FaultFree() ==> r.Ok?
    {
      var count := ReadCounter(atecc, id);
      if count.Err? {
        return Err(count.error);
      }
      ExhaustedIsSaturated(count.value, id);
      r := Ok(RetriesRemaining(count.value, Batch(id)));
    }

    /** Refuse an exhausted batch, otherwise test the code: the opening of every PIN or PUK operation. */
    method CheckCode(id: CounterId, code: seq<byte>, ghost t: Token) returns (r: Result<Serial, ServiceError>)
      requires Ready() && |code| == CodeLength(id) && AllDigits(code)
      modifies this`serial, atecc
      ensures Ready() && Quiet(atecc) && atecc.step >= old(atecc.step)
      ensures atecc.chip.memory == old(atecc.chip.memory) || atecc.chip.memory == old(atecc.chip.memory).Tick(id)
      ensures r.Ok? ==> r.value == atecc.serial && atecc.gate == Open && (id == Counter0 ==> atecc.summary.current.confirmed)
      ensures Secure(atecc, old(atecc.chip.memory), t.Codes()) && r.Ok? ==> code == t.CodeOf(id)
      ensures Exhausted(old(atecc.Count(id)), id) ==>
                atecc.chip.memory == old(atecc.chip.memory) && r.Err? && (r.error.Atecc? || r.error == if id == Counter0 then PinBlocked else Bricked)
      ensures r == Err(PinBlocked) || r == Err(Bricked) ==> Exhausted(old(atecc.Count(id)), id)
      ensures Ideal(atecc) && Coupled(atecc.sha, atecc.serial, old(atecc.chip.memory), t) ==>
                && Coupled(atecc.sha, atecc.serial, atecc.chip.memory, Tested(t, id))
                && (match Refusal(t, id, code) case None => r.Ok? case Some(e) => r == Err(e))
    {
      var tries := ReadTries(id);
      if tries.Err? {
        return Err(ServiceError.Atecc(tries.error));
      }
      if Coupled(atecc.sha, atecc.serial, atecc.chip.memory, t) {
        BudgetsAgree(atecc.sha, atecc.serial, atecc.chip.memory, t, id);
      }
      if tries.value == 0 {
        return Err(if id == Counter0 then PinBlocked else Bricked);
      }
      var known := CachedSerial();
      if known.Err? {
        return Err(ServiceError.Atecc(known.error));
      }
      var test := TryCode(atecc, id, code, known.value, t);
      r := match test
        case Err(e) => Err(ServiceError.Atecc(e))
        case Ok(Miss(tries)) => Err(Incorrect(id, tries))
        case Ok(Hit) => Ok(known.value);
    }

    /** A right code earns a fresh batch. */
    method CheckAndRenew(id: CounterId, code: seq<byte>, ghost t: Token) returns (r: Result<(), ServiceError>)
      requires Ready() && |code| == CodeLength(id) && AllDigits(code)
      modifies this`serial, atecc
      ensures Ready() && Quiet(atecc) && atecc.step >= old(atecc.step)
      ensures Within(old(atecc.chip.memory), atecc.chip.memory, {}, {id}, {})
      ensures r.Ok? ==> atecc.power == Resting && FreshBatch(atecc.Count(id), id) && (id == Counter0 ==> atecc.summary.current.confirmed)
      ensures Secure(atecc, old(atecc.chip.memory), t.Codes()) && r.Ok? ==> code == t.CodeOf(id)
      ensures Exhausted(old(atecc.Count(id)), id) ==>
                atecc.chip.memory == old(atecc.chip.memory) && r.Err? && (r.error.Atecc? || r.error == if id == Counter0 then PinBlocked else Bricked)
      ensures r == Err(PinBlocked) || r == Err(Bricked) ==> Exhausted(old(atecc.Count(id)), id)
      ensures Ideal(atecc) && Coupled(atecc.sha, atecc.serial, old(atecc.chip.memory), t) ==>
                match Refusal(t, id, code)
                case Some(e) => r == Err(e) && Coupled(atecc.sha, atecc.serial, atecc.chip.memory, Tested(t, id))
                case None => r.Ok? && Coupled(atecc.sha, atecc.serial, atecc.chip.memory, Renew(Tested(t, id), id))
    {
      ghost var m := atecc.chip.memory;
      WithinSelf(m, {}, {id}, {});
      var check := CheckCode(id, code, t);
      if check.Err? {
        return Err(check.error);
      }
      ghost var m' := atecc.chip.memory;
      var renewed := RenewBatch(atecc, id, Tested(t, id));
      WithinBoth(m, m', atecc.chip.memory, {}, {}, {id}, {id}, {}, {}, {}, {id}, {});
      r := if renewed.Err? then Err(ServiceError.Atecc(renewed.error)) else Ok(());
    }

    /** After a right code, write the hash of another one and renew the batch of the first, in that order. */
    method CheckAndReplace(id: CounterId, code: seq<byte>, target: CounterId, replacement: seq<byte>, ioKey: Block, ghost t: Token)
      returns (reply: Reply)
      requires Ready() && |code| == CodeLength(id) && AllDigits(code)
      requires |replacement| == CodeLength(target) && AllDigits(replacement)
      modifies this`serial, atecc
      ensures Ready() && Quiet(atecc) && atecc.step >= old(atecc.step) && (reply.Done? || reply.Fail?)
      ensures Within(old(atecc.chip.memory), atecc.chip.memory, {CodeSlot(target)}, {id}, {})
      ensures Exhausted(old(atecc.Count(id)), id) ==>
                atecc.chip.memory == old(atecc.chip.memory) && reply.Fail? && (reply.error.Atecc? || reply.error == if id == Counter0 then PinBlocked else Bricked)
      ensures reply == Fail(PinBlocked) || reply == Fail(Bricked) ==> Exhausted(old(atecc.Count(id)), id)
      ensures WrongKey(atecc, old(atecc.chip.memory), ioKey, target, replacement) ==>
                reply.Fail? && (atecc.chip.memory == old(atecc.chip.memory) || atecc.chip.memory == old(atecc.chip.memory).Tick(id))
      ensures reply.Done? ==> && atecc.power == Resting && atecc.gate == Open && FreshBatch(atecc.Count(id), id)
                              && (id == Counter0 ==> atecc.summary.current.confirmed)
      ensures reply.Done? && ioKey == old(atecc.chip.memory.slots)[SLOT_IO_KEY] ==>
                atecc.chip.memory.slots[CodeSlot(target)] == CodeHash(atecc.sha, atecc.serial, target, replacement)
      ensures Secure(atecc, old(atecc.chip.memory), t.Codes()) && Tells(atecc, t.ioKey, ioKey, target, replacement) ==>
                ChangedBy(atecc, old(atecc.chip.memory), atecc.chip.memory, t.Codes(), id, code, target, replacement, ioKey, reply.Done?)
      ensures Ideal(atecc) && Coupled(atecc.sha, atecc.serial, old(atecc.chip.memory), t) && Tells(atecc, t.ioKey, ioKey, target, replacement) ==>
                var next := Replacing(t, id, code, target, replacement, ioKey);
                reply == next.0 && Coupled(atecc.sha, atecc.serial, atecc.chip.memory, next.1)
    {
      ghost var m := atecc.chip.memory;
      WithinSelf(m, {CodeSlot(target)}, {id}, {});
      var check := CheckCode(id, code, t);
      if check.Err? {
        return Fail(check.error);
      }
      ghost var m' := atecc.chip.memory;
      var written := ReplaceAndRenew(atecc, id, target, replacement, ioKey, check.value, Tested(t, id));
      WithinBoth(m, m', atecc.chip.memory, {CodeSlot(target)}, {CodeSlot(target)}, {id}, {id}, {}, {}, {CodeSlot(target)}, {id}, {});
      reply := if written.Err? then Failed(written.error) else Done;
    }

    // -------------------------------------------------------------- operations

    method VerifyPin(pin: Pin, ghost t: Token) returns (reply: Reply, ghost at: nat)
      requires Announced()
      modifies this, atecc
      ensures Settled(at) && atecc.summary.current.signings == [] && (reply.Done? || reply.Fail?)
      ensures session == if reply.Done? then old(session).Open(at) else old(session)
      ensures reply.Done? ==> atecc.summary.current.confirmed && atecc.power == Resting && FreshBatch(atecc.Count(Counter0), Counter0)
      ensures Exhausted(old(atecc.Count(Counter0)), Counter0) ==>
                && atecc.chip.memory == old(atecc.chip.memory) && reply.Fail?
                && (reply.error == PinBlocked || reply.error.Atecc? || reply.error.InvalidFormat?)
      ensures reply.Fail? && (reply.error == PinBlocked || reply.error == Bricked) ==> reply.error == PinBlocked && Exhausted(old(atecc.Count(Counter0)), Counter0)
      ensures Within(old(atecc.chip.memory), atecc.chip.memory, {}, {Counter0}, {})
      ensures Secure(atecc, old(atecc.chip.memory), t.Codes()) && reply.Done? ==> pin == t.pin
      ensures Simulates(t, Request.VerifyPin(pin), reply, OnVerifyPin(t, pin, at))
    {
      at := atecc.clock(atecc.step);
      WithinSelf(atecc.chip.memory, {}, {Counter0}, {});
      var format := ValidateDigits(pin);
      if format.Some? {
        return Fail(InvalidFormat(format.value)), at;
      }
      var verified := CheckAndRenew(Counter0, pin, t);
      if verified.Err? {
        return Fail(verified.error), at;
      }
      var now := atecc.clock(atecc.step);
      at := now;
      CoupledAnySession(atecc.sha, atecc.serial, atecc.chip.memory, Renew(Tested(t, Counter0), Counter0), t.session.Open(now));
      session := session.Open(now);
      reply := Done;
    }

    method SetPin(oldPin: Pin, newPin: Pin, ioKey: Block, ghost t: Token) returns (reply: Reply, ghost at: nat)
      requires Announced()
      modifies this, atecc
      ensures Settled(at) && atecc.summary.current.signings == [] && (reply.Done? || reply.Fail?)
      ensures session == if reply.Done? then old(session).Open(at) else old(session)
      ensures reply.Done? ==> atecc.summary.current.confirmed && atecc.power == Resting && FreshBatch(atecc.Count(Counter0), Counter0)
      ensures reply.Done? && ioKey == old(atecc.chip.memory.slots)[SLOT_IO_KEY] ==>
                atecc.chip.memory.slots[SLOT_PIN_HASH] == PinHash(atecc.sha, atecc.serial, newPin)
      ensures Exhausted(old(atecc.Count(Counter0)), Counter0) ==>
                && atecc.chip.memory == old(atecc.chip.memory) && reply.Fail?
                && (reply.error == PinBlocked || reply.error.Atecc? || reply.error.InvalidFormat?)
      ensures reply.Fail? && (reply.error == PinBlocked || reply.error == Bricked) ==> reply.error == PinBlocked && Exhausted(old(atecc.Count(Counter0)), Counter0)
      ensures Within(old(atecc.chip.memory), atecc.chip.memory, {SLOT_PIN_HASH}, {Counter0}, {})
      ensures WrongKey(atecc, old(atecc.chip.memory), ioKey, Counter0, newPin) ==>
                reply.Fail? && (atecc.chip.memory == old(atecc.chip.memory) || atecc.chip.memory == old(atecc.chip.memory).Tick(Counter0))
      ensures Secure(atecc, old(atecc.chip.memory), t.Codes()) && Tells(atecc, t.ioKey, ioKey, Counter0, newPin) ==>
                ChangedBy(atecc, old(atecc.chip.memory), atecc.chip.memory, t.Codes(), Counter0, oldPin, Counter0, newPin, ioKey, reply.Done?)
      ensures Simulates(t, Request.SetPin(oldPin, newPin, ioKey), reply, OnSetPin(t, oldPin, newPin, ioKey, at))
    {
      at := atecc.clock(atecc.step);
      WithinSelf(atecc.chip.memory, {SLOT_PIN_HASH}, {Counter0}, {});
      var format := ValidateDigits(oldPin);
      if format.None? {
        format := ValidateDigits(newPin);
      }
      if format.Some? {
        return Fail(InvalidFormat(format.value)), at;
      }
      reply := CheckAndReplace(Counter0, oldPin, Counter0, newPin, ioKey, t);
      if reply.Fail? {
        return;
      }
      var now := atecc.clock(atecc.step);
      at := now;
      CoupledAnySession(atecc.sha, atecc.serial, atecc.chip.memory, Replacing(t, Counter0, oldPin, Counter0, newPin, ioKey).1, t.session.Open(now));
      session := session.Open(now);
    }

    method UnblockPin(puk: Puk, newPin: Pin, ioKey: Block, ghost t: Token) returns (reply: Reply, ghost at: nat)
      requires Announced()
      modifies this, atecc
      ensures Settled(at) && atecc.summary.current.signings == [] && (reply.Done? || reply.Fail?)
      ensures session == old(session)
      ensures reply.Done? ==> && atecc.power == Resting && FreshBatch(atecc.Count(Counter0), Counter0)
                              && FreshBatch(atecc.Count(Counter1), Counter1)
      ensures reply.Done? && ioKey == old(atecc.chip.memory.slots)[SLOT_IO_KEY] ==>
                atecc.chip.memory.slots[SLOT_PIN_HASH] == PinHash(atecc.sha, atecc.serial, newPin)
      ensures Exhausted(old(atecc.Count(Counter1)), Counter1) ==>
                && atecc.chip.memory == old(atecc.chip.memory) && reply.Fail?
                && (reply.error == Bricked || reply.error.Atecc? || reply.error.InvalidFormat?)
      ensures reply.Fail? && (reply.error == PinBlocked || reply.error == Bricked) ==> reply.error == Bricked && Exhausted(old(atecc.Count(Counter1)), Counter1)
      ensures Within(old(atecc.chip.memory), atecc.chip.memory, {SLOT_PIN_HASH}, {Counter0, Counter1}, {})
      ensures WrongKey(atecc, old(atecc.chip.memory), ioKey, Counter0, newPin) ==>
                reply.Fail? && (atecc.chip.memory == old(atecc.chip.memory) || atecc.chip.memory == old(atecc.chip.memory).Tick(Counter1))
      ensures Secure(atecc, old(atecc.chip.memory), t.Codes()) && Tells(atecc, t.ioKey, ioKey, Counter0, newPin) ==>
                ChangedBy(atecc, old(atecc.chip.memory), atecc.chip.memory, t.Codes(), Counter1, puk, Counter0, newPin, ioKey, reply.Done?)
      ensures Simulates(t, Request.UnblockPin(puk, newPin, ioKey), reply, OnUnblockPin(t, puk, newPin, ioKey))
    {
      at := atecc.clock(atecc.step);
      ghost var m := atecc.chip.memory;
      WithinSelf(m, {SLOT_PIN_HASH}, {Counter0, Counter1}, {});
      var format := ValidateDigits(puk);
      if format.None? {
        format := ValidateDigits(newPin);
      }
      if format.Some? {
        return Fail(InvalidFormat(format.value)), at;
      }
      reply := CheckAndReplace(Counter1, puk, Counter0, newPin, ioKey, t);
      ghost var m' := atecc.chip.memory;
      WithinSelf(m', {}, {Counter0}, {});
      WithinBoth(m, m', m', {SLOT_PIN_HASH}, {}, {Counter1}, {Counter0}, {}, {}, {SLOT_PIN_HASH}, {Counter0, Counter1}, {});
      if reply.Fail? {
        return;
      }
      var renewed := RenewBatch(atecc, Counter0, Replacing(t, Counter1, puk, Counter0, newPin, ioKey).1);
      WithinKeeps(m', atecc.chip.memory, {}, {Counter0}, {}, SLOT_PIN_HASH);
      WithinBoth(m, m', atecc.chip.memory, {SLOT_PIN_HASH}, {}, {Counter1}, {Counter0}, {}, {}, {SLOT_PIN_HASH}, {Counter0, Counter1}, {});
      reply := if renewed.Err? then Failed(renewed.error) else Done;
    }

    method SetPuk(oldPuk: Puk, newPuk: Puk, ioKey: Block, ghost t: Token) returns (reply: Reply, ghost at: nat)
      requires Announced()
      modifies this, atecc
      ensures Settled(at) && atecc.summary.current.signings == [] && (reply.Done? || reply.Fail?)
      ensures session == if reply.Done? then old(session).Touch(at) else old(session)
      ensures reply.Done? ==> old(session).IsActive(at) && atecc.power == Resting && FreshBatch(atecc.Count(Counter1), Counter1)
      ensures reply.Done? && ioKey == old(atecc.chip.memory.slots)[SLOT_IO_KEY] ==>
                atecc.chip.memory.slots[SLOT_PUK_HASH] == PukHash(atecc.sha, atecc.serial, newPuk)
      ensures Exhausted(old(atecc.Count(Counter1)), Counter1) ==>
                && atecc.chip.memory == old(atecc.chip.memory) && reply.Fail?
                && (reply.error == Bricked || reply.error.Atecc? || reply.error.InvalidFormat? || reply.error == PinRequired)
      ensures reply.Fail? && (reply.error == PinBlocked || reply.error == Bricked) ==> reply.error == Bricked && Exhausted(old(atecc.Count(Counter1)), Counter1)
      ensures Within(old(atecc.chip.memory), atecc.chip.memory, {SLOT_PUK_HASH}, {Counter1}, {})
      ensures WrongKey(atecc, old(atecc.chip.memory), ioKey, Counter1, newPuk) ==>
                reply.Fail? && (atecc.chip.memory == old(atecc.chip.memory) || atecc.chip.memory == old(atecc.chip.memory).Tick(Counter1))
      ensures Secure(atecc, old(atecc.chip.memory), t.Codes()) && Tells(atecc, t.ioKey, ioKey, Counter1, newPuk) ==>
                ChangedBy(atecc, old(atecc.chip.memory), atecc.chip.memory, t.Codes(), Counter1, oldPuk, Counter1, newPuk, ioKey, reply.Done?)
      ensures Simulates(t, Request.SetPuk(oldPuk, newPuk, ioKey), reply, OnSetPuk(t, oldPuk, newPuk, ioKey, at))
    {
      var now := atecc.clock(atecc.step);
      at := now;
      WithinSelf(atecc.chip.memory, {SLOT_PUK_HASH}, {Counter1}, {});
      var format := ValidateDigits(oldPuk);
      if format.None? {
        format := ValidateDigits(newPuk);
      }
      if format.Some? {
        return Fail(InvalidFormat(format.value)), at;
      }
      if !session.IsActive(now) {
        return Fail(PinRequired), at;
      }
      reply := CheckAndReplace(Counter1, oldPuk, Counter1, newPuk, ioKey, t);
      if reply.Done? {
        CoupledAnySession(atecc.sha, atecc.serial, atecc.chip.memory, Replacing(t, Counter1, oldPuk, Counter1, newPuk, ioKey).1, t.session.Touch(now));
        session := session.Touch(now);
      }
    }

    /** Tries left on both codes, the PIN's first. When both are exhausted this is the call's right to a reset. */
    method ReadBothTries() returns (r: Result<(nat, nat), AteccError>)
      requires Ready() && atecc.gate == Shut
      modifies atecc
      ensures Ready() && Quiet(atecc) && atecc.step > old(atecc.step)
      ensures atecc.chip.memory == old(atecc.chip.memory)
      ensures r.Ok? ==> && r.value.0 == RetriesRemaining(atecc.Count(Counter0), PIN_MAX_RETRIES)
                        && r.value.1 == RetriesRemaining(atecc.Count(Counter1), PUK_MAX_RETRIES)
                        && (r.value == (0, 0) <==> Exhausted(atecc.Count(Counter0), Counter0) && Exhausted(atecc.Count(Counter1), Counter1))
                        && (r.value == (0, 0) ==> atecc.gate == Open && BothSpent(atecc.summary.current))
      ensures atecc.FaultFree() ==> r.Ok?
    {
      var pinLeft := ReadTries(Counter0);
      if pinLeft.Err? {
        return Err(pinLeft.error);
      }
      var pukLeft := ReadTries(Counter1);
      if pukLeft.Err? {
        return Err(pukLeft.error);
      }
      r := Ok((pinLeft.value, pukLeft.value));
    }

    /** A given PUK, then the default PIN, each with a fresh batch. */
    method InstallCodes(puk: Puk, ioKey: Block, serial: Serial, ghost t: Token) returns (reply: Reply)
      requires Ready() && atecc.gate == Open && serial == atecc.serial && AllDigits(puk)
      modifies atecc
      ensures Ready() && Quiet(atecc) && atecc.step >= old(atecc.step) && (reply == NewPuk(puk) || reply.Fail?)
      ensures Within(old(atecc.chip.memory), atecc.chip.memory, {SLOT_PIN_HASH, SLOT_PUK_HASH}, {Counter0, Counter1}, {})
      ensures WrongKey(atecc, old(atecc.chip.memory), ioKey, Counter1, puk) ==> reply.Fail? && atecc.chip.memory == old(atecc.chip.memory)
      ensures reply.NewPuk? ==> && atecc.power == Resting
                                && FreshBatch(atecc.Count(Counter0), Counter0) && FreshBatch(atecc.Count(Counter1), Counter1)
      ensures Remembers(atecc.sha, atecc.serial, old(atecc.chip.memory.slots), t.Codes()) && Tells(atecc, t.ioKey, ioKey, Counter1, puk) ==>
                ResetInPart(atecc, old(atecc.chip.memory), atecc.chip.memory, t.Codes(), ioKey, reply)
      ensures atecc.FaultFree() && Coupled(atecc.sha, atecc.serial, old(atecc.chip.memory), t) && Tells(atecc, t.ioKey, ioKey, Counter1, puk) ==>
                var next := ResetTo(t, ioKey, puk);
                reply == next.0 && Coupled(atecc.sha, atecc.serial, atecc.chip.memory, next.1)
    {
      ghost var m := atecc.chip.memory;
      RightKeyTells(atecc, t.ioKey, Counter0, PIN_DEFAULT);
      var done := ReplaceAndRenew(atecc, Counter1, Counter1, puk, ioKey, serial, t);
      ghost var m' := atecc.chip.memory;
      WithinSelf(m', {}, {}, {});
      WithinBoth(m, m', m', {SLOT_PUK_HASH}, {}, {Counter1}, {}, {}, {}, {SLOT_PIN_HASH, SLOT_PUK_HASH}, {Counter0, Counter1}, {});
      if done.Err? {
        reply := Failed(done.error);
        if Remembers(atecc.sha, atecc.serial, m.slots, t.Codes()) && Tells(atecc, t.ioKey, ioKey, Counter1, puk) {
          ResetStopped(atecc, m, m', t.Codes(), puk, ioKey, reply);
        }
        return;
      }
      ghost var secure := Remembers(atecc.sha, atecc.serial, m.slots, t.Codes()) && Tells(atecc, t.ioKey, ioKey, Counter1, puk);
      if secure {
        RemembersWrite(atecc.sha, atecc.serial, m, m', {Counter1}, t.Codes(), Counter1, puk);
      }
      done := ReplaceAndRenew(atecc, Counter0, Counter0, PIN_DEFAULT, ioKey, serial, Renew(t.(puk := puk), Counter1));
      WithinKeeps(m', atecc.chip.memory, {SLOT_PIN_HASH}, {Counter0}, {}, SLOT_PUK_HASH);
      WithinBoth(m, m', atecc.chip.memory, {SLOT_PUK_HASH}, {SLOT_PIN_HASH}, {Counter1}, {Counter0}, {}, {}, {SLOT_PIN_HASH, SLOT_PUK_HASH},
                 {Counter0, Counter1}, {});
      reply := if done.Err? then Failed(done.error) else NewPuk(puk);
      if secure {
        ResetFinished(atecc, m, m', atecc.chip.memory, t.Codes(), puk, ioKey, reply);
      }
    }

    /** Steps 3 and 4 of the reset: draw a PUK and install the codes. */
    method ResetCodes(ioKey: Block, serial: Serial, ghost t: Token) returns (reply: Reply, ghost draw: nat)
      requires Ready() && atecc.gate == Open && serial == atecc.serial
      modifies atecc
      ensures Ready() && Quiet(atecc) && atecc.step >= old(atecc.step) && (reply.NewPuk? || reply.Fail?)
      ensures Within(old(atecc.chip.memory), atecc.chip.memory, {SLOT_PIN_HASH, SLOT_PUK_HASH}, {Counter0, Counter1}, {})
      ensures ioKey != old(atecc.chip.memory.slots)[SLOT_IO_KEY] && TellsDrawn(atecc, old(atecc.chip.memory.slots)[SLOT_IO_KEY], ioKey) ==>
                reply.Fail? && atecc.chip.memory == old(atecc.chip.memory)
      ensures reply.NewPuk? ==> old(atecc.step) <= draw < atecc.step && reply.issued == PukOf(Drawn(atecc.tape, draw))
      ensures reply.NewPuk? ==> && AllDigits(reply.issued) && atecc.power == Resting
                                && FreshBatch(atecc.Count(Counter0), Counter0) && FreshBatch(atecc.Count(Counter1), Counter1)
      ensures Remembers(atecc.sha, atecc.serial, old(atecc.chip.memory.slots), t.Codes()) && TellsDrawn(atecc, t.ioKey, ioKey) ==>
                ResetInPart(atecc, old(atecc.chip.memory), atecc.chip.memory, t.Codes(), ioKey, reply)
      ensures atecc.FaultFree() && Coupled(atecc.sha, atecc.serial, old(atecc.chip.memory), t) && TellsDrawn(atecc, t.ioKey, ioKey) ==>
                var next := ResetTo(t, ioKey, Issued(reply));
                reply == next.0 && Coupled(atecc.sha, atecc.serial, atecc.chip.memory, next.1)
    {
      WithinSelf(atecc.chip.memory, {SLOT_PIN_HASH, SLOT_PUK_HASH}, {Counter0, Counter1}, {});
      var drawn;
      drawn, draw := GenerateRandomPuk(atecc);
      if drawn.Err? {
        return Failed(drawn.error), draw;
      }
      reply := InstallCodes(drawn.value, ioKey, serial, t);
    }

    /** Steps 2 to 4 of the reset, once permitted: keys, PUK, PIN. */
    method Rebuild(ioKey: Block, serial: Serial, ghost t: Token) returns (reply: Reply, ghost draw: nat)
      requires Ready() && atecc.gate == Open && serial == atecc.serial && HasIdentity(t.keys)
      modifies atecc
      ensures Ready() && Quiet(atecc) && atecc.step >= old(atecc.step) && (reply.NewPuk? || reply.Fail?)
      ensures Within(old(atecc.chip.memory), atecc.chip.memory, {SLOT_PIN_HASH, SLOT_PUK_HASH}, {Counter0, Counter1}, IDENTITY)
      ensures ioKey != old(atecc.chip.memory.slots)[SLOT_IO_KEY] && TellsDrawn(atecc, old(atecc.chip.memory.slots)[SLOT_IO_KEY], ioKey) ==>
                reply.Fail? && atecc.chip.memory == old(atecc.chip.memory).(keys := atecc.chip.memory.keys)
      ensures reply.NewPuk? ==> old(atecc.step) <= draw < atecc.step && reply.issued == PukOf(Drawn(atecc.tape, draw))
      ensures reply.NewPuk? ==> && AllDigits(reply.issued) && atecc.power == Resting
                                && FreshBatch(atecc.Count(Counter0), Counter0) && FreshBatch(atecc.Count(Counter1), Counter1)
      ensures Remembers(atecc.sha, atecc.serial, old(atecc.chip.memory.slots), t.Codes()) && TellsDrawn(atecc, t.ioKey, ioKey) ==>
                ResetInPart(atecc, old(atecc.chip.memory), atecc.chip.memory, t.Codes(), ioKey, reply)
      ensures atecc.FaultFree() && Coupled(atecc.sha, atecc.serial, old(atecc.chip.memory), t) && TellsDrawn(atecc, t.ioKey, ioKey) ==>
                var next := Rebuilt(t, ioKey, Issued(reply));
                reply == next.0 && Coupled(atecc.sha, atecc.serial, atecc.chip.memory, next.1)
    {
      ghost var m := atecc.chip.memory;
      if Coupled(atecc.sha, atecc.serial, m, t) {
        CoupledKeys(atecc.sha, atecc.serial, m, t);
      }
      var rekeyed;
      ghost var n;
      rekeyed, n := RegenerateKeys(atecc);
      ghost var m' := atecc.chip.memory;
      RekeyedWithin(m, m', n);
      WithinSelf(m', {}, {}, {});
      WithinBoth(m, m', m', {}, {}, {}, {}, IDENTITY, {}, {SLOT_PIN_HASH, SLOT_PUK_HASH}, {Counter0, Counter1}, IDENTITY);
      draw := 0;
      if rekeyed.Err? {
        return Failed(rekeyed.error), draw;
      }
      reply, draw := ResetCodes(ioKey, serial, t.(keys := Regenerated(t.keys, IDENTITY_SLOTS)));
      WithinBoth(m, m', atecc.chip.memory, {}, {SLOT_PIN_HASH, SLOT_PUK_HASH}, {}, {Counter0, Counter1}, IDENTITY, {}, {SLOT_PIN_HASH, SLOT_PUK_HASH},
                 {Counter0, Counter1}, IDENTITY);
    }

    /** Step 1 of the reset: both batches must be exhausted. */
    method PermitReset(ghost t: Token) returns (r: Result<Serial, ServiceError>)
      requires Ready() && atecc.gate == Shut
      modifies this`serial, atecc
      ensures Ready() && Quiet(atecc) && atecc.step >= old(atecc.step) && atecc.chip.memory == old(atecc.chip.memory)
      ensures r.Ok? ==> && r.value == atecc.serial && atecc.gate == Open && BothSpent(atecc.summary.current)
                        && Exhausted(atecc.Count(Counter0), Counter0) && Exhausted(atecc.Count(Counter1), Counter1)
      ensures atecc.FaultFree() && Coupled(atecc.sha, atecc.serial, atecc.chip.memory, t) ==>
                if t.forPin.tries == 0 && t.forPuk.tries == 0 then r.Ok?
                else r == Err(EmergencyResetNotPermitted(Tries(t.forPin), Tries(t.forPuk)))
    {
      if Coupled(atecc.sha, atecc.serial, atecc.chip.memory, t) {
        BudgetsAgree(atecc.sha, atecc.serial, atecc.chip.memory, t, Counter0);
        BudgetsAgree(atecc.sha, atecc.serial, atecc.chip.memory, t, Counter1);
      }
      var tries := ReadBothTries();
      if tries.Err? {
        return Err(ServiceError.Atecc(tries.error));
      }
      var (pinLeft, pukLeft) := tries.value;
      if pinLeft != 0 || pukLeft != 0 {
        return Err(EmergencyResetNotPermitted(pinLeft, pukLeft));
      }
      var known := CachedSerial();
      r := if known.Err? then Err(ServiceError.Atecc(known.error)) else Ok(known.value);
    }

    method EmergencyReset(ioKey: Block, ghost t: Token) returns (reply: Reply, ghost at: nat, ghost draw: nat)
      requires Announced() && HasIdentity(t.keys)
      modifies this, atecc
      ensures Settled(at) && atecc.summary.current.signings == [] && (reply.NewPuk? || reply.Fail?)
      ensures session == old(session)
      ensures reply.NewPuk? ==> old(atecc.step) <= draw < atecc.step && reply.issued == PukOf(Drawn(atecc.tape, draw))
      ensures reply.NewPuk? ==> && AllDigits(reply.issued) && atecc.power == Resting
                                && FreshBatch(atecc.Count(Counter0), Counter0) && FreshBatch(atecc.Count(Counter1), Counter1)
      ensures Within(old(atecc.chip.memory), atecc.chip.memory, {SLOT_PIN_HASH, SLOT_PUK_HASH}, {Counter0, Counter1}, IDENTITY)
      ensures ioKey != old(atecc.chip.memory.slots)[SLOT_IO_KEY] && TellsDrawn(atecc, old(atecc.chip.memory.slots)[SLOT_IO_KEY], ioKey) ==>
                reply.Fail? && atecc.chip.memory == old(atecc.chip.memory).(keys := atecc.chip.memory.keys)
      ensures !(Exhausted(old(atecc.Count(Counter0)), Counter0) && Exhausted(old(atecc.Count(Counter1)), Counter1)) ==>
                reply.Fail? && atecc.chip.memory == old(atecc.chip.memory)
      ensures reply.NewPuk? || atecc.chip.memory != old(atecc.chip.memory) ==> BothSpent(atecc.summary.current)
      ensures Remembers(atecc.sha, atecc.serial, old(atecc.chip.memory.slots), t.Codes()) && TellsDrawn(atecc, t.ioKey, ioKey) ==>
                ResetInPart(atecc, old(atecc.chip.memory), atecc.chip.memory, t.Codes(), ioKey, reply)
      ensures Simulates(t, Request.EmergencyReset(ioKey), reply, OnEmergencyReset(t, ioKey, Issued(reply)))
    {
      at := atecc.clock(atecc.step);
      WithinSelf(atecc.chip.memory, {SLOT_PIN_HASH, SLOT_PUK_HASH}, {Counter0, Counter1}, IDENTITY);
      var known := PermitReset(t);
      if known.Err? {
        return Fail(known.error), at, 0;
      }
      reply, draw := Rebuild(ioKey, known.value, t);
    }

    method Sign(slot: Slot, digest: Block, ghost t: Token) returns (reply: Reply, ghost at: nat)
      requires Announced()
      modifies this, atecc
      ensures Settled(at) && (reply.Signed? || reply.Fail?)
      ensures session == if reply.Signed? then old(session).Touch(at) else old(session)
      ensures atecc.summary.current.signings == [] ||
              (old(session).IsActive(at) && atecc.summary.current.signings == [Signing(slot, digest)])
      ensures reply.Signed? ==> && atecc.summary.current.signings != [] && atecc.power == Resting
                                && reply.signature.slot == slot && reply.signature.digest == digest
      ensures atecc.chip.memory == old(atecc.chip.memory)
      ensures Simulates(t, Request.Sign(slot, digest), reply, OnSign(t, slot, digest, at))
    {
      var now := atecc.clock(atecc.step);
      at := now;
      if !session.IsActive(now) {
        return Fail(PinRequired), at;
      }
      var woke := atecc.OpenChannel();
      if woke.Err? {
        return Failed(woke.error), at;
      }
      CoupledMeans(atecc.sha, atecc.serial, atecc.chip.memory, t);
      var signature := SignDigest(slot, digest);
      if signature.Err? {
        atecc.Drop();
        return Failed(signature.error), at;
      }
      var closed := atecc.Close();
      if closed.Err? {
        return Failed(closed.error), at;
      }
      CoupledAnySession(atecc.sha, atecc.serial, atecc.chip.memory, t, t.session.Touch(now));
      session := session.Touch(now);
      reply := Signed(signature.value);
    }

    /** Load the message digest buffer and sign from it, in one channel. */
    method SignDigest(slot: Slot, digest: Block) returns (r: Result<Signature, AteccError>)
      requires atecc.Valid() && atecc.open && atecc.summary.current.signings == []
      modifies atecc
      ensures atecc.Valid() && atecc.open && atecc.step > old(atecc.step)
      ensures atecc.summary.past == old(atecc.summary.past) && atecc.chip.memory == old(atecc.chip.memory)
      ensures atecc.summary.current.signings == [] || atecc.summary.current.signings == [Signing(slot, digest)]
      ensures r.Ok? ==> && atecc.summary.current.signings != [] && slot in atecc.chip.memory.keys
                        && r.value == Signature(slot, atecc.chip.memory.keys[slot], digest)
      ensures atecc.FaultFree() ==> if slot in atecc.chip.memory.keys then r.Ok? else r == Err(Chip(ExecutionError))
    {
      var loaded := atecc.NonceMsgDigest(digest);
      if loaded.Err? {
        return Err(loaded.error);
      }
      r := atecc.SignExternal(slot);
    }

    /** GenKey in a channel of its own. */
    method MakeKey(slot: Slot) returns (r: Result<int, AteccError>)
      requires Ready()
      modifies atecc
      ensures Ready() && Quiet(atecc) && atecc.step > old(atecc.step)
      ensures atecc.chip.memory == old(atecc.chip.memory) ||
              (slot in old(atecc.chip.memory.keys) && atecc.chip.memory == old(atecc.chip.memory).WithNewKey(slot))
      ensures r.Ok? ==> && atecc.power == Resting && slot in old(atecc.chip.memory.keys)
                        && atecc.chip.memory == old(atecc.chip.memory).WithNewKey(slot) && r.value == atecc.chip.memory.keys[slot]
      ensures atecc.FaultFree() ==> if slot in old(atecc.chip.memory.keys) then r.Ok?
                                    else r == Err(Chip(ExecutionError)) && atecc.chip.memory == old(atecc.chip.memory)
    {
      var woke := atecc.OpenChannel();
      if woke.Err? {
        return Err(woke.error);
      }
      r := atecc.GenKey(slot);
      if r.Err? {
        atecc.Drop();
        return;
      }
      var closed := atecc.Close();
      if closed.Err? {
        return Err(closed.error);
      }
    }

    /** Replace a key; no session is asked for. */
    method GenerateKey(slot: Slot, ghost t: Token) returns (reply: Reply, ghost at: nat)
      requires Announced()
      modifies this, atecc
      ensures Settled(at) && atecc.summary.current.signings == [] && (reply.PublicKey? || reply.Fail?)
      ensures session == old(session) && Within(old(atecc.chip.memory), atecc.chip.memory, {}, {}, {slot})
      ensures reply.PublicKey? ==> && atecc.power == Resting && slot in old(atecc.chip.memory.keys)
                                   && reply.generation == old(atecc.chip.memory.keys)[slot] + 1 == atecc.chip.memory.keys[slot]
      ensures Simulates(t, Request.GenerateKey(slot), reply, OnGenerateKey(t, slot))
    {
      at := atecc.clock(atecc.step);
      ghost var m := atecc.chip.memory;
      WithinMeans(m, m, {}, {}, {slot});
      var made := MakeKey(slot);
      WithinMeans(m, atecc.chip.memory, {}, {}, {slot});
      CoupledMeans(atecc.sha, atecc.serial, m, t);
      if Coupled(atecc.sha, atecc.serial, m, t) && slot in m.keys {
        CoupledNewKey(atecc.sha, atecc.serial, m, t, slot);
      }
      reply := if made.Err? then Failed(made.error) else PublicKey(slot, made.value);
    }

    /** Both counters, in one channel. */
    method ReadCounters() returns (r: Result<(nat, nat), AteccError>)
      requires Ready()
      modifies atecc
      ensures Ready() && Quiet(atecc) && atecc.step > old(atecc.step)
      ensures atecc.chip.memory == old(atecc.chip.memory)
      ensures r.Ok? ==> atecc.power == Resting && r.value == (atecc.Count(Counter0), atecc.Count(Counter1))
      ensures atecc.FaultFree() ==> r.Ok?
    {
      var woke := atecc.OpenChannel();
      if woke.Err? {
        return Err(woke.error);
      }
      var c0 := atecc.CounterRead(Counter0);
      if c0.Err? {
        atecc.Drop();
        return Err(c0.error);
      }
      var c1 := atecc.CounterRead(Counter1);
      if c1.Err? {
        atecc.Drop();
        return Err(c1.error);
      }
      var closed := atecc.Close();
      r := if closed.Err? then Err(closed.error) else Ok((c0.value, c1.value));
    }

    method GetPinStatus(ghost t: Token) returns (reply: Reply, ghost at: nat)
      requires Announced()
      modifies this, atecc
      ensures Settled(at) && atecc.summary.current.signings == [] && (reply.Status? || reply.Fail?)
      ensures session == old(session) && atecc.chip.memory == old(atecc.chip.memory)
      ensures reply.Status? ==> && atecc.power == Resting && reply.sessionActive == session.IsActive(at)
                                && reply.pinTries == RetriesRemaining(atecc.Count(Counter0), PIN_MAX_RETRIES)
                                && reply.pukTries == RetriesRemaining(atecc.Count(Counter1), PUK_MAX_RETRIES)
      ensures Simulates(t, Request.GetPinStatus, reply, OnStatus(t, at))
    {
      at := atecc.clock(atecc.step);
      if Coupled(atecc.sha, atecc.serial, atecc.chip.memory, t) {
        BudgetsAgree(atecc.sha, atecc.serial, atecc.chip.memory, t, Counter0);
        BudgetsAgree(atecc.sha, atecc.serial, atecc.chip.memory, t, Counter1);
      }
      var counts := ReadCounters();
      if counts.Err? {
        return Failed(counts.error), at;
      }
      var now := atecc.clock(atecc.step);
      at := now;
      reply := Status(RetriesRemaining(counts.value.0, PIN_MAX_RETRIES), RetriesRemaining(counts.value.1, PUK_MAX_RETRIES), session.IsActive(now));
    }

    method CloseSession(ghost t: Token) returns (reply: Reply, ghost at: nat)
      requires Announced()
      modifies this
      ensures Settled(at) && session == old(session).Close() && reply == Done
      ensures Simulates(t, Request.CloseSession, reply, (Done, t.(session := t.session.Close())))
    {
      at := atecc.clock(atecc.step);
      CoupledAnySession(atecc.sha, atecc.serial, atecc.chip.memory, t, t.session.Close());
      session := session.Close();
      reply := Done;
    }
  }
}
