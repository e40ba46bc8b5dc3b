/** What the token answers, request by request, with every error and number written out. */
module TokenReplies {
  import opened Bytes
  import opened Errors
  import opened CounterEncoding
  import opened RetryCounter
  import opened Messages
  import opened Atecc
  import opened Calls
  import opened Session
  import opened Token
  import opened TokenLaws

  // ---------------------------------------------------------------- refusals that change nothing

  /** The first byte of a code that is no digit, '0' to '9' being 48 to 57. */
  predicate FirstBad(code: seq<byte>, i: nat) {
    i < |code| && !(48 <= Count(code[i]) <= 57) && forall j :: 0 <= j < i ==> 48 <= Count(code[j]) <= 57
  }

  lemma FirstBadIsReported(code: seq<byte>, i: nat)
    requires FirstBad(code, i)
    ensures !AllDigits(code) && BadDigit(code) == Fail(InvalidFormat(NonDigit(i)))
  {
    DigitsByNumber(code[i]);
    forall j | 0 <= j < i
      ensures Digit(code[j])
    {
      DigitsByNumber(code[j]);
    }
    assert !Digit(code[i]);
  }

  /** A code that is not all digits is refused with the place of its first bad byte, the code typed before the new one. */
  lemma FormatRefused(t: Token, a: Pin, b: Pin, p: Puk, q: Puk, ioKey: Block, at: nat, i: nat)
    ensures FirstBad(a, i) ==>
              OnVerifyPin(t, a, at) == OnSetPin(t, a, b, ioKey, at) == (Fail(InvalidFormat(NonDigit(i))), t)
    ensures FirstBad(p, i) ==>
              OnUnblockPin(t, p, b, ioKey) == OnSetPuk(t, p, q, ioKey, at) == (Fail(InvalidFormat(NonDigit(i))), t)
    ensures AllDigits(a) && FirstBad(b, i) ==> OnSetPin(t, a, b, ioKey, at) == (Fail(InvalidFormat(NonDigit(i))), t)
    ensures AllDigits(p) && FirstBad(b, i) ==> OnUnblockPin(t, p, b, ioKey) == (Fail(InvalidFormat(NonDigit(i))), t)
    ensures AllDigits(p) && FirstBad(q, i) ==> OnSetPuk(t, p, q, ioKey, at) == (Fail(InvalidFormat(NonDigit(i))), t)
  {
    if FirstBad(a, i) {
      FirstBadIsReported(a, i);
    }
    if FirstBad(b, i) {
      FirstBadIsReported(b, i);
    }
    if FirstBad(p, i) {
      FirstBadIsReported(p, i);
    }
    if FirstBad(q, i) {
      FirstBadIsReported(q, i);
    }
  }

  /** An exhausted PIN is blocked, an exhausted PUK bricked, whatever the code. */
  lemma ExhaustedRefused(t: Token, a: Pin, b: Pin, p: Puk, q: Puk, ioKey: Block, at: nat)
    requires AllDigits(a) && AllDigits(b) && AllDigits(p) && AllDigits(q)
    ensures t.forPin.tries == 0 ==> OnVerifyPin(t, a, at) == OnSetPin(t, a, b, ioKey, at) == (Fail(PinBlocked), t)
    ensures t.forPuk.tries == 0 ==> OnUnblockPin(t, p, b, ioKey) == (Fail(Bricked), t)
    ensures t.forPuk.tries == 0 && t.session.IsActive(at) ==> OnSetPuk(t, p, q, ioKey, at) == (Fail(Bricked), t)
  {
  }

  /** At the ceiling the chip refuses to test any code. */
  lemma WornOutRefused(t: Token, a: Pin, b: Pin, p: Puk, q: Puk, ioKey: Block, at: nat)
    requires AllDigits(a) && AllDigits(b) && AllDigits(p) && AllDigits(q)
    ensures t.forPin.tries > 0 && t.forPin.life == 0 ==>
              OnVerifyPin(t, a, at) == OnSetPin(t, a, b, ioKey, at) == (Fail(ServiceError.Atecc(Chip(ExecutionError))), t)
    ensures t.forPuk.tries > 0 && t.forPuk.life == 0 ==>
              OnUnblockPin(t, p, b, ioKey) == (Fail(ServiceError.Atecc(Chip(ExecutionError))), t)
    ensures t.forPuk.tries > 0 && t.forPuk.life == 0 && t.session.IsActive(at) ==>
              OnSetPuk(t, p, q, ioKey, at) == (Fail(ServiceError.Atecc(Chip(ExecutionError))), t)
  {
  }

  /** Without a session active in the last 30 seconds nothing is signed and no PUK changed. */
  lemma SessionRequired(t: Token, p: Puk, q: Puk, ioKey: Block, slot: Slot, digest: Block, at: nat)
    requires t.session.lastActivityMs.None? || at >= t.session.lastActivityMs.value + 30_000
    ensures OnSign(t, slot, digest, at) == (Fail(PinRequired), t)
    ensures AllDigits(p) && AllDigits(q) ==> OnSetPuk(t, p, q, ioKey, at) == (Fail(PinRequired), t)
  {
    ActiveExactly(t.session, at);
  }

  // ---------------------------------------------------------------- refusals that cost a try

  /** A wrong code costs one try and one tick, and reports the tries left. */
  lemma WrongCodeRefused(t: Token, a: Pin, b: Pin, p: Puk, q: Puk, ioKey: Block, at: nat)
    requires WellFormed(t) && AllDigits(a) && AllDigits(b) && AllDigits(p) && AllDigits(q) && a != t.pin && p != t.puk
    ensures var (tries, life) := (t.forPin.tries, t.forPin.life);
            tries > 0 && life > 0 ==>
              OnVerifyPin(t, a, at) == OnSetPin(t, a, b, ioKey, at) ==
              (Fail(PinIncorrect(tries - 1)), t.(forPin := Budget(tries - 1, life - 1)))
    ensures var (tries, life) := (t.forPuk.tries, t.forPuk.life);
            tries > 0 && life > 0 ==>
              && OnUnblockPin(t, p, b, ioKey) == (Fail(PukIncorrect(tries - 1)), t.(forPuk := Budget(tries - 1, life - 1)))
              && (t.session.IsActive(at) ==>
                    OnSetPuk(t, p, q, ioKey, at) == (Fail(PukIncorrect(tries - 1)), t.(forPuk := Budget(tries - 1, life - 1))))
  {
  }

  /** The right code with a wrong I/O key costs the same, earns nothing and changes no code. */
  lemma WrongIoKeyRefused(t: Token, b: Pin, q: Puk, ioKey: Block, at: nat)
    requires WellFormed(t) && AllDigits(b) && AllDigits(q) && ioKey != t.ioKey
    ensures var (tries, life) := (t.forPin.tries, t.forPin.life);
            tries > 0 && life > 0 ==>
              OnSetPin(t, t.pin, b, ioKey, at) == (Fail(ServiceError.Atecc(Chip(ExecutionError))), t.(forPin := Budget(tries - 1, life - 1)))
    ensures var (tries, life) := (t.forPuk.tries, t.forPuk.life);
            tries > 0 && life > 0 ==>
              && OnUnblockPin(t, t.puk, b, ioKey) ==
                 (Fail(ServiceError.Atecc(Chip(ExecutionError))), t.(forPuk := Budget(tries - 1, life - 1)))
              && (t.session.IsActive(at) ==>
                    OnSetPuk(t, t.puk, q, ioKey, at) ==
                    (Fail(ServiceError.Atecc(Chip(ExecutionError))), t.(forPuk := Budget(tries - 1, life - 1))))
  {
  }

  // ---------------------------------------------------------------- what succeeds

  /** A budget after a success on one of `life` ticks: a fresh batch, at the next count that is one past a multiple. */
  predicate FreshFrom(life: int, id: CounterId, b: Budget) {
    && 0 <= b.life <= COUNTER_MAX_VALUE && 0 <= life - b.life
    && match id
       case Counter0 => b.tries == 4 && (COUNTER_MAX_VALUE - b.life) % 5 == 1 && life - b.life < 5
       case Counter1 => b.tries == 9 && (COUNTER_MAX_VALUE - b.life) % 10 == 1 && life - b.life < 10
  }

  lemma RenewedIsFresh(b: Budget, id: CounterId)
    requires Sound(b, Batch(id))
    ensures FreshFrom(b.life, id, b.Renewed(Batch(id)))
  {
    var count := COUNTER_MAX_VALUE - b.life;
    RefreshCost(count, Batch(id));
    RefreshIsLeast(count, Batch(id));
    RefreshNeverMeetsCeiling(count, id);
    match id {
      case Counter0 => assert Refreshed(count, 5) % 5 == 1;
      case Counter1 => assert Refreshed(count, 10) % 10 == 1;
    }
  }

  /** The right PIN opens a session at the time of the call and earns a fresh batch; nothing else changes. */
  lemma RightPinOpens(t: Token, at: nat)
    requires WellFormed(t) && t.forPin.tries > 0 && t.forPin.life > 0
    ensures var (reply, u) := OnVerifyPin(t, t.pin, at);
            && reply == Done && FreshFrom(t.forPin.life - 1, Counter0, u.forPin)
            && u == t.(forPin := u.forPin, session := Session(Some(at)))
  {
    TestedIsWellFormed(t, Counter0);
    RenewedIsFresh(t.forPin.Spent(), Counter0);
  }

  /** A change of PIN does the same and makes the new PIN the PIN. */
  lemma RightPinChanges(t: Token, b: Pin, at: nat)
    requires WellFormed(t) && AllDigits(b) && t.forPin.tries > 0 && t.forPin.life > 0
    ensures var (reply, u) := OnSetPin(t, t.pin, b, t.ioKey, at);
            && reply == Done && FreshFrom(t.forPin.life - 1, Counter0, u.forPin)
            && u == t.(pin := b, forPin := u.forPin, session := Session(Some(at)))
  {
    TestedIsWellFormed(t, Counter0);
    RenewedIsFresh(t.forPin.Spent(), Counter0);
  }

  /** The right PUK sets a new PIN with fresh batches on both, and leaves the session alone. */
  lemma RightPukUnblocks(t: Token, b: Pin)
    requires WellFormed(t) && AllDigits(b) && t.forPuk.tries > 0 && t.forPuk.life > 0
    ensures var (reply, u) := OnUnblockPin(t, t.puk, b, t.ioKey);
            && reply == Done && FreshFrom(t.forPin.life, Counter0, u.forPin) && FreshFrom(t.forPuk.life - 1, Counter1, u.forPuk)
            && u == t.(pin := b, forPin := u.forPin, forPuk := u.forPuk)
  {
    TestedIsWellFormed(t, Counter1);
    RenewedIsFresh(t.forPuk.Spent(), Counter1);
    RenewedIsFresh(t.forPin, Counter0);
  }

  /** In a session less than 30 seconds idle, the right PUK sets a new one with a fresh batch and renews the session. */
  lemma RightPukChanges(t: Token, q: Puk, last: nat, at: nat)
    requires WellFormed(t) && AllDigits(q) && t.forPuk.tries > 0 && t.forPuk.life > 0
    requires t.session == Session(Some(last)) && at < last + 30_000
    ensures var (reply, u) := OnSetPuk(t, t.puk, q, t.ioKey, at);
            && reply == Done && FreshFrom(t.forPuk.life - 1, Counter1, u.forPuk)
            && u == t.(puk := q, forPuk := u.forPuk, session := Session(Some(at)))
  {
    TestedIsWellFormed(t, Counter1);
    RenewedIsFresh(t.forPuk.Spent(), Counter1);
  }

  /** In such a session every slot with a key signs the digest given, and the session is renewed. */
  lemma ActiveSessionSigns(t: Token, slot: Slot, digest: Block, last: nat, at: nat)
    requires t.session == Session(Some(last)) && at < last + 30_000
    ensures slot in t.keys ==>
              OnSign(t, slot, digest, at) == (Signed(Signature(slot, t.keys[slot], digest)), t.(session := Session(Some(at))))
    ensures slot !in t.keys ==> OnSign(t, slot, digest, at) == (Fail(ServiceError.Atecc(Chip(ExecutionError))), t)
  {
  }

  /** The status is the tries left on both codes and whether a session is less than 30 seconds idle. */
  lemma StatusTells(t: Token, at: nat)
    requires WellFormed(t)
    ensures var (reply, u) := OnStatus(t, at);
            && reply.Status? && reply.pinTries == t.forPin.tries && reply.pukTries == t.forPuk.tries && u == t
            && (reply.sessionActive <==> t.session.lastActivityMs.Some? && at < t.session.lastActivityMs.value + 30_000)
  {
    ActiveExactly(t.session, at);
  }

  /** A fresh key for a slot that has one; closing ends the session and nothing else. */
  lemma KeyAndClose(t: Token, slot: Slot, at: nat, issued: Puk)
    requires HasIdentity(t.keys)
    ensures slot in t.keys ==>
              Step(t, GenerateKey(slot), at, issued) == (PublicKey(slot, t.keys[slot] + 1), t.(keys := t.keys[slot := t.keys[slot] + 1]))
    ensures slot !in t.keys ==> Step(t, GenerateKey(slot), at, issued) == (Fail(ServiceError.Atecc(Chip(ExecutionError))), t)
    ensures Step(t, CloseSession, at, issued) == (Done, t.(session := Session(None)))
  {
  }

  /** An emergency reset that is permitted and has the I/O key: the PUK drawn, PIN "0000", fresh batches one tick further,
      a new key in slots 0, 1, 2, 3, 4 and 7 and in no other, and the session as it was. */
  lemma ResetRebuilds(t: Token, issued: Puk, slot: nat)
    requires WellFormed(t) && t.forPin.tries == 0 && t.forPuk.tries == 0
    ensures var (reply, u) := OnEmergencyReset(t, t.ioKey, issued);
            && reply == NewPuk(issued)
            && u == t.(pin := [0x30, 0x30, 0x30, 0x30], puk := issued, keys := u.keys,
                       forPin := Budget(4, t.forPin.life - 1), forPuk := Budget(9, t.forPuk.life - 1))
            && u.keys.Keys == t.keys.Keys
            && (slot in t.keys ==> u.keys[slot] == t.keys[slot] + if slot in {0, 1, 2, 3, 4, 7} then 1 else 0)
  {
    KeysRebuilt(t.keys, slot);
  }

  lemma KeysRebuilt(keys: map<nat, int>, slot: nat)
    requires HasIdentity(keys)
    ensures slot in keys ==> Regenerated(keys, IDENTITY_SLOTS)[slot] == keys[slot] + if slot in {0, 1, 2, 3, 4, 7} then 1 else 0
  {
    assert IDENTITY_SLOTS[..|IDENTITY_SLOTS|] == IDENTITY_SLOTS;
    if k :| 0 <= k < |IDENTITY_SLOTS| && IDENTITY_SLOTS[k] == slot {
      RegeneratedAt(keys, |IDENTITY_SLOTS|, k);
      assert slot in {0, 1, 2, 3, 4, 7};
    } else {
      assert IDENTITY_SLOTS[0] == 0 && IDENTITY_SLOTS[1] == 1 && IDENTITY_SLOTS[2] == 2 && IDENTITY_SLOTS[3] == 3;
      assert IDENTITY_SLOTS[4] == 4 && IDENTITY_SLOTS[5] == 7;
      OthersStay(keys, IDENTITY_SLOTS, slot);
    }
  }

  lemma {:induction false} OthersStay(keys: map<nat, int>, slots: seq<Slot>, slot: nat)
    requires (forall i :: 0 <= i < |slots| ==> slots[i] in keys) && forall i :: 0 <= i < |slots| ==> slots[i] != slot
    ensures slot in keys ==> Regenerated(keys, slots)[slot] == keys[slot]
  {
    if slots != [] {
      OthersStay(keys, slots[..|slots| - 1], slot);
    }
  }
}
