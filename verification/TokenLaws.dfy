/** What a user may rely on, proved of the abstract token for every state it can be in. */
module TokenLaws {
  import opened Bytes
  import opened CounterEncoding
  import opened RetryCounter
  import opened Messages
  import opened Calls
  import opened Session
  import opened Token

  // ---------------------------------------------------------------- well-formed tokens

  /** Tries and lifetime belong to one counter value. */
  predicate Sound(b: Budget, batch: nat)
    requires batch >= 2
  {
    0 <= b.life <= COUNTER_MAX_VALUE && b.tries == RetriesRemaining(COUNTER_MAX_VALUE - b.life, batch)
  }

  predicate WellFormed(t: Token) {
    && AllDigits(t.pin) && AllDigits(t.puk) && HasIdentity(t.keys)
    && Sound(t.forPin, PIN_MAX_RETRIES) && Sound(t.forPuk, PUK_MAX_RETRIES)
  }

  lemma SpentIsSound(b: Budget, batch: nat)
    requires batch >= 2 && Sound(b, batch) && b.tries != 0 && b.life != 0
    ensures Sound(b.Spent(), batch) && b.tries > 0
  {
    MissCostsOneTry(COUNTER_MAX_VALUE - b.life, batch);
  }

  lemma RenewedIsSound(b: Budget, id: CounterId)
    requires Sound(b, Batch(id))
    ensures Sound(b.Renewed(Batch(id)), Batch(id))
    ensures b.life == 0 ==> b.Renewed(Batch(id)).life == 0
  {
    var count := COUNTER_MAX_VALUE - b.life;
    RefreshCost(count, Batch(id));
    RefreshIsLeast(count, Batch(id));
    RefreshNeverMeetsCeiling(count, id);
  }

  lemma TestedIsWellFormed(t: Token, id: CounterId)
    requires WellFormed(t)
    ensures WellFormed(Tested(t, id)) && Tested(t, id).ioKey == t.ioKey
    ensures Tested(t, id).BudgetOf(id).life <= t.BudgetOf(id).life
  {
    var b := t.BudgetOf(id);
    if b.tries != 0 && b.life != 0 {
      SpentIsSound(b, Batch(id));
    }
  }

  lemma RenewIsWellFormed(t: Token, id: CounterId)
    requires WellFormed(t)
    ensures WellFormed(Renew(t, id)) && Renew(t, id).BudgetOf(id).tries == Batch(id) - 1
    ensures t.BudgetOf(id).life == 0 ==> Renew(t, id).BudgetOf(id).life == 0
  {
    RenewedIsSound(t.BudgetOf(id), id);
  }

  lemma ReplacingIsWellFormed(t: Token, id: CounterId, code: seq<byte>, target: CounterId, replacement: seq<byte>, ioKey: Block)
    requires WellFormed(t) && |replacement| == CodeLength(target) && AllDigits(replacement)
    ensures WellFormed(Replacing(t, id, code, target, replacement, ioKey).1)
  {
    TestedIsWellFormed(t, id);
    RenewIsWellFormed(Tested(t, id).WithCode(target, replacement), id);
  }

  lemma VerifyIsWellFormed(t: Token, pin: Pin, at: nat)
    requires WellFormed(t)
    ensures WellFormed(OnVerifyPin(t, pin, at).1)
  {
    var tested := Tested(t, Counter0);
    TestedIsWellFormed(t, Counter0);
    RenewIsWellFormed(tested, Counter0);
    SessionIsFree(Renew(tested, Counter0), t.session.Open(at));
  }

  lemma SessionIsFree(t: Token, session: Session)
    requires WellFormed(t)
    ensures WellFormed(t.(session := session))
  {
  }

  lemma UnblockIsWellFormed(t: Token, puk: Puk, newPin: Pin, ioKey: Block)
    requires WellFormed(t)
    ensures WellFormed(OnUnblockPin(t, puk, newPin, ioKey).1)
  {
    if AllDigits(newPin) {
      ReplacingIsWellFormed(t, Counter1, puk, Counter0, newPin, ioKey);
      RenewIsWellFormed(Replacing(t, Counter1, puk, Counter0, newPin, ioKey).1, Counter0);
    }
  }

  /** Every request keeps the token well-formed. */
  lemma StepKeepsWellFormed(t: Token, q: Request, at: nat, issued: Puk)
    requires WellFormed(t) && AllDigits(issued)
    ensures WellFormed(Step(t, q, at, issued).1)
  {
    match q {
      case VerifyPin(pin) =>
        VerifyIsWellFormed(t, pin, at);
      case SetPin(oldPin, newPin, ioKey) =>
        if AllDigits(newPin) {
          ReplacingIsWellFormed(t, Counter0, oldPin, Counter0, newPin, ioKey);
        }
      case UnblockPin(puk, newPin, ioKey) =>
        UnblockIsWellFormed(t, puk, newPin, ioKey);
      case SetPuk(oldPuk, newPuk, ioKey) =>
        if AllDigits(newPuk) {
          ReplacingIsWellFormed(t, Counter1, oldPuk, Counter1, newPuk, ioKey);
        }
      case EmergencyReset(ioKey) =>
        ResetIsWellFormed(t, ioKey, issued);
      case Sign(_, _) =>
      case GenerateKey(_) =>
      case GetPinStatus =>
      case CloseSession =>
    }
  }

  lemma ResetIsWellFormed(t: Token, ioKey: Block, issued: Puk)
    requires WellFormed(t) && AllDigits(issued)
    ensures WellFormed(Rebuilt(t, ioKey, issued).1)
  {
    var u := t.(keys := Regenerated(t.keys, IDENTITY_SLOTS), puk := issued);
    assert AllDigits(PIN_DEFAULT);
    RenewIsWellFormed(u, Counter1);
    RenewIsWellFormed(Renew(u, Counter1).(pin := PIN_DEFAULT), Counter0);
  }

  // ---------------------------------------------------------------- codes

  lemma RefusedExactly(t: Token, id: CounterId, code: seq<byte>)
    requires WellFormed(t)
    ensures Refusal(t, id, code).None? <==> code == t.CodeOf(id) && t.BudgetOf(id).tries > 0 && t.BudgetOf(id).life > 0
  {
  }

  /** A PIN is accepted exactly when it is the PIN, tries are left, and the counter is not worn out. */
  lemma PinAcceptedExactly(t: Token, p: Pin, at: nat)
    requires WellFormed(t)
    ensures var (reply, u) := OnVerifyPin(t, p, at);
            && (reply.Done? <==> p == t.pin && t.forPin.tries > 0 && t.forPin.life > 0)
            && (reply.Done? ==> u.forPin.tries == PIN_MAX_RETRIES - 1 && u.session.IsActive(at))
  {
    RefusedExactly(t, Counter0, p);
  }

  /** After a successful PIN change the old tries are gone, four are left, and only the new PIN is accepted. */
  lemma SetPinThenVerify(t: Token, oldPin: Pin, newPin: Pin, ioKey: Block, at: nat, p: Pin, later: nat)
    requires WellFormed(t) && OnSetPin(t, oldPin, newPin, ioKey, at).0.Done?
    ensures var u := OnSetPin(t, oldPin, newPin, ioKey, at).1;
            && u.forPin.tries == PIN_MAX_RETRIES - 1
            && (OnVerifyPin(u, p, later).0.Done? <==> p == newPin && u.forPin.life > 0)
            && (AllDigits(p) && p != newPin && u.forPin.life > 0 ==>
                  OnVerifyPin(u, p, later).0 == Fail(PinIncorrect(PIN_MAX_RETRIES - 2)))
  {
    ReplacingIsWellFormed(t, Counter0, oldPin, Counter0, newPin, ioKey);
    PinAcceptedExactly(OnSetPin(t, oldPin, newPin, ioKey, at).1, p, later);
  }

  /** An unblocked token accepts exactly the new PIN, with fresh batches on both codes. */
  lemma UnblockThenVerify(t: Token, puk: Puk, newPin: Pin, ioKey: Block, p: Pin, later: nat)
    requires WellFormed(t) && OnUnblockPin(t, puk, newPin, ioKey).0.Done?
    ensures var u := OnUnblockPin(t, puk, newPin, ioKey).1;
            && puk == t.puk && u.forPin.tries == PIN_MAX_RETRIES - 1 && u.forPuk.tries == PUK_MAX_RETRIES - 1
            && (OnVerifyPin(u, p, later).0.Done? <==> p == newPin && u.forPin.life > 0)
  {
    var v := Replacing(t, Counter1, puk, Counter0, newPin, ioKey).1;
    ReplacingIsWellFormed(t, Counter1, puk, Counter0, newPin, ioKey);
    TestedIsWellFormed(t, Counter1);
    RenewIsWellFormed(Tested(t, Counter1).WithCode(Counter0, newPin), Counter1);
    RenewIsWellFormed(v, Counter0);
    PinAcceptedExactly(Renew(v, Counter0), p, later);
  }

  /** A wrong code lowers the tries, and what is reported, by exactly one; nothing else changes. */
  lemma WrongCodeCostsOne(t: Token, p: Pin, k: Puk, newPin: Pin, ioKey: Block, at: nat)
    requires WellFormed(t) && AllDigits(p) && AllDigits(k) && AllDigits(newPin) && p != t.pin && k != t.puk
    ensures t.forPin.tries > 0 && t.forPin.life > 0 ==>
              OnVerifyPin(t, p, at) == (Fail(PinIncorrect(t.forPin.tries - 1)), t.(forPin := t.forPin.Spent()))
    ensures t.forPuk.tries > 0 && t.forPuk.life > 0 ==>
              OnUnblockPin(t, k, newPin, ioKey) == (Fail(PukIncorrect(t.forPuk.tries - 1)), t.(forPuk := t.forPuk.Spent()))
  {
  }

  // ---------------------------------------------------------------- recovery

  /** Both batches exhausted. */
  predicate ResetPermitted(t: Token) {
    t.forPin.tries == 0 && t.forPuk.tries == 0
  }

  /** Without permission a reset changes nothing; with it and the I/O key the token accepts exactly the default PIN and
      the PUK it returned, with fresh batches. */
  lemma ResetExactly(t: Token, ioKey: Block, issued: Puk, p: Pin, k: Puk, newPin: Pin, at: nat)
    requires WellFormed(t) && AllDigits(issued) && AllDigits(newPin)
    ensures !ResetPermitted(t) ==>
              OnEmergencyReset(t, ioKey, issued) == (Fail(EmergencyResetNotPermitted(Tries(t.forPin), Tries(t.forPuk))), t)
    ensures OnEmergencyReset(t, ioKey, issued).0.NewPuk? <==> ResetPermitted(t) && ioKey == t.ioKey
    ensures ResetPermitted(t) && ioKey == t.ioKey ==>
              var u := OnEmergencyReset(t, ioKey, issued).1;
              && u.forPin.tries == PIN_MAX_RETRIES - 1 && u.forPuk.tries == PUK_MAX_RETRIES - 1
              && u.session == t.session
              && (OnVerifyPin(u, p, at).0.Done? <==> p == PIN_DEFAULT && u.forPin.life > 0)
              && (OnUnblockPin(u, k, newPin, ioKey).0.Done? <==> k == issued && u.forPuk.life > 0)
  {
    if ResetPermitted(t) && ioKey == t.ioKey {
      var v := t.(keys := Regenerated(t.keys, IDENTITY_SLOTS), puk := issued);
      assert AllDigits(PIN_DEFAULT);
      RenewIsWellFormed(v, Counter1);
      RenewIsWellFormed(Renew(v, Counter1).(pin := PIN_DEFAULT), Counter0);
      PinAcceptedExactly(OnEmergencyReset(t, ioKey, issued).1, p, at);
    }
  }

  // ---------------------------------------------------------------- what a refused reset costs

  lemma {:induction false} RegeneratedAt(keys: map<nat, int>, n: nat, k: nat)
    requires HasIdentity(keys) && n <= |IDENTITY_SLOTS| && k < |IDENTITY_SLOTS|
    ensures Regenerated(keys, IDENTITY_SLOTS[..n])[IDENTITY_SLOTS[k]] == keys[IDENTITY_SLOTS[k]] + if k < n then 1 else 0
  {
    if n > 0 {
      RegeneratedAt(keys, n - 1, k);
      assert IDENTITY_SLOTS[..n][..n - 1] == IDENTITY_SLOTS[..n - 1];
    }
  }

  /** Every identity key is a new one after a permitted reset, whether or not the I/O key was right. */
  lemma ResetReplacesKeys(t: Token, ioKey: Block, issued: Puk, k: nat)
    requires WellFormed(t) && ResetPermitted(t) && k < |IDENTITY_SLOTS|
    ensures IDENTITY_SLOTS[k] in OnEmergencyReset(t, ioKey, issued).1.keys
    ensures OnEmergencyReset(t, ioKey, issued).1.keys[IDENTITY_SLOTS[k]] == t.keys[IDENTITY_SLOTS[k]] + 1
  {
    assert IDENTITY_SLOTS[..|IDENTITY_SLOTS|] == IDENTITY_SLOTS;
    RegeneratedAt(t.keys, |IDENTITY_SLOTS|, k);
  }

  /** That a refused reset changes nothing does not hold: it keeps the keys exactly when it was not permitted. A permitted
      one with a wrong I/O key is refused after all identity keys are gone, with codes, budgets and session as before. */
  lemma RefusedResetKeepsKeysExactly(t: Token, ioKey: Block, issued: Puk)
    requires WellFormed(t)
    ensures var (reply, u) := OnEmergencyReset(t, ioKey, issued);
            && (reply.Fail? ==> (u.keys == t.keys <==> !ResetPermitted(t)) && u == t.(keys := u.keys))
            && (reply == REFUSED <==> ResetPermitted(t) && ioKey != t.ioKey)
  {
    if ResetPermitted(t) {
      ResetReplacesKeys(t, ioKey, issued, 0);
    }
  }

  /** Such a token and such a key. */
  lemma RefusedResetLosesKeys() returns (t: Token, ioKey: Block)
    ensures WellFormed(t) && ResetPermitted(t)
    ensures OnEmergencyReset(t, ioKey, t.puk).0 == REFUSED && OnEmergencyReset(t, ioKey, t.puk).1.keys != t.keys
  {
    t := Token(PIN_DEFAULT, Issued(Done), Zeros(32), Budget(0, COUNTER_MAX_VALUE - 5), Budget(0, COUNTER_MAX_VALUE - 10),
               map[0 := 0, 1 := 0, 2 := 0, 3 := 0, 4 := 0, 7 := 0], Session.New());
    ioKey := [1] + Zeros(31);
    assert ioKey[0] != Zeros(32)[0];
    RefusedResetKeepsKeysExactly(t, ioKey, t.puk);
  }

  // ---------------------------------------------------------------- reaching a reset

  /** The token after `n` times the same request. */
  function Repeated(t: Token, q: Request, at: nat, n: nat): (r: Token)
    requires HasIdentity(t.keys)
    ensures HasIdentity(r.keys)
  {
    if n == 0 then t else Step(Repeated(t, q, at, n - 1), q, at, Issued(Done)).1
  }

  /** Below the ceiling the last multiple of the batch is still ahead: the tries never outlast the counter. */
  lemma TriesFitLifetime(b: Budget, id: CounterId)
    requires Sound(b, Batch(id)) && b.life > 0
    ensures b.tries < b.life && b.tries <= Batch(id)
  {
    var count := COUNTER_MAX_VALUE - b.life;
    RetriesIsDistanceToSaturation(count, Batch(id));
    assert Saturated(COUNTER_MAX_VALUE - 1, Batch(id));
  }

  lemma {:induction false} WrongPins(t: Token, p: Pin, at: nat, n: nat)
    requires WellFormed(t) && AllDigits(p) && p != t.pin && n <= t.forPin.tries < t.forPin.life
    ensures Repeated(t, VerifyPin(p), at, n) == t.(forPin := Budget(t.forPin.tries - n, t.forPin.life - n))
  {
    if n > 0 {
      WrongPins(t, p, at, n - 1);
    }
  }

  lemma {:induction false} WrongPuks(t: Token, k: Puk, newPin: Pin, ioKey: Block, at: nat, n: nat)
    requires WellFormed(t) && AllDigits(k) && AllDigits(newPin) && k != t.puk && n <= t.forPuk.tries < t.forPuk.life
    ensures Repeated(t, UnblockPin(k, newPin, ioKey), at, n) == t.(forPuk := Budget(t.forPuk.tries - n, t.forPuk.life - n))
  {
    if n > 0 {
      WrongPuks(t, k, newPin, ioKey, at, n - 1);
    }
  }

  /** While neither counter is at its ceiling, at most 5 wrong PINs and 10 wrong PUKs, whichever they are, lead to a
      state where the reset is permitted; nothing else about the token changes on the way. */
  lemma Recoverable(t: Token, p: Pin, k: Puk, newPin: Pin, ioKey: Block, at: nat)
    requires WellFormed(t) && t.forPin.life > 0 && t.forPuk.life > 0
    requires AllDigits(p) && AllDigits(k) && AllDigits(newPin) && p != t.pin && k != t.puk
    ensures 0 <= t.forPin.tries <= PIN_MAX_RETRIES && 0 <= t.forPuk.tries <= PUK_MAX_RETRIES
    ensures var u := Repeated(t, VerifyPin(p), at, t.forPin.tries);
            var v := Repeated(u, UnblockPin(k, newPin, ioKey), at, t.forPuk.tries);
            ResetPermitted(v) && v == t.(forPin := v.forPin, forPuk := v.forPuk)
  {
    TriesFitLifetime(t.forPin, Counter0);
    TriesFitLifetime(t.forPuk, Counter1);
    WrongPins(t, p, at, t.forPin.tries);
    var u := Repeated(t, VerifyPin(p), at, t.forPin.tries);
    assert Sound(u.forPin, PIN_MAX_RETRIES) by {
      RetriesIsDistanceToSaturation(COUNTER_MAX_VALUE - t.forPin.life, PIN_MAX_RETRIES);
      ExhaustedIsSaturated(COUNTER_MAX_VALUE - u.forPin.life, Counter0);
    }
    WrongPuks(u, k, newPin, ioKey, at, t.forPuk.tries);
  }

  /** At the ceiling, which is one past a multiple of both batches. */
  predicate WornOut(t: Token, id: CounterId) {
    t.BudgetOf(id) == Budget(Batch(id) - 1, 0)
  }

  lemma WornOutExactly(t: Token, id: CounterId)
    requires WellFormed(t)
    ensures WornOut(t, id) <==> t.BudgetOf(id).life == 0
    ensures WornOut(t, id) ==> !ResetPermitted(t)
  {
    assert COUNTER_MAX_VALUE % Batch(id) == 1;
  }

  lemma ReplacingKeepsWornOut(t: Token, c: CounterId, code: seq<byte>, target: CounterId, replacement: seq<byte>, ioKey: Block, id: CounterId)
    requires WornOut(t, id) && |replacement| == CodeLength(target)
    ensures WornOut(Replacing(t, c, code, target, replacement, ioKey).1, id)
  {
  }

  /** A worn-out counter stays worn out, with tries on it, whatever is requested. */
  lemma WornOutForGood(t: Token, q: Request, at: nat, issued: Puk, id: CounterId)
    requires HasIdentity(t.keys) && WornOut(t, id)
    ensures WornOut(Step(t, q, at, issued).1, id)
  {
    match q {
      case SetPin(oldPin, newPin, ioKey) =>
        ReplacingKeepsWornOut(t, Counter0, oldPin, Counter0, newPin, ioKey, id);
      case UnblockPin(puk, newPin, ioKey) =>
        ReplacingKeepsWornOut(t, Counter1, puk, Counter0, newPin, ioKey, id);
      case SetPuk(oldPuk, newPuk, ioKey) =>
        ReplacingKeepsWornOut(t, Counter1, oldPuk, Counter1, newPuk, ioKey, id);
      case _ =>
    }
  }

  /** So a reset can still be reached, by any run at all, exactly while both counters are below their ceilings. */
  lemma {:induction false} NeverAgain(t: Token, h: History, id: CounterId)
    requires HasIdentity(t.keys) && WornOut(t, id)
    ensures WornOut(After(t, h), id) && !ResetPermitted(After(t, h))
  {
    if h != [] {
      var c := h[|h| - 1];
      NeverAgain(t, h[..|h| - 1], id);
      WornOutForGood(After(t, h[..|h| - 1]), c.request, c.at, Issued(c.reply), id);
    }
  }

  // ---------------------------------------------------------------- the session and the reset

  /** Exhausting both codes does not end a session, and neither does the reset: a session open before is active after,
      exactly as long as it would have been, and signs with the regenerated key. */
  lemma SessionOutlivesReset(t: Token, p: Pin, k: Puk, newPin: Pin, issued: Puk, digest: Block, at: nat)
    requires WellFormed(t) && t.forPin.life > 0 && t.forPuk.life > 0
    requires AllDigits(p) && AllDigits(k) && AllDigits(newPin) && AllDigits(issued) && p != t.pin && k != t.puk
    ensures var u := Repeated(t, VerifyPin(p), at, t.forPin.tries);
            var v := Repeated(u, UnblockPin(k, newPin, t.ioKey), at, t.forPuk.tries);
            var (reply, w) := OnEmergencyReset(v, t.ioKey, issued);
            && reply == NewPuk(issued)
            && (OnSign(w, 0, digest, at).0.Signed? <==> t.session.IsActive(at))
  {
    Recoverable(t, p, k, newPin, t.ioKey, at);
    assert IDENTITY_SLOTS[0] == 0;
  }
}
