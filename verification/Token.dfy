/** The abstract token: two codes, tries and lifetime left for each, key generations and a session. What a user of
    the service is meant to see, with no chip, hash, counter or channel in it. */
module Token {
  import opened Bytes
  import opened Errors
  import opened RetryCounter
  import opened Messages
  import opened Atecc
  import opened Calls
  import opened Session

  /** Tries before the code blocks, and ticks before its counter is worn out. */
  datatype Budget = Budget(tries: int, life: int) {
    /** One code tested. */
    function Spent(): Budget {
      Budget(tries - 1, life - 1)
    }

    /** A fresh batch; unused tries are forfeited. */
    function Renewed(batch: nat): Budget {
      Budget(batch - 1, life - RenewalCost(tries, batch))
    }
  }

  datatype Token = Token(pin: Pin, puk: Puk, ioKey: Block, forPin: Budget, forPuk: Budget, keys: map<nat, int>, session: Session) {
    function Codes(): Secrets {
      Secrets(pin, puk, ioKey)
    }

    function CodeOf(id: CounterId): seq<byte> {
      Codes().Of(id)
    }

    function WithCode(id: CounterId, code: seq<byte>): Token
      requires |code| == CodeLength(id)
    {
      if id == Counter0 then this.(pin := code) else this.(puk := code)
    }

    function BudgetOf(id: CounterId): Budget {
      if id == Counter0 then forPin else forPuk
    }

    function WithBudget(id: CounterId, b: Budget): Token {
      if id == Counter0 then this.(forPin := b) else this.(forPuk := b)
    }
  }

  /** The secrets alone. */
  datatype Secrets = Secrets(pin: Pin, puk: Puk, ioKey: Block) {
    function Of(id: CounterId): (code: seq<byte>)
      ensures |code| == CodeLength(id)
    {
      if id == Counter0 then pin else puk
    }

    function With(id: CounterId, code: seq<byte>): Secrets
      requires |code| == CodeLength(id)
    {
      if id == Counter0 then this.(pin := code) else this.(puk := code)
    }
  }

  function CodeLength(id: CounterId): nat {
    if id == Counter0 then 4 else 8
  }

  /** The chip's own refusal: worn-out counter, bad write MAC, or a slot without a key. */
  const REFUSED: Reply := Fail(Atecc(Chip(ExecutionError)))

  function BadDigit(code: seq<byte>): Reply
    requires !AllDigits(code)
  {
    Fail(InvalidFormat(NonDigit(FirstNonDigit(code, 0).value)))
  }

  /** The ECC slots an emergency reset regenerates. */
  const IDENTITY_SLOTS: seq<Slot> := [0, 1, 2, 3, 4, 7]

  function Regenerated(keys: map<nat, int>, slots: seq<Slot>): (r: map<nat, int>)
    requires forall i :: 0 <= i < |slots| ==> slots[i] in keys
    ensures r.Keys == keys.Keys
  {
    if slots == [] then keys
    else
      var last := slots[|slots| - 1];
      var before := Regenerated(keys, slots[..|slots| - 1]);
      before[last := before[last] + 1]
  }

  predicate HasIdentity(keys: map<nat, int>) {
    forall i :: 0 <= i < |IDENTITY_SLOTS| ==> IDENTITY_SLOTS[i] in keys
  }

  // ---------------------------------------------------------------- one call

  /** Why a code is turned down: its batch is exhausted, its counter worn out, or it is not the one. */
  function Refusal(t: Token, id: CounterId, code: seq<byte>): Option<ServiceError> {
    var b := t.BudgetOf(id);
    if b.tries == 0 then Some(if id == Counter0 then PinBlocked else Bricked)
    else if b.life == 0 then Some(ServiceError.Atecc(Chip(ExecutionError)))
    else if code == t.CodeOf(id) then None
    else Some(Incorrect(id, Tries(b.Spent())))
  }

  function Incorrect(id: CounterId, tries: nat): ServiceError {
    if id == Counter0 then PinIncorrect(tries) else PukIncorrect(tries)
  }

  /** Right or wrong, a code that gets tested costs a try. */
  function Tested(t: Token, id: CounterId): Token {
    var b := t.BudgetOf(id);
    if b.tries == 0 || b.life == 0 then t else t.WithBudget(id, b.Spent())
  }

  function Renew(t: Token, id: CounterId): Token {
    t.WithBudget(id, t.BudgetOf(id).Renewed(Batch(id)))
  }

  /** Test a code, then replace one under the I/O key. */
  function Replacing(t: Token, id: CounterId, code: seq<byte>, target: CounterId, replacement: seq<byte>, ioKey: Block): (Reply, Token)
    requires |replacement| == CodeLength(target)
  {
    var u := Tested(t, id);
    match Refusal(t, id, code)
    case Some(e) => (Fail(e), u)
    case None => if ioKey == t.ioKey then (Done, Renew(u.WithCode(target, replacement), id)) else (REFUSED, u)
  }

  function OnVerifyPin(t: Token, pin: Pin, at: nat): (Reply, Token) {
    if !AllDigits(pin) then (BadDigit(pin), t)
    else
      match Refusal(t, Counter0, pin)
      case Some(e) => (Fail(e), Tested(t, Counter0))
      case None => (Done, Renew(Tested(t, Counter0), Counter0).(session := t.session.Open(at)))
  }

  function OnSetPin(t: Token, oldPin: Pin, newPin: Pin, ioKey: Block, at: nat): (Reply, Token) {
    if !AllDigits(oldPin) then (BadDigit(oldPin), t)
    else if !AllDigits(newPin) then (BadDigit(newPin), t)
    else
      var (reply, u) := Replacing(t, Counter0, oldPin, Counter0, newPin, ioKey);
      (reply, if reply.Done? then u.(session := t.session.Open(at)) else u)
  }

  function OnUnblockPin(t: Token, puk: Puk, newPin: Pin, ioKey: Block): (Reply, Token) {
    if !AllDigits(puk) then (BadDigit(puk), t)
    else if !AllDigits(newPin) then (BadDigit(newPin), t)
    else
      var (reply, u) := Replacing(t, Counter1, puk, Counter0, newPin, ioKey);
      (reply, if reply.Done? then Renew(u, Counter0) else u)
  }

  function OnSetPuk(t: Token, oldPuk: Puk, newPuk: Puk, ioKey: Block, at: nat): (Reply, Token) {
    if !AllDigits(oldPuk) then (BadDigit(oldPuk), t)
    else if !AllDigits(newPuk) then (BadDigit(newPuk), t)
    else if !t.session.IsActive(at) then (Fail(PinRequired), t)
    else
      var (reply, u) := Replacing(t, Counter1, oldPuk, Counter1, newPuk, ioKey);
      (reply, if reply.Done? then u.(session := t.session.Touch(at)) else u)
  }

  /** The PUK replaced by `issued`, then the PIN by the default, each with a fresh batch. */
  function ResetTo(t: Token, ioKey: Block, issued: Puk): (Reply, Token) {
    if ioKey != t.ioKey then (REFUSED, t)
    else (NewPuk(issued), Renew(Renew(t.(puk := issued), Counter1).(pin := PIN_DEFAULT), Counter0))
  }

  /** Everything user-owned replaced: first the identity keys, then the codes. A wrong I/O key is noticed only after the
      keys are gone. */
  function Rebuilt(t: Token, ioKey: Block, issued: Puk): (Reply, Token)
    requires HasIdentity(t.keys)
  {
    ResetTo(t.(keys := Regenerated(t.keys, IDENTITY_SLOTS)), ioKey, issued)
  }

  function OnEmergencyReset(t: Token, ioKey: Block, issued: Puk): (Reply, Token)
    requires HasIdentity(t.keys)
  {
    if t.forPin.tries != 0 || t.forPuk.tries != 0 then
      (Fail(EmergencyResetNotPermitted(Tries(t.forPin), Tries(t.forPuk))), t)
    else Rebuilt(t, ioKey, issued)
  }

  function OnSign(t: Token, slot: Slot, digest: Block, at: nat): (Reply, Token) {
    if !t.session.IsActive(at) then (Fail(PinRequired), t)
    else if slot !in t.keys then (REFUSED, t)
    else (Signed(Signature(slot, t.keys[slot], digest)), t.(session := t.session.Touch(at)))
  }

  /** No session is needed to replace a key. */
  function OnGenerateKey(t: Token, slot: Slot): (Reply, Token) {
    if slot !in t.keys then (REFUSED, t)
    else (PublicKey(slot, t.keys[slot] + 1), t.(keys := t.keys[slot := t.keys[slot] + 1]))
  }

  function OnStatus(t: Token, at: nat): (Reply, Token) {
    (Status(Tries(t.forPin), Tries(t.forPuk), t.session.IsActive(at)), t)
  }

  /** Reply and next token. */
  function Step(t: Token, q: Request, at: nat, issued: Puk): (r: (Reply, Token))
    requires HasIdentity(t.keys)
    ensures HasIdentity(r.1.keys)
  {
    match q
    case VerifyPin(pin) => OnVerifyPin(t, pin, at)
    case SetPin(oldPin, newPin, ioKey) => OnSetPin(t, oldPin, newPin, ioKey, at)
    case UnblockPin(puk, newPin, ioKey) => OnUnblockPin(t, puk, newPin, ioKey)
    case SetPuk(oldPuk, newPuk, ioKey) => OnSetPuk(t, oldPuk, newPuk, ioKey, at)
    case EmergencyReset(ioKey) => OnEmergencyReset(t, ioKey, issued)
    case Sign(slot, digest) => OnSign(t, slot, digest, at)
    case GenerateKey(slot) => OnGenerateKey(t, slot)
    case GetPinStatus => OnStatus(t, at)
    case CloseSession => (Done, t.(session := t.session.Close()))
  }

  /** Tries as a reported number. */
  function Tries(b: Budget): nat {
    if b.tries >= 0 then b.tries else 0
  }

  // ---------------------------------------------------------------- whole histories

  function Issued(reply: Reply): Puk {
    if reply.NewPuk? then reply.issued else [0x30, 0x30, 0x30, 0x30, 0x30, 0x30, 0x30, 0x30]
  }

  function Next(t: Token, q: Request, reply: Reply, at: nat): (r: Token)
    requires HasIdentity(t.keys)
    ensures HasIdentity(r.keys)
  {
    Step(t, q, at, Issued(reply)).1
  }

  /** The token would have answered just so. */
  predicate Answers(t: Token, q: Request, reply: Reply, at: nat)
    requires HasIdentity(t.keys)
  {
    reply == Step(t, q, at, Issued(reply)).0 && (reply.NewPuk? ==> AllDigits(reply.issued))
  }

  function After(t: Token, h: History): (r: Token)
    requires HasIdentity(t.keys)
    ensures HasIdentity(r.keys)
  {
    if h == [] then t else var c := h[|h| - 1]; Next(After(t, h[..|h| - 1]), c.request, c.reply, c.at)
  }

  /** Every reply of the history is the token's. */
  ghost predicate Explains(t: Token, h: History)
    requires HasIdentity(t.keys)
  {
    h == [] || (var before, c := h[..|h| - 1], h[|h| - 1]; Explains(t, before) && Answers(After(t, before), c.request, c.reply, c.at))
  }

  lemma ExtendExplains(t: Token, h: History, c: Call)
    requires HasIdentity(t.keys) && Explains(t, h) && Answers(After(t, h), c.request, c.reply, c.at)
    ensures Explains(t, h + [c]) && After(t, h + [c]) == Next(After(t, h), c.request, c.reply, c.at)
  {
    assert (h + [c])[..|h|] == h;
  }

  /** A history explained by a token is answered by it at every call. */
  lemma {:induction false} ExplainedAt(t: Token, h: History, i: nat)
    requires HasIdentity(t.keys) && Explains(t, h) && i < |h|
    ensures Explains(t, h[..i]) && Answers(After(t, h[..i]), h[i].request, h[i].reply, h[i].at)
  {
    var before := h[..|h| - 1];
    if i < |before| {
      ExplainedAt(t, before, i);
      assert before[..i] == h[..i];
    }
  }
}
