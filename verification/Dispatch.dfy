/** The dispatch loop: one request at a time, every call recorded, over any sequence of requests and any faults. */
module Dispatch {
  import opened Bytes
  import opened RetryCounter
  import opened Messages
  import opened ChipLog
  import opened Atecc
  import opened Calls
  import opened Session
  import opened Token
  import opened Credentials
  import opened CryptoService

  /** What the chip must have recorded for a history: nothing before the first call, then each call's deeds. */
  function Recorded(h: History): seq<Deeds> {
    if h == [] then [NOTHING] else Recorded(h[..|h| - 1]) + [h[|h| - 1].deeds]
  }

  lemma ExtendRecorded(h: History, c: Call)
    ensures Recorded(h + [c]) == Recorded(h) + [c.deeds]
  {
    assert (h + [c])[..|h|] == h;
  }

  // ---------------------------------------------------------------- who may change a code

  predicate SameCodes(k: Secrets, k': Secrets) {
    k'.pin == k.pin && k'.puk == k.puk
  }

  /** What a call may do to the codes, whatever was lost. A code changes only for a request that gave the right code, or
      for an emergency reset that found both batches exhausted, in either case with the I/O key, and only to what was
      asked; success means it did. A verified PIN is the PIN. */
  predicate CodeStep(k: Secrets, c: Call, k': Secrets) {
    && k'.ioKey == k.ioKey && AllDigits(k'.pin) && AllDigits(k'.puk)
    && match c.request
       case VerifyPin(pin) => SameCodes(k, k') && (c.reply.Done? ==> pin == k.pin)
       case SetPin(oldPin, newPin, ioKey) =>
         || (SameCodes(k, k') && !c.reply.Done?)
         || (oldPin == k.pin && ioKey == k.ioKey && k'.pin == newPin && k'.puk == k.puk)
       case UnblockPin(puk, newPin, ioKey) =>
         || (SameCodes(k, k') && !c.reply.Done?)
         || (puk == k.puk && ioKey == k.ioKey && k'.pin == newPin && k'.puk == k.puk)
       case SetPuk(oldPuk, newPuk, ioKey) =>
         || (SameCodes(k, k') && !c.reply.Done?)
         || (oldPuk == k.puk && ioKey == k.ioKey && k'.puk == newPuk && k'.pin == k.pin)
       case EmergencyReset(ioKey) =>
         || (SameCodes(k, k') && !c.reply.NewPuk?)
         || (&& ioKey == k.ioKey && BothSpent(c.deeds) && (k'.pin == k.pin || k'.pin == PIN_DEFAULT)
             && (c.reply.NewPuk? ==> k'.pin == PIN_DEFAULT && k'.puk == c.reply.issued))
       case _ => SameCodes(k, k')
  }

  lemma ResetKeepsCodes(t: Token, c: Call)
    requires HasIdentity(t.keys) && AllDigits(t.pin) && AllDigits(t.puk) && Answers(t, c.request, c.reply, c.at)
    requires c.request.EmergencyReset? && (c.reply.NewPuk? ==> BothSpent(c.deeds))
    ensures CodeStep(t.Codes(), c, Next(t, c.request, c.reply, c.at).Codes())
  {
    assert AllDigits(PIN_DEFAULT);
  }

  /** The token itself behaves so. */
  lemma TokenKeepsCodes(t: Token, c: Call)
    requires HasIdentity(t.keys) && AllDigits(t.pin) && AllDigits(t.puk) && Answers(t, c.request, c.reply, c.at)
    requires c.reply.NewPuk? ==> BothSpent(c.deeds)
    ensures CodeStep(t.Codes(), c, Next(t, c.request, c.reply, c.at).Codes())
  {
    if c.request.EmergencyReset? {
      ResetKeepsCodes(t, c);
    }
  }

  /** Read off a memory what is remembered after one code may have been replaced. */
  lemma RememberedAfterChange(ch: Channel, m: Memory, m': Memory, ids: set<CounterId>, k: Secrets, id: CounterId, code: seq<byte>,
                              target: CounterId, replacement: seq<byte>, ioKey: Block, done: bool) returns (k': Secrets)
    requires |replacement| == CodeLength(target) && m.HasRecords() && m'.HasRecords()
    requires Remembers(ch.sha, ch.serial, m.slots, k) && Within(m, m', {CodeSlot(target)}, ids, {})
    requires ChangedBy(ch, m, m', k, id, code, target, replacement, ioKey, done)
    ensures Remembers(ch.sha, ch.serial, m'.slots, k')
    ensures AllDigits(k'.pin) && AllDigits(k'.puk)
    ensures (k' == k && !done) || (code == k.Of(id) && ioKey == k.ioKey && k' == k.With(target, replacement))
  {
    RemembersMeans(ch.sha, ch.serial, m.slots, k);
    WithinMeans(m, m', {CodeSlot(target)}, ids, {});
    k' := if m'.slots[CodeSlot(target)] == m.slots[CodeSlot(target)] && !done then k else k.With(target, replacement);
    RemembersMeans(ch.sha, ch.serial, m'.slots, k');
  }

  lemma RememberedAfterReset(ch: Channel, m: Memory, m': Memory, k: Secrets, ioKey: Block, reply: Reply) returns (k': Secrets)
    requires m.HasRecords() && m'.HasRecords() && (reply.NewPuk? || reply.Fail?)
    requires Remembers(ch.sha, ch.serial, m.slots, k) && Within(m, m', {SLOT_PIN_HASH, SLOT_PUK_HASH}, {Counter0, Counter1}, IDENTITY)
    requires ResetInPart(ch, m, m', k, ioKey, reply)
    ensures Remembers(ch.sha, ch.serial, m'.slots, k') && k'.ioKey == k.ioKey && AllDigits(k'.pin) && AllDigits(k'.puk)
    ensures (k' == k && !reply.NewPuk?) ||
            (m' != m && ioKey == k.ioKey && (k'.pin == k.pin || k'.pin == PIN_DEFAULT)) ||
            (reply.NewPuk? && ioKey == k.ioKey)
    ensures reply.NewPuk? ==> k'.pin == PIN_DEFAULT && k'.puk == reply.issued
  {
    RemembersMeans(ch.sha, ch.serial, m.slots, k);
    WithinMeans(m, m', {SLOT_PIN_HASH, SLOT_PUK_HASH}, {Counter0, Counter1}, IDENTITY);
    assert AllDigits(PIN_DEFAULT);
    k' := k;
    if reply.NewPuk? {
      k' := k.(pin := PIN_DEFAULT, puk := reply.issued);
    } else {
      if m'.slots[SLOT_PIN_HASH] != m.slots[SLOT_PIN_HASH] {
        k' := k'.(pin := PIN_DEFAULT);
      }
      if m'.slots[SLOT_PUK_HASH] != m.slots[SLOT_PUK_HASH] {
        var p: Puk :| AllDigits(p) && m'.slots[SLOT_PUK_HASH] == PukHash(ch.sha, ch.serial, p);
        k' := k'.(puk := p);
      }
    }
    RemembersMeans(ch.sha, ch.serial, m'.slots, k');
  }

  // ---------------------------------------------------------------- one request

  /** What a call satisfies on its own whatever was lost: sessions open on a confirmed PIN, signing needs an active one,
      and the chip signs only what was asked. */
  predicate Proper(before: Session, c: Call) {
    && (NeedsSession(c) ==> before.IsActive(c.at))
    && (Opens(c) ==> c.deeds.confirmed)
    && SignsAsAsked(c)
  }

  /** What is promised of an announced request `q`: timing, session, chip rest, token and codes. */
  twostate predicate Fulfils(service: CryptoService, t: Token, q: Request, reply: Reply, at: nat, k': Secrets)
    requires HasIdentity(t.keys)
    reads service, service.atecc
  {
    var c := Call(q, reply, at, service.atecc.summary.current);
    && service.Settled(at)
    && service.session == SessionStep(old(service.session), c) && Proper(old(service.session), c)
    && (!reply.Fail? && !q.CloseSession? ==> service.atecc.power == Resting)
    && (reply.NewPuk? ==> AllDigits(reply.issued) && BothSpent(c.deeds))
    && service.Simulates(t, q, reply, Step(t, q, at, Issued(reply)))
    && (Secure(service.atecc, old(service.atecc.chip.memory), t.Codes()) && TellsRequest(service.atecc, t.ioKey, q) ==>
          CodeStep(t.Codes(), c, k') && Remembers(service.atecc.sha, service.atecc.serial, service.atecc.chip.memory.slots, k'))
  }

  method PerformSetPin(service: CryptoService, oldPin: Pin, newPin: Pin, ioKey: Block, ghost t: Token)
    returns (reply: Reply, ghost at: nat, ghost k': Secrets)
    requires service.Announced() && HasIdentity(t.keys)
    modifies service, service.atecc
    ensures Fulfils(service, t, SetPin(oldPin, newPin, ioKey), reply, at, k')
  {
    ghost var ch, m := service.atecc, service.atecc.chip.memory;
    k' := t.Codes();
    reply, at := service.SetPin(oldPin, newPin, ioKey, t);
    if Secure(ch, m, t.Codes()) && Tells(ch, t.ioKey, ioKey, Counter0, newPin) {
      k' := RememberedAfterChange(ch, m, ch.chip.memory, {Counter0}, t.Codes(), Counter0, oldPin, Counter0, newPin, ioKey, reply.Done?);
    }
  }

  method PerformUnblockPin(service: CryptoService, puk: Puk, newPin: Pin, ioKey: Block, ghost t: Token)
    returns (reply: Reply, ghost at: nat, ghost k': Secrets)
    requires service.Announced() && HasIdentity(t.keys)
    modifies service, service.atecc
    ensures Fulfils(service, t, UnblockPin(puk, newPin, ioKey), reply, at, k')
  {
    ghost var ch, m := service.atecc, service.atecc.chip.memory;
    k' := t.Codes();
    reply, at := service.UnblockPin(puk, newPin, ioKey, t);
    if Secure(ch, m, t.Codes()) && Tells(ch, t.ioKey, ioKey, Counter0, newPin) {
      k' := RememberedAfterChange(ch, m, ch.chip.memory, {Counter0, Counter1}, t.Codes(), Counter1, puk, Counter0, newPin, ioKey, reply.Done?);
    }
  }

  method PerformSetPuk(service: CryptoService, oldPuk: Puk, newPuk: Puk, ioKey: Block, ghost t: Token)
    returns (reply: Reply, ghost at: nat, ghost k': Secrets)
    requires service.Announced() && HasIdentity(t.keys)
    modifies service, service.atecc
    ensures Fulfils(service, t, SetPuk(oldPuk, newPuk, ioKey), reply, at, k')
  {
    ghost var ch, m := service.atecc, service.atecc.chip.memory;
    k' := t.Codes();
    reply, at := service.SetPuk(oldPuk, newPuk, ioKey, t);
    if Secure(ch, m, t.Codes()) && Tells(ch, t.ioKey, ioKey, Counter1, newPuk) {
      k' := RememberedAfterChange(ch, m, ch.chip.memory, {Counter1}, t.Codes(), Counter1, oldPuk, Counter1, newPuk, ioKey, reply.Done?);
    }
  }

  method PerformReset(service: CryptoService, ioKey: Block, ghost t: Token) returns (reply: Reply, ghost at: nat, ghost k': Secrets)
    requires service.Announced() && HasIdentity(t.keys)
    modifies service, service.atecc
    ensures Fulfils(service, t, EmergencyReset(ioKey), reply, at, k')
  {
    ghost var ch, m := service.atecc, service.atecc.chip.memory;
    k' := t.Codes();
    ghost var draw;
    reply, at, draw := service.EmergencyReset(ioKey, t);
    if Secure(ch, m, t.Codes()) && TellsDrawn(ch, t.ioKey, ioKey) {
      k' := RememberedAfterReset(ch, m, ch.chip.memory, t.Codes(), ioKey, reply);
    }
  }

  /** The requests that leave the codes alone. */
  method PerformOther(service: CryptoService, q: Request, ghost t: Token) returns (reply: Reply, ghost at: nat)
    requires service.Announced() && HasIdentity(t.keys)
    requires !q.SetPin? && !q.UnblockPin? && !q.SetPuk? && !q.EmergencyReset?
    modifies service, service.atecc
    ensures Fulfils(service, t, q, reply, at, t.Codes())
  {
    ghost var ch, m := service.atecc, service.atecc.chip.memory;
    RemembersMeans(ch.sha, ch.serial, m.slots, t.Codes());
    match q {
      case VerifyPin(pin) =>
        reply, at := service.VerifyPin(pin, t);
        SlotsStay(m, ch.chip.memory, {Counter0}, {});
      case GenerateKey(slot) =>
        reply, at := service.GenerateKey(slot, t);
        SlotsStay(m, ch.chip.memory, {}, {slot});
      case Sign(slot, digest) => reply, at := service.Sign(slot, digest, t);
      case GetPinStatus => reply, at := service.GetPinStatus(t);
      case CloseSession => reply, at := service.CloseSession(t);
    }
  }

  lemma SlotsStay(m: Memory, m': Memory, ids: set<CounterId>, keys: set<nat>)
    requires Within(m, m', {}, ids, keys)
    ensures m'.slots == m.slots
  {
    WithinMeans(m, m', {}, ids, keys);
  }

  /** Carry out one announced request. */
  method Perform(service: CryptoService, q: Request, ghost t: Token) returns (reply: Reply, ghost at: nat, ghost k': Secrets)
    requires service.Announced() && HasIdentity(t.keys)
    modifies service, service.atecc
    ensures Fulfils(service, t, q, reply, at, k')
  {
    match q {
      case SetPin(oldPin, newPin, ioKey) => reply, at, k' := PerformSetPin(service, oldPin, newPin, ioKey, t);
      case UnblockPin(puk, newPin, ioKey) => reply, at, k' := PerformUnblockPin(service, puk, newPin, ioKey, t);
      case SetPuk(oldPuk, newPuk, ioKey) => reply, at, k' := PerformSetPuk(service, oldPuk, newPuk, ioKey, t);
      case EmergencyReset(ioKey) => reply, at, k' := PerformReset(service, ioKey, t);
      case _ =>
        reply, at := PerformOther(service, q, t);
        k' := t.Codes();
    }
  }

  /** Announce a request to the chip's record and carry it out. */
  method Carry(service: CryptoService, q: Request, ghost t: Token) returns (reply: Reply, ghost c: Call, ghost k': Secrets)
    requires service.Ready() && HasIdentity(t.keys)
    modifies service, service.atecc
    ensures c.request == q && c.reply == reply && service.atecc.summary.All() == old(service.atecc.summary.All()) + [c.deeds]
    ensures service.Ready() && service.atecc.clock(old(service.atecc.step)) <= c.at <= service.atecc.clock(service.atecc.step)
    ensures service.session == SessionStep(old(service.session), c) && Proper(old(service.session), c)
    ensures !reply.Fail? && !q.CloseSession? ==> service.atecc.power == Resting
    ensures reply.NewPuk? ==> BothSpent(c.deeds)
    ensures Ideal(service.atecc) && TellsRequest(service.atecc, t.ioKey, q) && old(service.Mirrors(t)) ==>
              Answers(t, q, reply, c.at) && service.Mirrors(Next(t, q, reply, c.at))
    ensures Secure(service.atecc, old(service.atecc.chip.memory), t.Codes()) && TellsRequest(service.atecc, t.ioKey, q) ==>
              CodeStep(t.Codes(), c, k') && Remembers(service.atecc.sha, service.atecc.serial, service.atecc.chip.memory.slots, k')
  {
    service.atecc.BeginCall();
    ghost var at;
    reply, at, k' := Perform(service, q, t);
    c := Call(q, reply, at, service.atecc.summary.current);
  }

  // ---------------------------------------------------------------- histories and beliefs

  /** The codes the chip held before each call and after the last. */
  type Beliefs = b: seq<Secrets> | |b| > 0 witness [Secrets(PIN_DEFAULT, Issued(Done), Zeros(32))]

  function Latest(b: Beliefs): Secrets {
    b[|b| - 1]
  }

  ghost predicate Upheld(b: Beliefs, h: History) {
    && |b| == |h| + 1
    && (h != [] ==> Upheld(b[..|h|], h[..|h| - 1]) && CodeStep(b[|h| - 1], h[|h| - 1], b[|h|]))
  }

  lemma ExtendUpheld(b: Beliefs, h: History, c: Call, k': Secrets)
    requires Upheld(b, h) && CodeStep(Latest(b), c, k')
    ensures Upheld(b + [k'], h + [c])
  {
    assert (b + [k'])[..|h| + 1] == b && (h + [c])[..|h|] == h;
  }

  lemma {:induction false} UpheldAt(b: Beliefs, h: History, i: nat)
    requires Upheld(b, h) && i < |h|
    ensures CodeStep(b[i], h[i], b[i + 1])
  {
    if i < |h| - 1 {
      UpheldAt(b[..|h|], h[..|h| - 1], i);
    }
  }

  /** The call, made to a chip with these codes, is entitled to make `pin` the PIN. */
  predicate Authorises(k: Secrets, c: Call, pin: Pin) {
    match c.request
    case SetPin(oldPin, newPin, ioKey) => oldPin == k.pin && ioKey == k.ioKey && newPin == pin
    case UnblockPin(puk, newPin, ioKey) => puk == k.puk && ioKey == k.ioKey && newPin == pin
    case EmergencyReset(ioKey) => ioKey == k.ioKey && BothSpent(c.deeds) && pin == PIN_DEFAULT
    case _ => false
  }

  /** And likewise for the PUK. */
  predicate AuthorisesPuk(k: Secrets, c: Call, puk: Puk) {
    match c.request
    case SetPuk(oldPuk, newPuk, ioKey) => oldPuk == k.puk && ioKey == k.ioKey && newPuk == puk
    case EmergencyReset(ioKey) => ioKey == k.ioKey && BothSpent(c.deeds)
    case _ => false
  }

  /** A PIN other than the first was last set by a call entitled to. */
  lemma {:induction false} PinHasAuthor(b: Beliefs, h: History) returns (i: nat)
    requires Upheld(b, h) && Latest(b).pin != b[0].pin
    ensures i < |h| && Authorises(b[i], h[i], Latest(b).pin)
    ensures forall j :: i < j <= |h| ==> b[j].pin == Latest(b).pin
  {
    var n := |h|;
    if n == 0 {
      assert false;
    } else if b[n - 1].pin == Latest(b).pin {
      i := PinHasAuthor(b[..n], h[..n - 1]);
    } else {
      i := n - 1;
    }
  }

  lemma {:induction false} PukHasAuthor(b: Beliefs, h: History) returns (i: nat)
    requires Upheld(b, h) && Latest(b).puk != b[0].puk
    ensures i < |h| && AuthorisesPuk(b[i], h[i], Latest(b).puk)
    ensures forall j :: i < j <= |h| ==> b[j].puk == Latest(b).puk
  {
    var n := |h|;
    if n == 0 {
      assert false;
    } else if b[n - 1].puk == Latest(b).puk {
      i := PukHasAuthor(b[..n], h[..n - 1]);
    } else {
      i := n - 1;
    }
  }

  /** The hash tells of every request so far whether it carries the stored I/O key. */
  ghost predicate AllTold(ch: Channel, stored: Block, h: History) {
    h == [] || (AllTold(ch, stored, h[..|h| - 1]) && TellsRequest(ch, stored, h[|h| - 1].request))
  }

  lemma ExtendTold(ch: Channel, stored: Block, h: History, c: Call)
    ensures AllTold(ch, stored, h + [c]) <==> AllTold(ch, stored, h) && TellsRequest(ch, stored, c.request)
  {
    assert (h + [c])[..|h|] == h;
  }

  /** A chip provisioned as meant, and a hash that collides neither on digit codes at the challenges drawn nor on the
      writes the requests so far led to. */
  ghost predicate Trustworthy(ch: Channel, provisioned: bool, stored: Block, h: History) {
    provisioned && CodesApart(ch.sha, ch.serial, ch.tape) && AllTold(ch, stored, h)
  }

  /** What is kept of history, beliefs and current token: more for a chip that is trusted, most for one that besides
      loses nothing. */
  ghost predicate Coherent(ch: Channel, provisioned: bool, trusted: bool, origin: Token, h: History, b: Beliefs, t: Token)
    requires HasIdentity(origin.keys)
  {
    && Gated(h) && HasIdentity(t.keys) && trusted == Trustworthy(ch, provisioned, origin.ioKey, h)
    && (trusted ==> Upheld(b, h) && b[0] == origin.Codes() && Latest(b) == t.Codes() && t.ioKey == origin.ioKey)
    && (trusted && ch.FaultFree() ==> Explains(origin, h) && t == After(origin, h))
  }

  ghost predicate FoldedCoherent(ch: Channel, provisioned: bool, trusted: bool, origin: Token, h: History, b: Beliefs, t: Token, layers: nat)
    requires HasIdentity(origin.keys)
    decreases layers, h
  {
    if layers == 0 then Coherent(ch, provisioned, trusted, origin, h, b, t)
    else FoldedCoherent(ch, provisioned, trusted, origin, h, b, t, layers - 1)
  }

  ghost predicate Consistent(ch: Channel, provisioned: bool, trusted: bool, origin: Token, h: History, b: Beliefs, t: Token)
    requires HasIdentity(origin.keys)
  {
    FoldedCoherent(ch, provisioned, trusted, origin, h, b, t, LAYERS)
  }

  lemma {:induction false} UnfoldCoherent(ch: Channel, provisioned: bool, trusted: bool, origin: Token, h: History, b: Beliefs, t: Token, layers: nat)
    requires HasIdentity(origin.keys)
    ensures FoldedCoherent(ch, provisioned, trusted, origin, h, b, t, layers) <==> Coherent(ch, provisioned, trusted, origin, h, b, t)
  {
    if layers > 0 {
      UnfoldCoherent(ch, provisioned, trusted, origin, h, b, t, layers - 1);
    }
  }

  lemma ConsistentMeans(ch: Channel, provisioned: bool, trusted: bool, origin: Token, h: History, b: Beliefs, t: Token)
    requires HasIdentity(origin.keys)
    ensures Consistent(ch, provisioned, trusted, origin, h, b, t) <==> Coherent(ch, provisioned, trusted, origin, h, b, t)
  {
    UnfoldCoherent(ch, provisioned, trusted, origin, h, b, t, LAYERS);
  }

  /** One more call. */
  lemma Grow(ch: Channel, provisioned: bool, trusted: bool, origin: Token, h: History, b: Beliefs, t: Token, c: Call, u: Secrets)
    returns (trusted': bool, t': Token)
    requires HasIdentity(origin.keys) && Consistent(ch, provisioned, trusted, origin, h, b, t) && HasIdentity(t.keys)
    requires GatedCall(h, c) && (c.reply.NewPuk? ==> BothSpent(c.deeds))
    requires trusted && TellsRequest(ch, origin.ioKey, c.request) ==> AllDigits(t.pin) && AllDigits(t.puk) && CodeStep(t.Codes(), c, u)
    requires trusted && TellsRequest(ch, origin.ioKey, c.request) && ch.FaultFree() ==> Answers(t, c.request, c.reply, c.at)
    ensures Consistent(ch, provisioned, trusted', origin, h + [c], b + [t'.Codes()], t')
    ensures trusted' == (trusted && TellsRequest(ch, origin.ioKey, c.request))
    ensures trusted' && ch.FaultFree() ==> t' == Next(t, c.request, c.reply, c.at)
    ensures trusted' && !ch.FaultFree() ==> t'.Codes() == u
    ensures SessionAfter(h + [c]) == SessionStep(SessionAfter(h), c) && Recorded(h + [c]) == Recorded(h) + [c.deeds]
  {
    ConsistentMeans(ch, provisioned, trusted, origin, h, b, t);
    ExtendGated(h, c);
    ExtendRecorded(h, c);
    ExtendTold(ch, origin.ioKey, h, c);
    trusted' := trusted && TellsRequest(ch, origin.ioKey, c.request);
    t' := t;
    if trusted' && ch.FaultFree() {
      ExtendExplains(origin, h, c);
      TokenKeepsCodes(t, c);
      t' := Next(t, c.request, c.reply, c.at);
    } else if trusted' {
      t' := t.(pin := u.pin, puk := u.puk);
    }
    if trusted' {
      ExtendUpheld(b, h, c, t'.Codes());
    }
    ConsistentMeans(ch, provisioned, trusted', origin, h + [c], b + [t'.Codes()], t');
  }

  /** Serve a request and continue history, beliefs and token. */
  method ServeNext(service: CryptoService, q: Request, ghost provisioned: bool, ghost trusted: bool, ghost origin: Token,
                   ghost h: History, ghost b: Beliefs, ghost t: Token)
    returns (reply: Reply, ghost c: Call, ghost trusted': bool, ghost t': Token)
    requires service.Ready() && HasIdentity(origin.keys) && Consistent(service.atecc, provisioned, trusted, origin, h, b, t)
    requires service.session == SessionAfter(h) && (h != [] ==> h[|h| - 1].at <= service.atecc.clock(service.atecc.step))
    requires trusted ==> Remembers(service.atecc.sha, service.atecc.serial, service.atecc.chip.memory.slots, t.Codes())
    requires trusted && service.atecc.FaultFree() ==> service.Mirrors(t)
    modifies service, service.atecc
    ensures service.Ready() && Consistent(service.atecc, provisioned, trusted', origin, h + [c], b + [t'.Codes()], t')
    ensures c.request == q && c.reply == reply
    ensures service.session == SessionAfter(h + [c]) && c.at <= service.atecc.clock(service.atecc.step)
    ensures Recorded(h + [c]) == Recorded(h) + [c.deeds]
    ensures service.atecc.summary.All() == old(service.atecc.summary.All()) + [c.deeds]
    ensures trusted' ==> Remembers(service.atecc.sha, service.atecc.serial, service.atecc.chip.memory.slots, t'.Codes())
    ensures trusted' && service.atecc.FaultFree() ==> service.Mirrors(t')
    ensures !reply.Fail? && !q.CloseSession? ==> service.atecc.power == Resting
  {
    ghost var u;
    RemembersMeans(service.atecc.sha, service.atecc.serial, service.atecc.chip.memory.slots, t.Codes());
    ConsistentMeans(service.atecc, provisioned, trusted, origin, h, b, t);
    reply, c, u := Carry(service, q, t);
    trusted', t' := Grow(service.atecc, provisioned, trusted, origin, h, b, t, c, u);
    CoupledMeans(service.atecc.sha, service.atecc.serial, service.atecc.chip.memory, t');
  }

  // ---------------------------------------------------------------- the loop

  class Dispatcher {
    const service: CryptoService
    ghost const origin: Token
    ghost const provisioned: bool
    ghost var history: History
    ghost var beliefs: Beliefs
    ghost var token: Token
    ghost var trusted: bool

    /** `origin` is the token the chip is meant to be; what refers to it holds when it is one. */
    constructor (service: CryptoService, ghost origin: Token)
      requires service.Ready() && service.session == Session.New() && service.atecc.log == []
      requires HasIdentity(origin.keys)
      ensures Valid() && history == [] && beliefs == [origin.Codes()] && token == origin && this.service == service && this.origin == origin
      ensures provisioned == service.Mirrors(origin)
    {
      this.service, this.origin := service, origin;
      this.provisioned := service.Mirrors(origin);
      this.history, this.beliefs, this.token := [], [origin.Codes()], origin;
      this.trusted := Trustworthy(service.atecc, service.Mirrors(origin), origin.ioKey, []);
      new;
      service.atecc.RecordTells();
      CoupledMeans(service.atecc.sha, service.atecc.serial, service.atecc.chip.memory, origin);
      ConsistentMeans(service.atecc, provisioned, trusted, origin, history, beliefs, token);
    }

    /** What the results on codes assume: a chip provisioned as `origin` and no collision on the messages compared so far.
        Faults are no matter. */
    ghost predicate Trusted()
      reads this
    {
      Trustworthy(service.atecc, provisioned, origin.ioKey, history)
    }

    /** What the refinement assumes: that, and a clean bus. */
    ghost predicate Assumed()
      reads this
    {
      Trusted() && service.atecc.FaultFree()
    }

    ghost predicate Valid()
      reads this, service, service.atecc
    {
      && service.Ready() && HasIdentity(origin.keys) && Consistent(service.atecc, provisioned, trusted, origin, history, beliefs, token)
      && service.session == SessionAfter(history)
      && (history != [] ==> history[|history| - 1].at <= service.atecc.clock(service.atecc.step))
      && service.atecc.summary.All() == Recorded(history)
      && (trusted ==> Remembers(service.atecc.sha, service.atecc.serial, service.atecc.chip.memory.slots, token.Codes()))
      && (trusted && service.atecc.FaultFree() ==> service.Mirrors(token))
    }

    /** What a valid dispatcher keeps, spelled out. */
    lemma Meaning()
      requires Valid()
      ensures Coherent(service.atecc, provisioned, trusted, origin, history, beliefs, token) && trusted == Trusted()
    {
      ConsistentMeans(service.atecc, provisioned, trusted, origin, history, beliefs, token);
    }

    /** Serve one request. */
    method Serve(q: Request) returns (reply: Reply)
      requires Valid()
      modifies this, service, service.atecc
      ensures Valid()
      ensures |history| == |old(history)| + 1 && history[..|old(history)|] == old(history)
      ensures history[|old(history)|].request == q && history[|old(history)|].reply == reply
      ensures !reply.Fail? && !q.CloseSession? ==> service.atecc.power == Resting
    {
      ghost var c;
      ghost var trusted';
      ghost var t';
      reply, c, trusted', t' := ServeNext(service, q, provisioned, trusted, origin, history, beliefs, token);
      history, beliefs, trusted, token := history + [c], beliefs + [t'.Codes()], trusted', t';
    }

    /** Serve any sequence of requests. */
    method Run(requests: seq<Request>) returns (replies: seq<Reply>)
      requires Valid() && history == []
      modifies this, service, service.atecc
      ensures Valid() && |history| == |requests| == |replies|
      ensures forall i :: 0 <= i < |requests| ==> history[i].request == requests[i] && history[i].reply == replies[i]
    {
      replies := [];
      for n := 0 to |requests|
        invariant Valid() && |history| == n == |replies|
        invariant forall i :: 0 <= i < n ==> history[i].request == requests[i] && history[i].reply == replies[i]
      {
        var reply := Serve(requests[n]);
        replies := replies + [reply];
      }
    }
  }
}
