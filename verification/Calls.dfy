/** Requests to the crypto service, its replies, and the record of one completed call. */
module Calls {
  import opened Bytes
  import opened Errors
  import opened Messages
  import opened ChipLog
  import opened Atecc

  datatype Request =
    | VerifyPin(pin: Pin)
    | SetPin(oldPin: Pin, newPin: Pin, ioKey: Block)
    | UnblockPin(puk: Puk, newPin: Pin, ioKey: Block)
    | SetPuk(oldPuk: Puk, newPuk: Puk, ioKey: Block)
    | EmergencyReset(ioKey: Block)
    | Sign(slot: Slot, digest: Block)
    | GenerateKey(slot: Slot)
    | GetPinStatus
    | CloseSession

  datatype ServiceError =
    | Atecc(cause: AteccError)
    | InvalidFormat(format: FormatError)
    | PinIncorrect(triesRemaining: nat)
    | PinBlocked
    | PukIncorrect(triesRemaining: nat)
    | Bricked
    | PinRequired
    | EmergencyResetNotPermitted(pinTriesRemaining: nat, pukTriesRemaining: nat)

  datatype Reply =
    | Done
    | NewPuk(issued: Puk)
    | PublicKey(keySlot: Slot, generation: int)
    | Signed(signature: Signature)
    | Status(pinTries: nat, pukTries: nat, sessionActive: bool)
    | Fail(error: ServiceError)

  /** A completed call: what was asked and answered, the clock reading it used, and what the chip did for it. */
  datatype Call = Call(request: Request, reply: Reply, at: nat, deeds: Deeds)

  type History = seq<Call>
}
