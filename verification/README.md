# A verified model of the pico-hsm token

A USB signing token made of an RP2040 and an ATECC608B secure element. The firmware keeps a PIN and a PUK whose wrong
tries are limited by two monotonic counters on the chip, opens a 30 second session on a right PIN, and signs only after
a touch. This project models the protocol code and proves what it is for:

- **Retry limits and credentials** (`RetryCounter`, `Messages`, `ChipLog`, `Atecc`, `Agreement`, `ServiceCore`,
  `Credentials`, `CryptoService`, `Session`, `Token`, `TokenLaws`, `TokenReplies`, `Dispatch`, `Guarantees`). `Atecc.Channel` is the chip
  behind a bus that may lose any command, before or after it takes effect. `CryptoService` follows the service call by
  call. Two things are proved for every run of `Dispatch.Dispatcher`: what survives arbitrary faults (bounded guessing,
  sessions only on the current PIN, codes changed only with the right code and I/O key, session chains, signatures only
  as asked, frames only to a woken chip), and, when nothing is lost, that every reply is
  that of a small abstract `Token` with two codes, two budgets and a session, up to and at the counters' 2^21 - 1 ceiling.
- **Touch to sign** (`Debounce`, `TokenState`, `StateTask`, `TouchToSign`, `TouchLaws`). Four tasks as interleaved steps
  over a bounded lossy queue and a last-write-wins signal; `SignedTouches` joins them with the service's calls.
- **The wire** (`Bytes`, `Crc`, `Errors`, `Packet`, `MessageLayouts`, `Driver`, `CounterEncoding`, `ConfigZone`).

`dafny verify dfyconfig.toml` checks everything.

What is assumed of the chip: CheckMac on slots 5 and 6 ticks its counter whatever the outcome and is refused at the
ceiling; Counter refuses at the ceiling; an encrypted Write is accepted when its MAC matches under the current TempKey;
Write refuses words 0 to 3 and 21 of the configuration zone; an execution error comes from a chip that refuses, while any
other failure, chip statuses included, may come at any command, before or after it takes effect.

SHA-256 is a parameter, and what is asked of it is asked of the messages a run compares. The chip's random blocks are a
tape of any finite length. `Messages.CodesApart` asks that digit codes do not collide under the two salts, nor their
CheckMac messages at the challenges on the tape; `Messages.KeyShows` asks, for one I/O key that is not the stored one and
one plaintext, that the two session keys and the two MACs do not collide at the nonces on the tape. A run needs the
second only for the keys and codes its requests carry (`Dispatch.AllTold`). Other results need neither.
`Agreement.SeparationIsSatisfiable` shows that the demands do not contradict each other; that SHA-256 meets
them is an assumption. Clock, tape and faults are functions of a step counter, so that a statement about all of them is
a statement about every run.

Operations that share their opening share a helper here: `CheckCode`, `CheckAndRenew` and `CheckAndReplace` are the
steps that `verify_pin`, `set_pin`, `unblock_pin` and `set_puk` repeat inline. Predicates named `Folded...` put a
definition behind a few layers of recursion, which keep the verifier from unfolding it in methods that only hand it on.

Where code and documentation disagree the code is followed: `docs/config-zone-layout.md:298` says only a mismatch ticks
the counter and `docs/config-zone-layout.md:302` that a refresh lands on a multiple of the batch; the service ticks on
every check and lands one past the multiple. The comment at `crates/hsm-crypto-service/src/service.rs:692`, that no
session can exist at an emergency reset, is not established by the code (`TokenLaws.SessionOutlivesReset`). An emergency
reset with a wrong I/O key is refused only after the identity keys are gone (`TokenLaws.RefusedResetKeepsKeysExactly`). A
press that is taken for a confirmation just after the touch wait has timed out leaves the token in Signing for good
(`TouchLaws.StuckIsReachable`, `TouchLaws.SigningEndsExactly`).

## Model

| member | source | states |
|---|---|---|
| `RetryCounter.RetriesIsDistanceToSaturation` | crates/hsm-crypto-service/src/service.rs:1383-1409 | tries left is exactly the distance to the next saturated count, for every count and batch: no earlier count is saturated, and that one is |
| `RetryCounter.RefreshIsLeast` | crates/hsm-crypto-service/src/service.rs:1212-1230 | a refresh lands on the least count at or above the current one that is 1 modulo the batch, and leaves batch - 1 tries |
| `RetryCounter.RefreshNeverMeetsCeiling` | crates/hsm-crypto-service/src/service.rs:1236-1244 | from any count up to 2^21 - 1 a refresh stays within the ceiling, which is itself a refreshed count for batches 5 and 10, so the tolerated refusal in the loop never happens |
| `RetryCounter.CycleCostsOneBatch` | crates/hsm-crypto-service/src/service.rs:1193-1199 | from a refreshed count, any number of wrong tries that leaves one over, then a success, costs exactly one batch of ticks |
| `RetryCounter.MissCostsOneTry` | crates/hsm-crypto-service/src/service.rs:380-386 | on any count that is not saturated, one more tick is one try less |
| `ChipLog.GateIsEvidence` | crates/hsm-crypto-service/src/service.rs:1186-1194 | a call may refresh only after a code matched in that same call or it read both batches exhausted, the PIN's first |
| `ChipLog.ExhaustedLeavesOnlyByRefresh` | crates/hsm-crypto-service/src/service.rs:1383-1409 | in every disciplined log a counter leaves a non-zero multiple of its batch only by an increment in an entitled call, never by a CheckMac |
| `ChipLog.ChangesOnlyWhenEntitled` | crates/hsm-crypto-service/src/service.rs:440-465 | code slots are rewritten and counters incremented only in an entitled call |
| `ChipLog.MissesFitTheBatch` | crates/hsm-crypto-service/src/service.rs:371-398 | while nothing is earned, all wrong codes lie after the last multiple of the batch |
| `ChipLog.BoundedGuessing` | crates/hsm-crypto-service/src/service.rs:371-398 | in every disciplined log, any stretch in which a counter is not taken past an exhausted batch, as between two refreshes, tests at most 5 PINs or 10 PUKs, right ones included |
| `ChipLog.SpentMeansReadExhausted` | crates/hsm-crypto-service/src/service.rs:648-652 | a call counts as having found a batch exhausted if and only if it read that counter at a non-zero multiple |
| `ChipLog.SummaryKeepsEverySignature` | crates/hsm-crypto-service/src/service.rs:949-986 | the per-call records account for every signature in the chip's log, in order and none twice |
| `ChipLog.ConfirmedMeansMatchingPin` | crates/hsm-crypto-service/src/service.rs:362-404 | a call counts as PIN-confirmed if and only if the chip matched a PIN among that call's own events |
| `Atecc.PowerMeans` | crates/atecc608b/src/wake.rs:70-128 | in a bus record that is in order, awake means only frames since a confirmed wake, resting means a confirmed idle token came last |
| `Atecc.FrameFollowsWake` | crates/atecc608b/src/driver.rs:149-157 | each frame follows a confirmed wake with nothing but frames in between |
| `Atecc.Channel.OpenChannel` | crates/atecc608b/src/driver.rs:149-157 | wakes the chip or fails with the record still in order |
| `Atecc.Channel.Close` | crates/atecc608b/src/driver.rs:202-207 | idle token: memory untouched, success means the chip rests, the digest buffer is gone |
| `Atecc.Channel.TestCode` | crates/atecc608b/src/command/checkmac.rs:86-108 | a limited-use key test ticks its counter once whatever the outcome, is refused at the ceiling, and may be lost before or after taking effect |
| `Atecc.Channel.CheckMac` | crates/atecc608b/src/command/checkmac.rs:86-108 | matches exactly when the response equals the one rebuilt from the slot's content |
| `Atecc.Channel.CounterIncrement` | crates/atecc608b/src/command/counter.rs:84-99 | one tick, refused with ExecutionError exactly at the ceiling; the bus may lose it on either side |
| `Atecc.Channel.GenDig` | crates/atecc608b/src/command/gendig.rs:87-105 | TempKey becomes the hash of the stored key, the parameters and the previous TempKey |
| `Atecc.Channel.WriteEncrypted` | crates/atecc608b/src/command/read_write.rs:377-398 | stores the decrypted block if and only if the MAC over the received parameters and the current TempKey matches; nothing else changes |
| `Atecc.Channel.SignExternal` | crates/atecc608b/src/command/sign.rs:92-118 | signs what the digest buffer holds, with that slot's key |
| `Messages.ValidateDigits` | crates/hsm-crypto-service/src/pin.rs:90-102 | reports the first byte that is not a digit, or nothing if and only if all are digits |
| `Messages.AddressNamesSlot` | crates/atecc608b/src/command/read_write.rs:145-151 | the chip reads back from a data address the slot it was built for |
| `Messages.EncryptPayload` | crates/hsm-crypto-service/src/encrypted_write.rs:117-134 | the loop computes the bytewise exclusive or |
| `Agreement.RightKeyWrites` | crates/hsm-crypto-service/src/encrypted_write.rs:77-200 | for every plaintext, nonce, serial and slot, with the stored I/O key the chip derives the same session key, accepts the MAC and recovers exactly the plaintext for exactly that slot |
| `Agreement.WrongKeyRefused` | crates/hsm-crypto-service/src/encrypted_write.rs:77-200 | with any other I/O key the chip refuses, given that neither the two session keys of that nonce nor the two MACs it compares collide |
| `Agreement.PinMatchesExactly` | crates/hsm-crypto-service/src/pin.rs:130-233 | at every challenge the chip draws a PIN CheckMac succeeds if and only if the typed digits are the stored ones, given no collision between digit PINs at those challenges |
| `Agreement.PukMatchesExactly` | crates/hsm-crypto-service/src/pin.rs:142-233 | the same for the PUK |
| `MessageLayouts.RecordLayout` | crates/hsm-crypto-service/src/pin.rs:106-150 | a stored record is the hash of the code and the hash of the domain tag, spelt out, and the serial |
| `MessageLayouts.CheckMacLayout` | crates/hsm-crypto-service/src/pin.rs:176-233 | every byte of the 88-byte CheckMac message at its offset: record, challenge, command, OTP zeros and mixed-in serial bytes |
| `MessageLayouts.SessionKeyLayout` | crates/hsm-crypto-service/src/encrypted_write.rs:77-115 | every byte of the 96-byte GenDig message at its offset |
| `MessageLayouts.WriteLayout` | crates/hsm-crypto-service/src/encrypted_write.rs:153-200 | every byte of the 96-byte write message at its offset, the address low byte first |
| `MessageLayouts.AddressValue` | crates/atecc608b/src/command/read_write.rs:145-151 | a data address is the word offset in three bits plus 8 times the slot plus 256 times the block |
| `ServiceCore.ReadCounter` | crates/hsm-crypto-service/src/service.rs:1097-1106 | returns the counter and leaves the chip resting, or fails with memory untouched |
| `ServiceCore.CheckmacWithHash` | crates/hsm-crypto-service/src/service.rs:1160-1189 | true if and only if the responses agree; one tick unless the test never ran; success earns the right to a refresh |
| `ServiceCore.Increment` | crates/hsm-crypto-service/src/service.rs:1232-1253 | the increments of a refresh; a lost one stops short, none overshoots, and the ceiling is never met |
| `ServiceCore.RefreshCounterBatch` | crates/hsm-crypto-service/src/service.rs:1205-1256 | success lands exactly on the refreshed count; any failure leaves the counter between the old and the refreshed count and the rest of memory alone |
| `ServiceCore.WriteSlotEncrypted` | crates/hsm-crypto-service/src/service.rs:1275-1316 | under any faults: with the stored I/O key the slot holds the old content or exactly the plaintext, and the plaintext on success; with another key that the hash tells apart for this plaintext at the nonces drawn, the write fails and memory is unchanged |
| `Credentials.HitExactly` | crates/hsm-crypto-service/src/service.rs:362-404 | on a chip that holds a token's codes, the check for a typed code at any drawn challenge matches if and only if it is that token's code |
| `Credentials.TryCode` | crates/hsm-crypto-service/src/service.rs:375-390 | a code check followed by the re-read of the counter gives the token's verdict and the tries it has left |
| `Credentials.ReplaceAndRenew` | crates/hsm-crypto-service/src/service.rs:440-465 | a code is replaced before its batch is renewed, so a refused write earns nothing |
| `Credentials.RegenerateKeys` | crates/hsm-crypto-service/src/service.rs:671-681 | all six identity keys, or a prefix of them on failure, are regenerated and nothing else changes |
| `Credentials.PukDigits` | crates/hsm-crypto-service/src/service.rs:712-722 | eight bytes, each 48 plus its random byte modulo 10, in numbers |
| `Credentials.EveryPukIsDrawn` | crates/hsm-crypto-service/src/service.rs:702-723 | every eight-digit PUK is the one of some random block |
| `CryptoService.CryptoService.CachedSerial` | crates/hsm-crypto-service/src/service.rs:1114-1135 | the serial of the chip, read over four exchanges at most once |
| `CryptoService.CryptoService.VerifyPin` | crates/hsm-crypto-service/src/service.rs:362-404 | under any faults: success means the chip confirmed the PIN in this call, the counter is 1 modulo 5 and a session opens; an exhausted batch gives PinBlocked or a format or bus error with memory unchanged, and PinBlocked comes only from one; without faults reply and new state are the token's |
| `CryptoService.CryptoService.SetPin` | crates/hsm-crypto-service/src/service.rs:485-527 | the same; whatever is lost, slot 5 keeps its content or, given the right PIN and I/O key, holds the new hash, and holds it on success; a wrong I/O key costs at most one tick and changes nothing else; only slot 5 and Counter0 can change; PinBlocked exactly as for verify_pin |
| `CryptoService.CryptoService.UnblockPin` | crates/hsm-crypto-service/src/service.rs:418-468 | whatever is lost, slot 5 keeps its content or, given the right PUK and I/O key, holds the new hash; success leaves both counters 1 modulo their batch, session untouched; an exhausted PUK batch gives Bricked or a format or bus error with memory unchanged, and Bricked comes only from one; without faults exactly the token |
| `CryptoService.CryptoService.SetPuk` | crates/hsm-crypto-service/src/service.rs:538-589 | needs an active session, renews it only on success; slot 6 changes only given the right PUK and I/O key, only to the new hash; a wrong I/O key costs at most one tick; Bricked as for unblock_pin, in an active session; without faults exactly the token |
| `CryptoService.CryptoService.EmergencyReset` | crates/hsm-crypto-service/src/service.rs:641-695 | under any faults nothing changes unless both counters are saturated; success means slots 5 and 6 hold the default PIN and the returned digits and both counters are 1 modulo their batch; the digits are those of a block drawn in this call; a wrong I/O key changes nothing but keys; the session is left as it is; without faults exactly the token |
| `CryptoService.CryptoService.Sign` | crates/hsm-crypto-service/src/service.rs:949-986 | the chip signs at most once, only in an active session, and exactly the caller's slot and digest; memory is untouched |
| `CryptoService.CryptoService.GenerateKey` | crates/hsm-crypto-service/src/service.rs:196-206 | replaces exactly that slot's key and reports the new one; no session is asked for; without faults exactly the token |
| `CryptoService.CryptoService.GetPinStatus` | crates/hsm-crypto-service/src/service.rs:994-1010 | reports both tries left and whether the session is active; changes nothing |
| `CryptoService.CryptoService.CloseSession` | crates/hsm-crypto-service/src/service.rs:1018-1021 | closes the session and touches nothing else |
| `Session.OpenSessionHasChain` | crates/hsm-crypto-service/src/session.rs:60-90 | behind every open session stands a chain of activity ending at its last activity |
| `Session.SignatureHasChain` | crates/hsm-crypto-service/src/service.rs:956-984 | every signature and PUK change comes less than 30 s after a chain with gaps under 30 s that starts at a confirmed PIN, continues only by successful sign or set_puk, with no close since its start |
| `Session.ActiveExactly` | crates/hsm-crypto-service/src/session.rs:83-90 | a session is active if and only if it is open and the time is before its last activity plus 30 000 ms |
| `Session.SessionMoves` | crates/hsm-crypto-service/src/session.rs:60-79 | opening and touching note the time, touching only an open session; closing forgets it |
| `Token.ExplainedAt` | crates/hsm-crypto-service/src/service.rs:362-589 | a history explained by the token is answered by it at each call |
| `TokenLaws.StepKeepsWellFormed` | crates/hsm-crypto-service/src/service.rs:362-723 | every request keeps tries and lifetime in step with one counter value and the codes digits |
| `TokenLaws.PinAcceptedExactly` | crates/hsm-crypto-service/src/service.rs:362-404 | a PIN is accepted if and only if it is the PIN, tries are left and the counter is below its ceiling; acceptance leaves 4 tries and an active session |
| `TokenLaws.SetPinThenVerify` | crates/hsm-crypto-service/src/service.rs:485-527 | after a successful change exactly the new PIN is accepted (unless the counter is worn out), with 4 tries left, 3 after a miss |
| `TokenLaws.UnblockThenVerify` | crates/hsm-crypto-service/src/service.rs:418-468 | after an unblock exactly the new PIN is accepted, with 4 PIN and 9 PUK tries |
| `TokenLaws.WrongCodeCostsOne` | crates/hsm-crypto-service/src/service.rs:383-390 | a wrong code lowers the tries and the reported number by one and changes nothing else |
| `TokenLaws.ResetExactly` | crates/hsm-crypto-service/src/service.rs:641-695 | a reset without both batches exhausted changes nothing; it succeeds if and only if they are and the I/O key is right; then exactly PIN 0000 and the returned PUK are accepted |
| `TokenLaws.ResetReplacesKeys` | crates/hsm-crypto-service/src/service.rs:671-681 | a permitted reset replaces every identity key, right I/O key or not |
| `TokenLaws.RefusedResetKeepsKeysExactly` | crates/hsm-crypto-service/src/service.rs:654-687 | a refused reset keeps the keys if and only if it was not permitted, and leaves the rest of the token alone; with both batches exhausted and a wrong I/O key it is refused after the keys are gone |
| `TokenLaws.RefusedResetLosesKeys` | crates/hsm-crypto-service/src/service.rs:671-687 | a token and a wrong I/O key for which that happens |
| `TokenLaws.Recoverable` | crates/hsm-crypto-service/src/service.rs:594-613 | with both counters below the ceiling, at most 5 wrong PINs and 10 wrong PUKs, whichever, make the reset permitted and change nothing else |
| `TokenLaws.WornOutExactly` | crates/hsm-crypto-service/src/service.rs:1383-1409 | a counter is at its ceiling if and only if it shows batch - 1 tries and no lifetime, and then no reset is permitted |
| `TokenLaws.WornOutForGood` | crates/hsm-crypto-service/src/service.rs:624-628 | a counter at its ceiling stays there with tries on it, whatever is requested |
| `TokenLaws.NeverAgain` | crates/hsm-crypto-service/src/service.rs:624-628 | so from a worn-out counter no run ever reaches a permitted reset: recovery is possible exactly below the ceilings |
| `TokenLaws.SessionOutlivesReset` | crates/hsm-crypto-service/src/service.rs:689-694 | a session open before both batches were exhausted is still active after the reset and signs, if and only if it was active: the comment that none can exist is not established by the code |
| `TokenReplies.FormatRefused` | crates/hsm-crypto-service/src/pin.rs:90-102 | a code with a byte outside 48 to 57 is refused with the place of its first such byte, the old code looked at before the new, and nothing changes |
| `TokenReplies.ExhaustedRefused` | crates/hsm-crypto-service/src/service.rs:371-376 | with no tries left verify_pin and set_pin answer PinBlocked, unblock_pin and, in session, set_puk answer Bricked, whatever the codes, and nothing changes |
| `TokenReplies.WornOutRefused` | crates/hsm-crypto-service/src/service.rs:1160-1189 | at the counter's ceiling every code is refused with the chip's ExecutionError and nothing changes |
| `TokenReplies.SessionRequired` | crates/hsm-crypto-service/src/service.rs:552-556 | 30 000 ms after the last activity or more, sign and set_puk answer PinRequired and change nothing |
| `TokenReplies.WrongCodeRefused` | crates/hsm-crypto-service/src/service.rs:380-390 | a wrong code in any of the four operations reports one try less and costs one try and one tick, nothing else |
| `TokenReplies.WrongIoKeyRefused` | crates/hsm-crypto-service/src/service.rs:1275-1316 | the right code with a wrong I/O key is refused, costs the same and replaces nothing |
| `TokenReplies.RightPinOpens` | crates/hsm-crypto-service/src/service.rs:392-404 | the right PIN with tries left is accepted: session open at the time of the call, 4 tries, the counter on the next count that is 1 modulo 5, nothing else changed |
| `TokenReplies.RightPinChanges` | crates/hsm-crypto-service/src/service.rs:485-527 | set_pin does the same and makes the new PIN the PIN |
| `TokenReplies.RightPukUnblocks` | crates/hsm-crypto-service/src/service.rs:418-468 | the right PUK sets the new PIN with 4 and 9 tries on counts that are 1 modulo 5 and 10, session as it was |
| `TokenReplies.RightPukChanges` | crates/hsm-crypto-service/src/service.rs:538-589 | in a session less than 30 000 ms idle the right PUK sets the new one with 9 tries and renews the session |
| `TokenReplies.ActiveSessionSigns` | crates/hsm-crypto-service/src/service.rs:949-986 | in such a session a slot with a key signs the digest given with that key and renews the session; a slot without one is refused |
| `TokenReplies.StatusTells` | crates/hsm-crypto-service/src/service.rs:994-1010 | the status is the tries left on both codes, in order, and whether a session is less than 30 000 ms idle |
| `TokenReplies.ResetRebuilds` | crates/hsm-crypto-service/src/service.rs:654-695 | a permitted reset with the I/O key: the PUK drawn, PIN 0000, 4 and 9 tries one tick further, a new key in slots 0, 1, 2, 3, 4 and 7 and in no other, nothing else changed |
| `Dispatch.TokenKeepsCodes` | crates/hsm-crypto-service/src/service.rs:362-695 | the abstract token changes a code only for a call with the right code, or a reset that found both batches exhausted, and the I/O key |
| `Dispatch.Perform` | crates/hsm-firmware/src/tasks.rs:123-215 | each request is routed to its operation, with timing, session, chip rest, token reply and code integrity guaranteed |
| `Dispatch.PinHasAuthor` | crates/hsm-crypto-service/src/service.rs:418-527 | along any history that upholds the code rules, a PIN other than the first was last set by a call entitled to, and has stayed since |
| `Dispatch.PukHasAuthor` | crates/hsm-crypto-service/src/service.rs:538-695 | the same for the PUK: set_puk with the right PUK, or a reset that found both batches exhausted |
| `Dispatch.Dispatcher.Serve` | crates/hsm-firmware/src/tasks.rs:76-115 | one more call: history, session, chip record and, when nothing is lost, the token stay in step; a success leaves the chip resting |
| `Dispatch.Dispatcher.Run` | crates/hsm-firmware/src/tasks.rs:76-115 | any sequence of requests is answered one by one with that invariant at the end |
| `Guarantees.EveryRunBoundsGuessing` | crates/hsm-crypto-service/src/service.rs:371-398 | for every run of the dispatcher and any faults: between two passes of a counter from 5k to 5k+1 (10k to 10k+1) at most 5 PINs (10 PUKs) are tested, so no more than that are wrong, whatever matched or was refused meanwhile |
| `Guarantees.EveryRunGuardsExhaustion` | crates/hsm-crypto-service/src/service.rs:1205-1256 | for every run, an exhausted counter moves on only by an entitled increment, and the log accounts for the counters |
| `Guarantees.EverySignatureHasChain` | crates/hsm-crypto-service/src/service.rs:956-984 | for every run, behind each signature the chip made, acknowledged or not, stands a session chain whose first call has a PIN match in the chip's own log |
| `Guarantees.EverySignatureWasAsked` | crates/hsm-crypto-service/src/service.rs:949-986 | for every run, the chip signs no more often than asked and nothing but slots and digests that were asked for |
| `Guarantees.EveryFrameFollowsWake` | crates/atecc608b/src/driver.rs:149-207 | for every run, each frame follows a confirmed wake with no token in between |
| `Guarantees.EveryTokenHasAChip` | crates/hsm-crypto-service/src/slots.rs:54-73 | every well-formed token can be provisioned, so the refinement is not vacuous |
| `Guarantees.EveryRunAuthenticates` | crates/hsm-crypto-service/src/service.rs:362-695 | for every run of a provisioned chip, whatever is lost: sessions open only on the PIN that is current at that call, and codes change only for calls with the right code, or a reset that found both batches exhausted, and the I/O key; needs no collision on the messages compared in that run |
| `Guarantees.EveryPinHasAuthor` | crates/hsm-crypto-service/src/service.rs:418-695 | for every such run, a PIN other than the provisioned one has a call entitled to set it, and has been the PIN since |
| `Guarantees.EveryPukHasAuthor` | crates/hsm-crypto-service/src/service.rs:538-695 | the same for the PUK |
| `Guarantees.SpentInEveryRun` | crates/hsm-crypto-service/src/service.rs:648-652 | in every run, a call recorded as having found a batch exhausted read, by the chip's own log, the counter's value at a multiple of the batch |
| `Guarantees.EveryRunIsTheToken` | crates/hsm-crypto-service/src/service.rs:362-723 | on a provisioned chip with a clean bus and no collision on the messages compared in the run, every reply of every run is the token's |
| `Guarantees.ChangedPinInEveryRun` | crates/hsm-crypto-service/src/service.rs:485-527 | in such a run, a PIN verified right after a successful change is accepted if and only if it is the new one and the counter is below its ceiling |
| `Guarantees.SignedInEveryRun` | crates/hsm-crypto-service/src/service.rs:949-986 | in such a run a sign request on a slot with a key is answered by a signature of its digest if the session, read off the history, is less than 30 000 ms idle, and by PinRequired otherwise |
| `Debounce.Debouncer.Sample` | crates/hsm-firmware-logic/src/io.rs:122-151 | one sample is one step of the value machine, reported exactly when it commits |
| `Debounce.RunRefinesWindows` | crates/hsm-firmware-logic/src/io.rs:107-151 | for every sample sequence the registers are the trailing run against the settled level of the five-sample window definition, and 5 samples are spent per report |
| `Debounce.SampleReportsExactly` | crates/hsm-firmware-logic/src/io.rs:122-151 | a report happens if and only if the last five samples all differ from the settled level, reports alternate, and n samples give at most n/5 |
| `TokenState.StatesExactly` | crates/hsm-firmware-logic/src/state_machine.rs:154-186 | each of the six states holds if and only if the events alone call for it: not yet booted, an error on display, up with no session, in session, in session with an uninterrupted request, or with the touch that ended one; a session runs from a PIN verified while up until an error, or a session end outside a signature |
| `TokenState.SigningTrace` | crates/hsm-firmware-logic/src/state_machine.rs:154-186 | any run into Signing contains PIN, request and touch in order with no cancelling event in between |
| `StateTask.Task.DeriveTimerEvent` | crates/hsm-firmware/src/state.rs:137-163 | the expired deadline is cleared and named, session first |
| `StateTask.Task.UpdateTimers` | crates/hsm-firmware/src/state.rs:171-216 | afterwards each deadline is armed exactly in its states |
| `StateTask.Task.Iterate` | crates/hsm-firmware/src/state.rs:64-112 | one loop iteration is one step of the value machine; the touch signal is pulsed exactly on entering Signing |
| `StateTask.TimerFallbackIsIdle` | crates/hsm-firmware/src/state.rs:137-163 | both deadlines are never armed together, and an expiry that matches none happens only in Booting or Idle, where it changes nothing |
| `StateTask.SessionDeadline` | crates/hsm-firmware/src/state.rs:171-205 | an armed session deadline is 30 000 ms after the last event that refreshes it |
| `StateTask.ErrorDeadline` | crates/hsm-firmware/src/state.rs:207-216 | an armed error deadline is 5 000 ms after the error was entered |
| `StateTask.EarliestExactly` | crates/hsm-firmware/src/state.rs:118-130 | the task sleeps until the earlier armed deadline, or an hour when none is |
| `TouchToSign.StepKeepsInvariant` | crates/hsm-firmware/src/state.rs:94-108 | each step of sampler, state task, dispatch loop or clock keeps the pipeline of presses strictly increasing and every pulse traced to its touch |
| `TouchToSign.EveryRunKeepsInvariant` | crates/hsm-firmware/src/channels.rs:76-81 | the invariant holds after every interleaving, queue drops included |
| `TouchToSign.OnePressOneSignature` | crates/hsm-firmware/src/tasks.rs:301-329 | any two signatures are backed by two distinct presses, each before its signature, with a debounced release between them |
| `TouchToSign.SignaturesNeverOutnumberPresses` | crates/hsm-firmware/src/touch.rs:75-93 | signatures never exceed debounced presses |
| `TouchToSign.EverySignatureWasRequested` | crates/hsm-firmware/src/tasks.rs:301-329 | every signature follows a verified PIN, a sign request and a touch the state task consumed, uncancelled |
| `TouchToSign.TimersInEveryRun` | crates/hsm-firmware/src/state.rs:53-216 | the timer invariant in every reachable state of the composition |
| `TouchToSign.ASignatureIsReachable` | crates/hsm-firmware/src/tasks.rs:301-329 | a run that ends in a signature exists |
| `TouchLaws.TwoSignaturesOnePin` | crates/hsm-firmware/src/tasks.rs:301-338 | a run with two signatures and one PIN entered exists: a session is not over after its first signature |
| `TouchLaws.PostsArrive` | crates/hsm-firmware/src/tasks.rs:301-313 | what the dispatch loop posts moves the state task on: boot to idle, PIN to authenticated, request to waiting |
| `TouchLaws.TimeoutArrives` | crates/hsm-firmware/src/tasks.rs:313-319 | a touch wait that times out leaves the token authenticated |
| `TouchLaws.ReturnArrives` | crates/hsm-firmware/src/tasks.rs:321-338 | a completed signature leaves it authenticated, a failed one in error |
| `TouchLaws.TimerArrives` | crates/hsm-firmware/src/state.rs:64-112 | in every reachable state with an empty queue an expired deadline ends a session or an error display, during a signature starts another 30 000 ms, and an unexpired one does nothing |
| `TouchLaws.QueueHoldsSixteen` | crates/hsm-firmware/src/channels.rs:53-81 | sixteen events are held and the next is dropped |
| `TouchLaws.RequestWaits` | crates/hsm-firmware/src/tasks.rs:301-313 | a request in session waits 30 000 ms and discards an earlier confirmation; without a session it does nothing |
| `TouchLaws.WaitEndsExactly` | crates/hsm-firmware/src/tasks.rs:313-319 | a confirmation ends the wait if and only if it is there before the deadline, the timeout if and only if the deadline is reached |
| `TouchToSign.TouchMayPrecedeRequest` | crates/hsm-firmware/src/tasks.rs:301-329 | a concrete interleaving in which a press left over from a timed-out request authorises the next one |
| `TouchLaws.TouchFollowsRequestExactly` | crates/hsm-firmware/src/tasks.rs:301-329 | from a request on, every later signature in every interleaving is backed by a press after the request, if and only if folding the queue from the task's state does not take a queued press for a confirmation |
| `TouchLaws.PendingSigns` | crates/hsm-firmware/src/tasks.rs:301-329 | and when it does, one such press signs without another sample of the button |
| `TouchLaws.NoQueuedPress` | crates/hsm-firmware/src/channels.rs:76-81 | a queue without presses meets the condition |
| `TouchLaws.StuckInEveryRun` | crates/hsm-firmware-logic/src/state_machine.rs:154-186 | once in Signing with no ending queued, no signature under way and no confirmation awaited, the token stays there and signs nothing more, in every run |
| `TouchLaws.SigningEndsExactly` | crates/hsm-firmware/src/tasks.rs:313-336 | Signing is left in some run if and only if it is not stuck so |
| `TouchLaws.StuckIsReachable` | crates/hsm-firmware/src/tasks.rs:313-319 | a press taken after the touch wait has timed out gets there |
| `SignedTouches.EveryMoveInStep` | crates/hsm-firmware/src/tasks.rs:272-338 | in every joint run of firmware tasks and service calls, the chip's signatures are those of the calls, one still on its way back aside |
| `SignedTouches.EverySignatureHasChainAndPress` | crates/hsm-firmware/src/tasks.rs:294-338 | in every joint run, each signature has both a session chain back to a confirmed PIN and a press of its own, later than those of all signatures before |
| `Crc.Crc16` | crates/atecc608b/src/crc.rs:41-64 | the two loops compute the register's value after all bits of the message, for every length; ChecksumIsTheRemainder says which word that is |
| `Crc.ChecksumIsTheRemainder` | crates/atecc608b/src/crc.rs:41-64 | a word is the checksum of a message if and only if it is the remainder of message times x^16 by x^16 + x^15 + x^2 + 1 over GF(2) |
| `Crc.BitsAt` | crates/atecc608b/src/crc.rs:47-52 | the message's bits are those of its bytes in order, lowest bit first |
| `Crc.VerifyTrailingCrc` | crates/atecc608b/src/crc.rs:81-93 | true exactly for frames of at least three bytes that end with their body's checksum, low byte first |
| `Crc.ChecksumLinear` | crates/atecc608b/src/crc.rs:41-64 | on messages of one length the checksum is additive over exclusive or |
| `Crc.UndetectedExactly` | crates/atecc608b/src/crc.rs:81-93 | an error goes unnoticed if and only if its trailer part is the checksum of its body part |
| `Crc.ChecksumParity` | crates/atecc608b/src/crc.rs:41-64 | the checksum has the parity of the message |
| `Crc.OddErrorsDetected` | crates/atecc608b/src/crc.rs:81-93 | any odd number of flipped bits in body and trailer is rejected |
| `Crc.BurstsDetected` | crates/atecc608b/src/crc.rs:81-93 | any non-zero error within 16 consecutive body bits is rejected |
| `Packet.BuildCommandFrame` | crates/atecc608b/src/packet.rs:115-166 | writes exactly the command's frame at its place, or reports which limit failed and writes nothing |
| `Packet.CommandRoundTrip` | crates/atecc608b/src/packet.rs:115-166 | a chip-side decoder recovers opcode, parameters and data of every command up to 155 data bytes |
| `Packet.CommandSound` | crates/atecc608b/src/packet.rs:115-166 | whatever decodes is the frame of the command it decodes to |
| `Packet.ResponseRoundTrip` | crates/atecc608b/src/packet.rs:192-224 | parsing an encoded answer gives back its payload, one byte giving a status |
| `Packet.ResponseSound` | crates/atecc608b/src/packet.rs:192-224 | whatever parses is the encoding of what it parses to |
| `MessageLayouts.CommandLayout` | crates/atecc608b/src/packet.rs:115-166 | every byte of a command on the wire at its offset, counts and words as numbers |
| `MessageLayouts.ResponseLayout` | crates/atecc608b/src/packet.rs:192-224 | the same for an answer |
| `MessageLayouts.ParseErrorsExactly` | crates/atecc608b/src/packet.rs:192-224 | each parse error comes if and only if its own fault is the first: under four bytes, a wrong count, a wrong trailer |
| `Errors.StatusBytes` | crates/atecc608b/src/error.rs:245-260 | each status byte's error, and Unknown for every other |
| `Driver.PollForResponse` | crates/atecc608b/src/driver.rs:410-447 | times out if and only if all 1251 count-byte reads are refused, after 2500 ms; otherwise the first answer decides the result |
| `Driver.RunCommand` | crates/atecc608b/src/driver.rs:372-399 | one frame that decodes to the command is sent, or nothing when the data is too long |
| `Driver.ExecuteCommand` | crates/atecc608b/src/driver.rs:267-312 | returns only payloads the chip delivered in a valid frame, and whatever whole frame the chip delivers decides the result |
| `Driver.ExecuteCommandStatus` | crates/atecc608b/src/driver.rs:322-361 | the same for status-only commands; success means a zero status was delivered |
| `Driver.DeliveredPayload` | crates/atecc608b/src/driver.rs:267-361 | every 2 to 152 byte payload arrives verbatim and one byte becomes its status outcome |
| `Driver.PollOutcomeExactly` | crates/atecc608b/src/driver.rs:410-447 | once the count byte is read, the answer is malformed if and only if it announces under four bytes or more than the buffer holds; otherwise its length, or a bus error when the rest is refused |
| `Driver.DamagedFrames` | crates/atecc608b/src/driver.rs:267-361 | a short frame or wrong count is malformed, a wrong trailer a CRC error, and a status-only command takes four bytes and nothing else |
| `CounterEncoding.DecodeEncode` | tools/config-generator/src/counter_encoding.rs:88-119 | reading the stored cell gives min(v, 2^21 - 1) for every v |
| `CounterEncoding.StepClearsOneBit` | tools/config-generator/src/counter_encoding.rs:88-119 | counting up clears exactly one bit of one unary half while the other half stays or refills with its binary half incremented |
| `CounterEncoding.StorageUnary` | tools/config-generator/src/counter_encoding.rs:88-119 | bit by bit, what the two unary words hold for every count, high byte first |
| `CounterEncoding.StorageBinary` | tools/config-generator/src/counter_encoding.rs:88-119 | the two binary words as numbers for every count, high byte first |
| `CounterEncoding.CeilingIs21Bits` | tools/config-generator/src/counter_encoding.rs:64-64 | the ceiling is 2^21 - 1 |
| `ConfigZone.AddressNamesWord` | crates/atecc608b/src/command/read_write.rs:131-136 | the chip reads back from an address the word it was built for |
| `ConfigZone.AddressNumber` | crates/atecc608b/src/command/read_write.rs:131-136 | as a number the address is 8 times the block in two bits plus the word offset in three |
| `ConfigZone.TablesMatchChip` | crates/hsm-crypto-service/src/service.rs:1331-1365 | one transfer exactly for blocks without a protected word; otherwise the table lists exactly the unprotected words, ascending |
| `ConfigZone.TabledWordsWriteBlock` | crates/hsm-crypto-service/src/service.rs:319-345 | writing the tabled words is writing the block, protected bytes aside |
| `ConfigZone.AllBlocksMerge` | crates/hsm-crypto-service/src/service.rs:268-303 | blocks 0 to 3 of any blob over any zone give the blob at 16..84 and 88..128 and leave 0..16 and 84..88 |
| `ConfigZone.ConfigService.ReadConfigZone` | crates/atecc608b/src/command/read_write.rs:261-275 | four block reads into a buffer give the zone |
| `ConfigZone.ConfigService.CachedSerial` | crates/hsm-crypto-service/src/service.rs:1114-1135 | the cached serial is always what a fresh read would give |
| `ConfigZone.ConfigService.WriteConfigBlock` | crates/hsm-crypto-service/src/service.rs:308-348 | on an unlocked chip no issued write is refused; success writes the block, any failure only part of it, protected bytes never; the cache stays true |
| `ConfigZone.ConfigService.WriteAllBlocks` | crates/hsm-crypto-service/src/service.rs:308-348 | after blocks 0 to 3 the zone is the merge of old zone and blob |

## Left out

- SHA-256, ECDSA and the chip's random number generator: abstract; a signature stands for slot, key generation and digest.
- USB frames, payload splitters, status bytes and the remaining request handlers: fixed-size slicing and finite tables that would only add easy members.
- Provisioning writes, locking, public key and slot reads: runs start from a provisioned, data-locked chip.
- LED patterns, the animation task, hardware abstraction and start-up code.
- The host tools and the configuration blob's constants, apart from the counter encoding.
- Scheduling and liveness of the executor: time is a counter that does not go back and tasks take steps in any order.
- Agreement between the displayed state and the service session: not claimed, as the code does not establish it.
- Dispatch.Perform: routes a sign request without its touch wait, which `SignedTouches` adds, and leaves out the requests that neither test codes, change them, make keys nor sign.
- The chip's watchdog: a channel that stays open too long is covered only as a lost command.
- `AteccChannel::close_to_sleep` and `refresh`: the modelled service does not use them.
- Dispatch.Dispatcher.Run: requests arrive as a sequence; the endless loop and its USB reads and writes are not modelled.
- Driver.PollForResponse: time is counted in requested delays, not measured.
- CryptoService.CryptoService.CachedSerial: the four exchanges carry no block contents; those are in `ConfigZone`.
- Credentials.PukDigits: says nothing of the small bias of the modulo.
