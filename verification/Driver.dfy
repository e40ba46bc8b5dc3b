/** The command round trip of an open channel: send a frame, poll for the answer, interpret it. */
module Driver {
  import opened Bytes
  import opened Errors
  import opened Crc
  import opened Packet

  const POLLING_PERIOD_MS: nat := 2
  const POLLING_MAX_MS: nat := 2500
  const MAX_PACKET_SIZE: nat := 163
  const MAX_RESPONSE_SIZE: nat := 155
  const STATUS_RESPONSE_LEN: nat := 4
  const MAX_POLLS: nat := 1251

  /** The bus: the k-th read either is refused or fills the buffer; the k-th write may not be acknowledged. */
  class Bus {
    const answer: (nat, nat) -> Option<seq<byte>>
    const acknowledged: nat -> bool
    var readsDone: nat
    var sent: seq<seq<byte>>
    var waitedMs: nat

    constructor (answer: (nat, nat) -> Option<seq<byte>>, acknowledged: nat -> bool)
      requires forall k: nat, n: nat :: answer(k, n).Some? ==> |answer(k, n).value| == n
      ensures this.answer == answer && this.acknowledged == acknowledged
      ensures FillsBuffers() && readsDone == 0 && sent == [] && waitedMs == 0
    {
      this.answer := answer;
      this.acknowledged := acknowledged;
      readsDone, sent, waitedMs := 0, [], 0;
    }

    ghost predicate FillsBuffers() {
      forall k: nat, n: nat :: answer(k, n).Some? ==> |answer(k, n).value| == n
    }

    method Read(n: nat) returns (r: Option<seq<byte>>)
      requires FillsBuffers()
      modifies this`readsDone
      ensures r == answer(old(readsDone), n) && readsDone == old(readsDone) + 1
      ensures r.Some? ==> |r.value| == n
    {
      r := answer(readsDone, n);
      readsDone := readsDone + 1;
    }

    method Write(data: seq<byte>) returns (ok: bool)
      modifies this`sent
      ensures ok == acknowledged(|old(sent)|) && sent == old(sent) + [data]
    {
      ok := acknowledged(|sent|);
      sent := sent + [data];
    }

    method DelayMs(ms: nat)
      modifies this`waitedMs
      ensures waitedMs == old(waitedMs) + ms
    {
      waitedMs := waitedMs + ms;
    }

    /** The `k` count-byte reads from read number `from` on are all refused. */
    ghost predicate Busy(from: nat, k: nat) {
      forall i :: from <= i < from + k ==> answer(i, 1) == None
    }

    /** The chip refuses `k` polls and then hands out `frame`. */
    ghost predicate Delivers(from: nat, k: nat, frame: seq<byte>) {
      && k < 1251 && Busy(from, k) && frame != []
      && answer(from + k, 1) == Some([frame[0]])
      && answer(from + k + 1, |frame| - 1) == Some(frame[1..])
    }
  }

  /** How many polls the chip refuses before it answers, at most `MAX_POLLS`. */
  ghost predicate AnswersAfter(bus: Bus, from: nat, polls: nat) {
    && polls <= 1251
    && bus.Busy(from, polls)
    && (polls < 1251 ==> bus.answer(from + polls, 1).Some?)
  }

  /** That number is unique, so a contract that names it is a contract for every chip. */
  lemma AnswersOnce(bus: Bus, from: nat, p: nat, q: nat)
    requires AnswersAfter(bus, from, p) && AnswersAfter(bus, from, q)
    ensures p == q
  {
  }

  function Least(a: nat, b: nat): nat {
    if a < b then a else b
  }

  /** What a poll that is answered after `polls` refusals reports. */
  ghost function PollOutcome(bus: Bus, from: nat, polls: nat, capacity: nat): Result<nat, AteccError>
    requires bus.FillsBuffers() && bus.answer(from + polls, 1).Some?
  {
    RestOutcome(bus, from + polls + 1, Count(bus.answer(from + polls, 1).value[0]), capacity)
  }

  ghost function RestOutcome(bus: Bus, at: nat, total: nat, capacity: nat): Result<nat, AteccError> {
    if total < 4 || total > capacity then Err(MalformedResponse)
    else if bus.answer(at, total - 1).None? then Err(AteccError.Hal)
    else Ok(total)
  }

  /** An answered poll gives the announced length, unless that is under four or over the capacity, or the rest is refused. */
  lemma PollOutcomeExactly(bus: Bus, from: nat, polls: nat, capacity: nat)
    requires bus.FillsBuffers() && bus.answer(from + polls, 1).Some?
    ensures var r, n := PollOutcome(bus, from, polls, capacity), Count(bus.answer(from + polls, 1).value[0]);
            && (n < 4 || n > capacity ==> r == Err(MalformedResponse))
            && (4 <= n <= capacity ==> r == if bus.answer(from + polls + 1, n - 1).None? then Err(AteccError.Hal) else Ok(n))
  {
  }

  /** The rest of an answer whose count byte announces `total` bytes. */
  method ReadRest(bus: Bus, buf: array<byte>, count: byte, total: nat, ghost from: nat, ghost polls: nat) returns (r: Result<nat, AteccError>)
    requires bus.FillsBuffers() && polls < MAX_POLLS
    requires bus.readsDone == from + polls + 1 && bus.Busy(from, polls) && bus.answer(from + polls, 1) == Some([count])
    modifies bus`readsDone, buf
    ensures bus.readsDone <= from + MAX_POLLS + 1
    ensures r == RestOutcome(bus, from + polls + 1, total, Least(buf.Length, MAX_RESPONSE_SIZE))
    ensures r.Ok? ==> bus.Delivers(from, polls, buf[..r.value])
  {
    if total < 4 || total > Least(buf.Length, MAX_RESPONSE_SIZE) {
      return Err(MalformedResponse);
    }
    var rest := bus.Read(total - 1);
    if rest.None? {
      return Err(AteccError.Hal);
    }
    CopyFromSlice(buf, 0, [count]);
    CopyFromSlice(buf, 1, rest.value);
    ghost var frame := [count] + rest.value;
    SplicedTwice(old(buf[..]), 0, [count], rest.value);
    SplicedSlice(old(buf[..]), 0, frame);
    assert buf[..total] == buf[..][0..total] == frame;
    assert frame[1..] == rest.value;
    r := Ok(total);
  }

  /** Poll until the chip answers or the window closes. */
  method PollForResponse(bus: Bus, buf: array<byte>) returns (r: Result<nat, AteccError>, ghost polls: nat)
    requires bus.FillsBuffers()
    modifies bus`readsDone, bus`waitedMs, buf
    ensures AnswersAfter(bus, old(bus.readsDone), polls)
    ensures r == Err(Timeout) <==> polls == 1251
    ensures bus.waitedMs == old(bus.waitedMs) + 2 * Least(polls, 1250)
    ensures bus.readsDone <= old(bus.readsDone) + 1252
    ensures polls == 1251 ==> bus.readsDone == old(bus.readsDone) + 1251 && bus.waitedMs == old(bus.waitedMs) + 2500
    ensures polls < 1251 ==> r == PollOutcome(bus, old(bus.readsDone), polls, Least(buf.Length, 155))
    ensures r.Ok? ==> 4 <= r.value <= Least(buf.Length, 155) &&
                      bus.Delivers(old(bus.readsDone), polls, buf[..r.value])
  {
    var elapsed := 0;
    polls := 0;
    ghost var from := bus.readsDone;
    while true
      invariant elapsed == polls * POLLING_PERIOD_MS <= POLLING_MAX_MS
      invariant bus.readsDone == from + polls && bus.waitedMs == old(bus.waitedMs) + elapsed
      invariant bus.Busy(from, polls)
      decreases POLLING_MAX_MS - elapsed
    {
      var count := bus.Read(1);
      if count.Some? {
        assert count.value == [count.value[0]];
        r := ReadRest(bus, buf, count.value[0], Count(count.value[0]), from, polls);
        return;
      }
      if elapsed >= POLLING_MAX_MS {
        polls := polls + 1;
        return Err(Timeout), polls;
      }
      bus.DelayMs(POLLING_PERIOD_MS);
      elapsed := elapsed + POLLING_PERIOD_MS;
      polls := polls + 1;
    }
  }

  /** Send one command frame and collect the raw answer. */
  method RunCommand(bus: Bus, c: Command, execMs: nat, buf: array<byte>) returns (r: Result<nat, AteccError>, ghost polls: nat)
    requires bus.FillsBuffers()
    modifies bus`readsDone, bus`waitedMs, bus`sent, buf
    ensures |c.data| > 155 ==> r == Err(BufferTooSmall) && bus.sent == old(bus.sent)
    ensures |c.data| <= 155 ==>
              |bus.sent| == |old(bus.sent)| + 1 && bus.sent[..|old(bus.sent)|] == old(bus.sent) &&
              DecodeCommand(bus.sent[|old(bus.sent)|]) == Some(c)
    ensures |c.data| <= 155 && !bus.acknowledged(|old(bus.sent)|) ==> r == Err(AteccError.Hal)
    ensures |c.data| <= 155 && bus.acknowledged(|old(bus.sent)|) ==>
              AnswersAfter(bus, old(bus.readsDone), polls)
    ensures r.Ok? ==> 4 <= r.value <= Least(buf.Length, 155) &&
                      bus.Delivers(old(bus.readsDone), polls, buf[..r.value])
    ensures |c.data| <= 155 && bus.acknowledged(|old(bus.sent)|) && polls < 1251 ==>
              r == PollOutcome(bus, old(bus.readsDone), polls, Least(buf.Length, 155))
    ensures |c.data| <= 155 && bus.acknowledged(|old(bus.sent)|) ==>
              bus.waitedMs == old(bus.waitedMs) + execMs + 2 * Least(polls, 1250) && (r == Err(Timeout) <==> polls == 1251)
  {
    polls := 0;
    var tx := new byte[MAX_PACKET_SIZE];
    tx[0] := 0x03;
    var built := BuildCommandFrame(c, tx, 1);
    if built.Err? {
      return Err(BufferTooSmall), 0;
    }
    CommandRoundTrip(c);
    var wire := tx[..][..1 + built.value];
    assert wire == [0x03] + CommandFrame(c);
    var ok := bus.Write(wire);
    if !ok {
      return Err(AteccError.Hal), 0;
    }
    bus.DelayMs(execMs);
    r, polls := PollForResponse(bus, buf);
  }

  function MapParseError(e: ParseError): AteccError {
    match e
    case TooShort => MalformedResponse
    case LengthMismatch(_, _) => MalformedResponse
    case BadCrc => AteccError.BadCrc
  }

  /** What a data-returning command reports for a complete answer frame. */
  function DataOutcome(frame: seq<byte>): Result<seq<byte>, AteccError> {
    match ParseResponseFrame(frame)
    case Err(e) => Err(MapParseError(e))
    case Ok(Payload(p)) => Ok(p)
    case Ok(Status(s)) =>
      match FromStatusByte(s)
      case Some(e) => Err(Chip(e))
      case None => Err(MalformedResponse)
  }

  /** What a status-only command reports for a complete answer frame. */
  function StatusOutcome(frame: seq<byte>): Result<(), AteccError> {
    if |frame| != STATUS_RESPONSE_LEN then Err(MalformedResponse)
    else
      match ParseResponseFrame(frame)
      case Err(e) => Err(MapParseError(e))
      case Ok(Status(s)) => (match FromStatusByte(s) case None => Ok(()) case Some(e) => Err(Chip(e)))
      case Ok(Payload(_)) => Err(MalformedResponse)
  }

  /** The chip delivers a complete, correctly counted frame that fits `capacity`. */
  ghost predicate DeliversWhole(bus: Bus, from: nat, k: nat, frame: seq<byte>, capacity: nat) {
    && bus.Delivers(from, k, frame)
    && 4 <= |frame| <= capacity && Count(frame[0]) == |frame|
  }

  lemma WholeFrameArrives(bus: Bus, from: nat, k: nat, frame: seq<byte>, capacity: nat, polls: nat, run: Result<nat, AteccError>)
    requires bus.FillsBuffers() && DeliversWhole(bus, from, k, frame, capacity)
    requires AnswersAfter(bus, from, polls)
    requires polls < MAX_POLLS ==> run == PollOutcome(bus, from, polls, capacity)
    ensures polls == k && run == Ok(|frame|)
  {
    AnswersOnce(bus, from, k, polls);
  }

  lemma SameFrame(bus: Bus, from: nat, k: nat, f: seq<byte>, g: seq<byte>)
    requires bus.Delivers(from, k, f) && bus.Delivers(from, k, g) && |f| == |g|
    ensures f == g
  {
    assert f == [f[0]] + f[1..] && g == [g[0]] + g[1..];
    assert [f[0]][0] == [g[0]][0];
  }

  lemma DataOutcomeSound(frame: seq<byte>)
    requires DataOutcome(frame).Ok? && |frame| <= MAX_RESPONSE_SIZE
    ensures var p := DataOutcome(frame).value; 2 <= |p| <= 152 && frame == EncodeResponse(p)
  {
    ResponseSound(frame);
  }

  /** Execute a data-returning command. Whatever is returned was delivered by the chip, and whatever
      whole frame the chip delivers decides what is returned. */
  method ExecuteCommand(bus: Bus, c: Command, execMs: nat, buf: array<byte>) returns (r: Result<seq<byte>, AteccError>, ghost polls: nat)
    requires bus.FillsBuffers()
    modifies bus`readsDone, bus`waitedMs, bus`sent, buf
    ensures |c.data| > 155 ==> r == Err(BufferTooSmall) && bus.sent == old(bus.sent)
    ensures |c.data| <= 155 ==>
              |bus.sent| == |old(bus.sent)| + 1 && DecodeCommand(bus.sent[|old(bus.sent)|]) == Some(c)
    ensures r.Ok? ==> 2 <= |r.value| <= 152 && bus.Delivers(old(bus.readsDone), polls, EncodeResponse(r.value))
    ensures |c.data| <= 155 && bus.acknowledged(|old(bus.sent)|) ==>
              forall k, frame :: DeliversWhole(bus, old(bus.readsDone), k, frame, Least(buf.Length, 155)) ==>
                r == DataOutcome(frame)
  {
    ghost var from, capacity := bus.readsDone, Least(buf.Length, MAX_RESPONSE_SIZE);
    ghost var sendable := |c.data| <= MAX_COMMAND_DATA_LEN && bus.acknowledged(|bus.sent|);
    var run, p := RunCommand(bus, c, execMs, buf);
    polls := p;
    r := if run.Err? then Err(run.error) else DataOutcome(buf[..run.value]);
    if r.Ok? {
      DataOutcomeSound(buf[..run.value]);
    }
    if sendable {
      forall k, frame | DeliversWhole(bus, from, k, frame, capacity)
        ensures r == DataOutcome(frame)
      {
        WholeFrameArrives(bus, from, k, frame, capacity, p, run);
        SameFrame(bus, from, k, frame, buf[..run.value]);
      }
    }
  }

  /** Execute a status-only command into the four-byte buffer it needs. */
  method ExecuteCommandStatus(bus: Bus, c: Command, execMs: nat) returns (r: Result<(), AteccError>, ghost polls: nat)
    requires bus.FillsBuffers()
    modifies bus`readsDone, bus`waitedMs, bus`sent
    ensures |c.data| > 155 ==> r == Err(BufferTooSmall) && bus.sent == old(bus.sent)
    ensures |c.data| <= 155 ==>
              |bus.sent| == |old(bus.sent)| + 1 && DecodeCommand(bus.sent[|old(bus.sent)|]) == Some(c)
    ensures r.Ok? ==> bus.Delivers(old(bus.readsDone), polls, EncodeResponse([0]))
    ensures |c.data| <= 155 && bus.acknowledged(|old(bus.sent)|) ==>
              forall k, frame :: DeliversWhole(bus, old(bus.readsDone), k, frame, 4) ==>
                r == StatusOutcome(frame)
  {
    var buf := new byte[STATUS_RESPONSE_LEN];
    ghost var from := bus.readsDone;
    ghost var sendable := |c.data| <= MAX_COMMAND_DATA_LEN && bus.acknowledged(|bus.sent|);
    var run, p := RunCommand(bus, c, execMs, buf);
    polls := p;
    r := if run.Err? then Err(run.error) else StatusOutcome(buf[..run.value]);
    if r.Ok? {
      ResponseSound(buf[..run.value]);
    }
    if sendable {
      forall k, frame | DeliversWhole(bus, from, k, frame, STATUS_RESPONSE_LEN)
        ensures r == StatusOutcome(frame)
      {
        WholeFrameArrives(bus, from, k, frame, STATUS_RESPONSE_LEN, p, run);
        SameFrame(bus, from, k, frame, buf[..run.value]);
      }
    }
  }

  /** Every payload a chip can send arrives verbatim; a single byte becomes its status outcome. */
  lemma DeliveredPayload(payload: seq<byte>)
    requires 1 <= |payload| <= 152
    ensures DataOutcome(EncodeResponse(payload)) ==
            if |payload| >= 2 then Ok(payload)
            else if payload[0] == 0 then Err(MalformedResponse)
            else Err(Chip(FromStatusByte(payload[0]).value))
    ensures StatusOutcome(EncodeResponse(payload)) ==
            if |payload| >= 2 then Err(MalformedResponse)
            else if payload[0] == 0 then Ok(())
            else Err(Chip(FromStatusByte(payload[0]).value))
    ensures Count(EncodeResponse(payload)[0]) == |EncodeResponse(payload)|
  {
    ResponseRoundTrip(payload);
  }

  /** A damaged frame is malformed when it is too short or its count is wrong, and a checksum error when only its trailer is;
      a status-only command takes four bytes and nothing else. */
  lemma DamagedFrames(frame: seq<byte>)
    ensures |frame| < 4 || Count(frame[0]) != |frame| ==>
              DataOutcome(frame) == Err(MalformedResponse) && StatusOutcome(frame) == Err(MalformedResponse)
    ensures |frame| >= 4 && Count(frame[0]) == |frame| && !ValidTrailer(frame) ==> DataOutcome(frame) == Err(AteccError.BadCrc)
    ensures |frame| == 4 && Count(frame[0]) == 4 && !ValidTrailer(frame) ==> StatusOutcome(frame) == Err(AteccError.BadCrc)
    ensures |frame| != 4 ==> StatusOutcome(frame) == Err(MalformedResponse)
  {
  }
}
