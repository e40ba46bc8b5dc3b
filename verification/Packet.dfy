/** Command and response frames: what the driver writes, what the chip reads, and back. */
module Packet {
  import opened Bytes
  import opened Crc

  const MAX_COMMAND_DATA_LEN: nat := 155
  const COMMAND_FRAME_OVERHEAD: nat := 7

  datatype Command = Command(opcode: byte, param1: byte, param2: Word, data: seq<byte>)

  datatype BuildError =
    | DataTooLong(attempted: nat, max: nat)
    | OutputBufferTooSmall(required: nat, provided: nat)

  datatype Response = Payload(bytes: seq<byte>) | Status(status: byte)

  datatype ParseError = TooShort | LengthMismatch(declared: byte, actual: nat) | BadCrc

  // ---------------------------------------------------------------- frames as byte strings

  function WithTrailer(body: seq<byte>): seq<byte> {
    body + WordBytes(Checksum(body))
  }

  function CommandBody(c: Command): seq<byte>
    requires |c.data| <= MAX_COMMAND_DATA_LEN
  {
    [CountByte(COMMAND_FRAME_OVERHEAD + |c.data|), c.opcode, c.param1] + WordBytes(c.param2) + c.data
  }

  function CommandFrame(c: Command): (f: seq<byte>)
    requires |c.data| <= MAX_COMMAND_DATA_LEN
    ensures |f| == COMMAND_FRAME_OVERHEAD + |c.data|
  {
    WithTrailer(CommandBody(c))
  }

  /** What a chip makes of the bytes after its address: word address, count and checksum must all hold. */
  function DecodeCommand(wire: seq<byte>): Option<Command> {
    if |wire| < 8 || wire[0] != 0x03 then None
    else
      var frame := wire[1..];
      var n := |frame|;
      if Count(frame[0]) != n || !ValidTrailer(frame) then None
      else Some(Command(frame[1], frame[2], WordOf(frame[3], frame[4]), frame[5..n - 2]))
  }

  /** A chip's answer carrying `payload`. */
  function EncodeResponse(payload: seq<byte>): (f: seq<byte>)
    requires |payload| <= 252
    ensures |f| == |payload| + 3
  {
    WithTrailer([CountByte(|payload| + 3)] + payload)
  }

  function ParseResponseFrame(frame: seq<byte>): Result<Response, ParseError> {
    if |frame| < 4 then Err(TooShort)
    else if Count(frame[0]) != |frame| then Err(LengthMismatch(frame[0], |frame|))
    else if !ValidTrailer(frame) then Err(BadCrc)
    else if |frame| == 4 then Ok(Status(frame[1]))
    else Ok(Payload(frame[1..|frame| - 2]))
  }

  // ---------------------------------------------------------------- building in place

  /** `out` with the bytes from `at` on replaced by `s`. */
  function Spliced(out: seq<byte>, at: nat, s: seq<byte>): (r: seq<byte>)
    requires at + |s| <= |out|
    ensures |r| == |out|
  {
    out[..at] + s + out[at + |s|..]
  }

  lemma SplicedTwice(out: seq<byte>, at: nat, s: seq<byte>, t: seq<byte>)
    requires at + |s| + |t| <= |out|
    ensures Spliced(Spliced(out, at, s), at + |s|, t) == Spliced(out, at, s + t)
  {
  }

  method CopyFromSlice(out: array<byte>, at: nat, s: seq<byte>)
    requires at + |s| <= out.Length
    modifies out
    ensures out[..] == Spliced(old(out[..]), at, s)
  {
    forall i | 0 <= i < |s| {
      out[at + i] := s[i];
    }
  }

  lemma SplicedSlice(out: seq<byte>, at: nat, s: seq<byte>)
    requires at + |s| <= |out|
    ensures Spliced(out, at, s)[at..at + |s|] == s
  {
  }

  /** Count, opcode, parameters and data; everything the trailer covers. */
  method WriteBody(c: Command, out: array<byte>, from: nat)
    requires |c.data| <= MAX_COMMAND_DATA_LEN && from + 5 + |c.data| <= out.Length
    modifies out
    ensures out[..] == Spliced(old(out[..]), from, CommandBody(c))
  {
    var header := [CountByte(COMMAND_FRAME_OVERHEAD + |c.data|), c.opcode, c.param1] + WordBytes(c.param2);
    CopyFromSlice(out, from, header);
    CopyFromSlice(out, from + 5, c.data);
    SplicedTwice(old(out[..]), from, header, c.data);
  }

  method BuildCommandFrame(c: Command, out: array<byte>, from: nat) returns (r: Result<nat, BuildError>)
    requires from <= out.Length
    modifies out
    ensures |c.data| > 155 ==>
              r == Err(DataTooLong(|c.data|, 155)) && out[..] == old(out[..])
    ensures |c.data| <= 155 && out.Length - from < 7 + |c.data| ==>
              r == Err(OutputBufferTooSmall(7 + |c.data|, out.Length - from)) &&
              out[..] == old(out[..])
    ensures |c.data| <= 155 && 7 + |c.data| <= out.Length - from ==>
              r == Ok(7 + |c.data|) &&
              out[..] == Spliced(old(out[..]), from, CommandFrame(c))
  {
    if |c.data| > MAX_COMMAND_DATA_LEN {
      return Err(DataTooLong(|c.data|, MAX_COMMAND_DATA_LEN));
    }
    var total := COMMAND_FRAME_OVERHEAD + |c.data|;
    if out.Length - from < total {
      return Err(OutputBufferTooSmall(total, out.Length - from));
    }
    ghost var body := CommandBody(c);
    WriteBody(c, out, from);
    SplicedSlice(old(out[..]), from, body);
    var crc := Crc16(out[..][from..from + 5 + |c.data|]);
    CopyFromSlice(out, from + 5 + |c.data|, WordBytes(crc));
    SplicedTwice(old(out[..]), from, body, WordBytes(crc));
    r := Ok(total);
  }

  // ---------------------------------------------------------------- round trips

  lemma TrailerChecks(body: seq<byte>)
    requires body != []
    ensures ValidTrailer(WithTrailer(body))
    ensures WithTrailer(body)[..|body|] == body
  {
    WordRoundTrip(Checksum(body));
  }

  /** A frame with a valid trailer is its body followed by that body's checksum. */
  lemma TrailerDetermined(frame: seq<byte>)
    requires ValidTrailer(frame)
    ensures frame == WithTrailer(frame[..|frame| - 2])
  {
    var n := |frame| - 2;
    BytesRoundTrip(frame[n], frame[n + 1]);
    assert frame == frame[..n] + [frame[n], frame[n + 1]];
  }

  /** The chip recovers exactly the fields the driver sent. */
  lemma CommandRoundTrip(c: Command)
    requires |c.data| <= MAX_COMMAND_DATA_LEN
    ensures DecodeCommand([0x03] + CommandFrame(c)) == Some(c)
  {
    var body := CommandBody(c);
    var frame := CommandFrame(c);
    var wire := [0x03] + frame;
    assert wire[1..] == frame;
    TrailerChecks(body);
    CountOfByte(|frame|);
    assert frame[0] == body[0];
    BytesBack(c, body, frame);
  }

  lemma BytesBack(c: Command, body: seq<byte>, frame: seq<byte>)
    requires |c.data| <= MAX_COMMAND_DATA_LEN
    requires body == CommandBody(c) && frame == CommandFrame(c)
    ensures frame[1] == c.opcode && frame[2] == c.param1
    ensures WordOf(frame[3], frame[4]) == c.param2
    ensures frame[5..|frame| - 2] == c.data
  {
    WordRoundTrip(c.param2);
    assert frame[..|body|] == body;
    assert frame[3] == body[3] == WordBytes(c.param2)[0];
    assert frame[4] == body[4] == WordBytes(c.param2)[1];
    assert frame[5..|frame| - 2] == body[5..];
  }

  /** Nothing but the frame of `c` decodes to `c`: the encoding is one to one. */
  lemma CommandSound(wire: seq<byte>)
    requires |wire| <= 163 && DecodeCommand(wire).Some?
    ensures var c := DecodeCommand(wire).value;
            && |c.data| <= MAX_COMMAND_DATA_LEN
            && wire == [0x03] + CommandFrame(c)
  {
    var frame := wire[1..];
    var n := |frame|;
    var c := DecodeCommand(wire).value;
    TrailerDetermined(frame);
    BytesRoundTrip(frame[3], frame[4]);
    ByteOfCount(frame[0]);
    assert frame[..n - 2] == CommandBody(c);
  }

  /** Parsing a chip answer gives back its payload; one byte is a status. */
  lemma ResponseRoundTrip(payload: seq<byte>)
    requires 1 <= |payload| <= 252
    ensures ParseResponseFrame(EncodeResponse(payload)) ==
            if |payload| == 1 then Ok(Status(payload[0])) else Ok(Payload(payload))
  {
    var body := [CountByte(|payload| + 3)] + payload;
    var frame := EncodeResponse(payload);
    TrailerChecks(body);
    CountOfByte(|payload| + 3);
    assert frame[..|body|] == body;
    assert frame[0] == body[0] && frame[1] == body[1];
    assert frame[1..|frame| - 2] == payload;
  }

  /** Whatever parses is the encoding of what it parses to. */
  lemma ResponseSound(frame: seq<byte>)
    requires ParseResponseFrame(frame).Ok?
    ensures match ParseResponseFrame(frame).value
            case Payload(p) => 2 <= |p| <= 252 && frame == EncodeResponse(p)
            case Status(s) => frame == EncodeResponse([s])
  {
    var n := |frame|;
    TrailerDetermined(frame);
    ByteOfCount(frame[0]);
    var p := frame[1..n - 2];
    assert frame[..n - 2] == [frame[0]] + p;
    assert n == 4 ==> p == [frame[1]];
  }
}
