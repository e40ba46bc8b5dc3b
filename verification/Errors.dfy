/** Driver-level failures, with the chip's own status bytes. */
module Errors {
  import opened Bytes

  datatype ChipError =
    | CheckMacOrVerifyFailed
    | ParseError
    | EccFault
    | SelfTestFailed
    | HealthTestFailed
    | ExecutionError
    | WatchdogAboutToExpire
    | CommandCrcError
    | Unknown(status: byte)

  datatype AteccError =
    | Hal
    | WakeFailed
    | SelfTestFailure
    | BadCrc
    | Chip(reason: ChipError)
    | Timeout
    | MalformedResponse
    | BufferTooSmall

  /** The chip's status byte; zero means success. */
  function FromStatusByte(status: byte): (r: Option<ChipError>)
    ensures r.None? <==> status == 0
  {
    if status == 0x00 then None
    else if status == 0x01 then Some(CheckMacOrVerifyFailed)
    else if status == 0x03 then Some(ParseError)
    else if status == 0x05 then Some(EccFault)
    else if status == 0x07 then Some(SelfTestFailed)
    else if status == 0x08 then Some(HealthTestFailed)
    else if status == 0x0F then Some(ExecutionError)
    else if status == 0xEE then Some(WatchdogAboutToExpire)
    else if status == 0xFF then Some(CommandCrcError)
    else Some(Unknown(status))
  }

  /** Each status byte of the chip and the error it stands for. */
  lemma StatusBytes(status: byte)
    ensures FromStatusByte(0x00) == None && FromStatusByte(0x01) == Some(CheckMacOrVerifyFailed)
    ensures FromStatusByte(0x03) == Some(ParseError) && FromStatusByte(0x05) == Some(EccFault)
    ensures FromStatusByte(0x07) == Some(SelfTestFailed) && FromStatusByte(0x08) == Some(HealthTestFailed)
    ensures FromStatusByte(0x0F) == Some(ExecutionError) && FromStatusByte(0xEE) == Some(WatchdogAboutToExpire)
    ensures FromStatusByte(0xFF) == Some(CommandCrcError)
    ensures status !in {0x00, 0x01, 0x03, 0x05, 0x07, 0x08, 0x0F, 0xEE, 0xFF} ==> FromStatusByte(status) == Some(Unknown(status))
  {
  }
}
