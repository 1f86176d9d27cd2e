/** How a call of the pipeline ends: a value, one of the error strings the
    source returns through `Err`, or one of the panics it can raise. */
module Errors {

  /** The kinds of `symphonia::core::errors::Error` the pipeline tells apart:
      I/O errors, the reset request, and every other error with the text its
      `Display` prints. */
  datatype SymphoniaError =
    | IoError(description: string)
    | ResetRequired
    | OtherError(description: string)

  /** The failures `read_sample` returns as `Err(String)`. */
  datatype Failure =
    | ProbeFailed(cause: SymphoniaError)
    | DecoderCreationFailed(cause: SymphoniaError)
    | ResetNotImplemented
    | PacketReadFailed(cause: SymphoniaError)
    | TooManyChannels
    | PacketDecodeFailed(cause: SymphoniaError)

  /** The panics of the core: `.expect` on a missing track, `.unwrap` on a
      missing sample rate, an integer division by a zero target, and
      `par_chunks(0)`. */
  datatype PanicReason =
    | NoSupportedTrack
    | MissingSampleRate
    | DivideByZero
    | ZeroChunkSize

  datatype Outcome<T> = Done(value: T) | Fail(failure: Failure) | Panic(reason: PanicReason)

  /** The text symphonia's `Display` gives an error (for the reset request,
      the collaborator's own wording). */
  function Describe(e: SymphoniaError): string {
    match e
    case IoError(description) => description
    case ResetRequired => "decoder needs to be reset"
    case OtherError(description) => description
  }

  /** The message string the source returns for each failure. */
  function Message(f: Failure): string {
    match f
    case ProbeFailed(e) => "Error while probing format: " + Describe(e)
    case DecoderCreationFailed(e) => "Error while creating decoder: " + Describe(e)
    case ResetNotImplemented => "Reset required, not implemented"
    case PacketReadFailed(e) => "Error reading packet: " + Describe(e)
    case TooManyChannels => "More than two channels not supported"
    case PacketDecodeFailed(e) => "Error decoding packet: " + Describe(e)
  }
}
