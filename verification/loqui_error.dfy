/** The connection errors of rust/loqui_connection/src/error.rs and the close codes they are sent as. */
module LoquiErrors {
  import opened Bytes
  import R = RustCodec

  datatype LoquiError =
    | ConnectionCloseRequested
    | ToldToGoAway(goAway: R.LoquiFrame)
    | InvalidOpcode(actual: byte)
    | UnsupportedVersion(expected: byte, actual: byte)
    | NoCommonEncoding
    | InvalidEncoding
    | InvalidCompression
    | PingTimeout

  /** `LoquiErrorCode`, the code of the GoAway frame a closing server sends. */
  function Code(e: LoquiError): u16 {
    match e
    case ConnectionCloseRequested => 0
    case InvalidOpcode(_) => 1
    case UnsupportedVersion(_, _) => 2
    case NoCommonEncoding => 3
    case InvalidEncoding => 4
    case InvalidCompression => 5
    case PingTimeout => 6
    case ToldToGoAway(_) => 7
  }
}
