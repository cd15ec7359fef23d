/**
 * The XA error codes (the negative `XAER_*` values of the X/Open XA specification)
 * that the resource-manager error type carries.
 */
module ErrorCodes {
  import opened LittleEndian

  datatype ErrorCode =
    | RmError
    | InvalidTransactionId
    | InvalidArguments
    | ProtocolError
    | RmFailure
    | DuplicateTransactionId
    | UnknownErrorCode(code: int32)
  {
    /** The XA value a variant stands for; `UnknownErrorCode` keeps the value it was read from. */
    function Code(): int32 {
      match this
      case RmError => -3
      case InvalidTransactionId => -4
      case InvalidArguments => -5
      case ProtocolError => -6
      case RmFailure => -7
      case DuplicateTransactionId => -8
      case UnknownErrorCode(i) => i
    }
  }

  /** `ErrorCode::from_i32` */
  function FromI32(i: int32): (r: ErrorCode)
    ensures r.Code() == i
    ensures !r.UnknownErrorCode? <==> -8 <= i <= -3
  {
    match i
    case -3 => RmError
    case -4 => InvalidTransactionId
    case -5 => InvalidArguments
    case -6 => ProtocolError
    case -7 => RmFailure
    case -8 => DuplicateTransactionId
    case _ => UnknownErrorCode(i)
  }

  /** Distinct C values never decode to the same variant. */
  lemma FromI32Injective(i: int32, j: int32)
    ensures FromI32(i) == FromI32(j) ==> i == j
  {
    assert FromI32(i).Code() == i && FromI32(j).Code() == j;
  }
}
