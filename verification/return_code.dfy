/**
 * The XA return codes a resource manager reports on success (the `XA_*` values of the
 * X/Open XA specification), decoded from their C `int` values.
 */
module ReturnCodes {
  import opened LittleEndian

  datatype ReturnCode =
    | RollbackUnspecified
    | RollbackCommunicationFailure
    | RollbackDeadlock
    | RollbackIntegrity
    | RollbackOther
    | RollbackProtocol
    | RollbackTimeout
    | RollbackTransient
    | HeuristicallyCompleted
    | HeuristicallyCommitted
    | HeuristicallyRolledBack
    | HeuristicallyMessedUp
    | Retry
    | ReadOnlyCommitted
    | Ok
    | UnknownErrorCode(code: int32)
  {
    /** The XA value a variant stands for; `UnknownErrorCode` keeps the value it was read from. */
    function Code(): int32 {
      match this
      case RollbackUnspecified => 100
      case RollbackCommunicationFailure => 101
      case RollbackDeadlock => 102
      case RollbackIntegrity => 103
      case RollbackOther => 104
      case RollbackProtocol => 105
      case RollbackTimeout => 106
      case RollbackTransient => 107
      case HeuristicallyCompleted => 8
      case HeuristicallyCommitted => 7
      case HeuristicallyRolledBack => 6
      case HeuristicallyMessedUp => 5
      case Retry => 4
      case ReadOnlyCommitted => 3
      case Ok => 0
      case UnknownErrorCode(i) => i
    }
  }

  /** The values that have a named variant. */
  predicate IsKnownCode(i: int) {
    (100 <= i <= 107) || (3 <= i <= 8) || i == 0
  }

  /** `ReturnCode::from_i32` */
  function FromI32(i: int32): (r: ReturnCode)
    ensures r.Code() == i
    ensures r.UnknownErrorCode? <==> !IsKnownCode(i)
  {
    match i
    case 100 => RollbackUnspecified
    case 101 => RollbackCommunicationFailure
    case 102 => RollbackDeadlock
    case 103 => RollbackIntegrity
    case 104 => RollbackOther
    case 105 => RollbackProtocol
    case 106 => RollbackTimeout
    case 107 => RollbackTransient
    case 8 => HeuristicallyCompleted
    case 7 => HeuristicallyCommitted
    case 6 => HeuristicallyRolledBack
    case 5 => HeuristicallyMessedUp
    case 4 => Retry
    case 3 => ReadOnlyCommitted
    case 0 => Ok
    case _ => UnknownErrorCode(i)
  }

  /** Distinct C values never decode to the same variant. */
  lemma FromI32Injective(i: int32, j: int32)
    ensures FromI32(i) == FromI32(j) ==> i == j
  {
    assert FromI32(i).Code() == i && FromI32(j).Code() == j;
  }

  /** Every variant other than `UnknownErrorCode` is reached from its own XA value. */
  lemma FromI32OfCode(r: ReturnCode)
    requires !r.UnknownErrorCode? || !IsKnownCode(r.code)
    ensures FromI32(r.Code()) == r
  {
  }
}
