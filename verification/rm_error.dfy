/**
 * The error a resource manager reports: a kind (the XA rollback, heuristic and
 * `XAER_*` codes of the X/Open XA specification) and a free-text description.
 */
module RmErrors {
  import opened LittleEndian

  datatype Kind =
    | RollbackUnspecified
    | RollbackCommunicationFailure
    | RollbackDeadlock
    | RollbackIntegrity
    | RollbackOther
    | RollbackProtocol
    | RollbackTimeout
    | RollbackTransient
    | HeuristicallyCompleted
    | HeuristicallyCommitted
    | HeuristicallyRolledBack
    | HeuristicallyMessedUp
    | Retry
    | ReadOnlyCommitted
    | RmError
    | InvalidTransactionId
    | InvalidArguments
    | ProtocolError
    | RmFailure
    | DuplicateTransactionId
    | UnknownErrorCode(code: int32)
  {
    /** The XA value a variant stands for; `UnknownErrorCode` keeps the value it was read from. */
    function Code(): int32 {
      match this
      case RollbackUnspecified => 100
      case RollbackCommunicationFailure => 101
      case RollbackDeadlock => 102
      case RollbackIntegrity => 103
      case RollbackOther => 104
      case RollbackProtocol => 105
      case RollbackTimeout => 106
      case RollbackTransient => 107
      case HeuristicallyCompleted => 8
      case HeuristicallyCommitted => 7
      case HeuristicallyRolledBack => 6
      case HeuristicallyMessedUp => 5
      case Retry => 4
      case ReadOnlyCommitted => 3
      case RmError => -3
      case InvalidTransactionId => -4
      case InvalidArguments => -5
      case ProtocolError => -6
      case RmFailure => -7
      case DuplicateTransactionId => -8
      case UnknownErrorCode(i) => i
    }
  }

  /** The values that have a named kind: the rollback range, the heuristic and retry range, the `XAER_*` range. */
  predicate IsKnownCode(i: int) {
    (100 <= i <= 107) || (3 <= i <= 8) || (-8 <= i <= -3)
  }

  /** `Kind::from_i32` */
  function FromI32(i: int32): (k: Kind)
    ensures k.Code() == i
    ensures k.UnknownErrorCode? <==> !IsKnownCode(i)
  {
    match i
    case 100 => RollbackUnspecified
    case 101 => RollbackCommunicationFailure
    case 102 => RollbackDeadlock
    case 103 => RollbackIntegrity
    case 104 => RollbackOther
    case 105 => RollbackProtocol
    case 106 => RollbackTimeout
    case 107 => RollbackTransient
    case 8 => HeuristicallyCompleted
    case 7 => HeuristicallyCommitted
    case 6 => HeuristicallyRolledBack
    case 5 => HeuristicallyMessedUp
    case 4 => Retry
    case 3 => ReadOnlyCommitted
    case -3 => RmError
    case -4 => InvalidTransactionId
    case -5 => InvalidArguments
    case -6 => ProtocolError
    case -7 => RmFailure
    case -8 => DuplicateTransactionId
    case _ => UnknownErrorCode(i)
  }

  /** Distinct C values never decode to the same kind. */
  lemma FromI32Injective(i: int32, j: int32)
    ensures FromI32(i) == FromI32(j) ==> i == j
  {
    assert FromI32(i).Code() == i && FromI32(j).Code() == j;
  }

  /** `RmError` is a plain pair: `RmError::new` is the constructor `New`, `get_kind` and `get_description` its fields. */
  datatype RmError = New(kind: Kind, description: string)

  /** `RmError::new` followed by `get_kind` and `get_description`. */
  lemma NewThenGet(k: Kind, s: string)
    ensures RmError.New(k, s).kind == k && RmError.New(k, s).description == s
    ensures forall e: RmError :: e.kind == k && e.description == s ==> e == RmError.New(k, s)
  {
  }
}
