/** The coordinator's error type `XaError` and its description. */
module XaErrors {
  import opened RmErrors

  datatype XaError =
    | RmErrors(errors: seq<RmError>)
    | Usage(message: string)
    | UsageDetails(details: string)
    | Inconsistency(description: string, rollbackErrors: seq<RmError>)
    | ReadXid(reason: string)

  const RmErrorsDescription: string := "Error was caused by one or multiple Resource Manager Errors"

  /** `XaError::get_description`: the fixed text for `RmErrors`, otherwise the carried text. */
  function GetDescription(e: XaError): (d: string)
    ensures e.RmErrors? ==> d == RmErrorsDescription
    ensures e.Usage? ==> d == e.message
    ensures e.UsageDetails? ==> d == e.details
    ensures e.Inconsistency? ==> d == e.description
    ensures e.ReadXid? ==> d == e.reason
  {
    match e
    case RmErrors(_) => RmErrorsDescription
    case Usage(s) => s
    case UsageDetails(s) => s
    case ReadXid(s) => s
    case Inconsistency(s, _) => s
  }

  /** The participant errors carried by `RmErrors` and `Inconsistency` never show in the description. */
  lemma DescriptionIgnoresErrorLists(v: seq<RmError>, w: seq<RmError>, s: string)
    ensures GetDescription(RmErrors(v)) == GetDescription(RmErrors(w))
    ensures GetDescription(Inconsistency(s, v)) == GetDescription(Inconsistency(s, w)) == s
  {
  }

  /** An `std::io::Error`, seen only through its description. */
  datatype IoError = IoError(description: string)

  /** The error `read_exact` reports when the buffer ends early (`ErrorKind::UnexpectedEof`). */
  const UnexpectedEof: IoError := IoError("failed to fill whole buffer")

  /** `impl From<io::Error> for XaError`: every I/O error becomes `ReadXid` with its description. */
  function FromIoError(e: IoError): (x: XaError)
    ensures x.ReadXid? && GetDescription(x) == e.description
  {
    ReadXid(e.description)
  }
}
