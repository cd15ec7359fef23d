/**
 * The older transaction id of the crate, `TransactionId`: either NULL or a format id (an unsigned
 * 32-bit value that must fit in an `i32`) with a global transaction id and a branch qualifier of at
 * most 64 bytes each. Its binary layout is the XID layout of `XaTransactionIds`.
 */
module TransactionIds {
  import opened Wrappers
  import opened LittleEndian
  import opened RmErrors
  import XaTransactionIds

  const MAX_FORMAT_ID: u32 := I32_MAX as u32
  const MAX_GTRID_SIZE: nat := 64
  const MAX_BQUAL_SIZE: nat := 64

  const BadFormatId: string := "Bad XA transaction id: invalid format-id"
  const GlobalTaTooLong: string := "Bad XA transaction id: invalid global ta id (too long)"
  const BranchQualifierTooLong: string := "Bad XA transaction id: invalid branch_qualifier (too long)"

  /** `TmError`, the error type of `new`: resource manager errors, or a misuse of the API. */
  datatype TmError = RmErrors(errors: seq<RmError>) | Usage(message: string)

  /** `TransactionId(OTid)`: `OTid::None` is `Null`, `OTid::Some(Tid { .. })` is `Tid`. */
  datatype TransactionId =
    | Null
    | Tid(formatId: u32, globalTa: seq<byte>, branchQualifier: seq<byte>)
  {
    /** What `new` guarantees of every `Tid` it hands out. */
    predicate Valid() {
      Tid? ==> formatId <= MAX_FORMAT_ID && |globalTa| <= MAX_GTRID_SIZE && |branchQualifier| <= MAX_BQUAL_SIZE
    }
  }

  /** `TransactionId::new`: the three checks in the source's order, each failing with `Usage`. */
  function New(formatId: u32, globalTa: seq<byte>, branchQualifier: seq<byte>): (r: Result<TransactionId, TmError>)
    ensures r.Ok? <==> formatId <= MAX_FORMAT_ID && |globalTa| <= 64 && |branchQualifier| <= 64
    ensures r.Ok? ==> r.value == Tid(formatId, globalTa, branchQualifier) && r.value.Valid()
    ensures formatId > MAX_FORMAT_ID ==> r == Err(Usage(BadFormatId))
    ensures formatId <= MAX_FORMAT_ID && |globalTa| > 64 ==> r == Err(Usage(GlobalTaTooLong))
    ensures formatId <= MAX_FORMAT_ID && |globalTa| <= 64 && |branchQualifier| > 64 ==> r == Err(Usage(BranchQualifierTooLong))
  {
    if formatId > MAX_FORMAT_ID then Err(Usage(BadFormatId))
    else if |globalTa| > MAX_GTRID_SIZE then Err(Usage(GlobalTaTooLong))
    else if |branchQualifier| > MAX_BQUAL_SIZE then Err(Usage(BranchQualifierTooLong))
    else Ok(Tid(formatId, globalTa, branchQualifier))
  }

  /** `get_format_id`: -1 for NULL, otherwise the format id cast to `i32`. */
  function GetFormatId(t: TransactionId): (r: int32)
    ensures t.Null? ==> r == -1
    ensures t.Tid? ==> r % 0x1_0000_0000 == t.formatId % 0x1_0000_0000
    ensures t.Tid? && t.Valid() ==> r == t.formatId
    ensures t.Tid? ==> I32AsU32(r) == t.formatId
  {
    match t
    case Null => -1
    case Tid(f, _, _) => CastRoundTrip(f); U32AsI32(f)
  }

  /** `get_global_ta`: `None` for NULL, otherwise the global transaction id. */
  function GetGlobalTa(t: TransactionId): (r: Option<seq<byte>>)
    ensures r.None? <==> t.Null?
    ensures t.Tid? ==> r == Some(t.globalTa)
  {
    match t
    case Null => None
    case Tid(_, g, _) => Some(g)
  }

  /** `get_branch_qualifier`: `None` for NULL, otherwise the branch qualifier. */
  function GetBranchQualifier(t: TransactionId): (r: Option<seq<byte>>)
    ensures r.None? <==> t.Null?
    ensures t.Tid? ==> r == Some(t.branchQualifier)
  {
    match t
    case Null => None
    case Tid(_, _, b) => Some(b)
  }

  /** The getters give back what `new` was given. */
  lemma GettersOfNew(formatId: u32, globalTa: seq<byte>, branchQualifier: seq<byte>)
    requires New(formatId, globalTa, branchQualifier).Ok?
    ensures var t := New(formatId, globalTa, branchQualifier).value;
      && GetFormatId(t) == formatId
      && GetGlobalTa(t) == Some(globalTa)
      && GetBranchQualifier(t) == Some(branchQualifier)
  {
  }

  /** The XID a valid id stands for: NULL is the XA null id, format id -1 with empty byte strings. */
  function ToXa(t: TransactionId): (x: XaTransactionIds.XaTransactionId)
    requires t.Valid()
    ensures x.Valid()
    ensures t.Null? ==> x == XaTransactionIds.NullTa()
  {
    match t
    case Null => XaTransactionIds.NullTa()
    case Tid(f, g, b) => XaTransactionIds.XaTransactionId(f, g, b)
  }

  /**
   * `TransactionId::as_bytes`: NULL is written as the header (-1, 0, 0) and with `padding` 128 zero
   * bytes; any other id as header, payload and the zeros that fill 128 bytes. The write to a
   * `Vec` never fails, so the `io::Result` is always `Ok` and is left out.
   */
  method AsBytes(t: TransactionId, padding: bool) returns (result: seq<byte>)
    requires t.Valid()
    ensures result == XaTransactionIds.Encoding(ToXa(t), padding)
  {
    result := [];
    match t {
      case Null =>
        result := result + EncodeI32(-1);
        result := result + EncodeI32(0);
        result := result + EncodeI32(0);
        assert result == EncodeI32(-1) + EncodeI32(0) + EncodeI32(0);
        ghost var header := result;
        if padding {
          for i := 0 to 128
            invariant result == header + Zeros(i)
          {
            ZerosSnoc(i);
            result := result + [0];
          }
        }
        NullLayout(padding);
      case Tid(f, g, b) =>
        result := result + EncodeI32(f);
        result := result + EncodeI32(|g|);
        result := result + EncodeI32(|b|);
        result := result + g;
        result := result + b;
        assert result == EncodeI32(f) + EncodeI32(|g|) + EncodeI32(|b|) + g + b;
        ghost var unpadded := result;
        if padding {
          var missing := 128 - |b| - |g|;
          for i := 0 to missing
            invariant result == unpadded + Zeros(i)
          {
            ZerosSnoc(i);
            result := result + [0];
          }
        }
        assert ToXa(t) == XaTransactionIds.XaTransactionId(f, g, b);
    }
  }

  /** The bytes of NULL: format id -1, two zero lengths, and with `padding` 128 zeros (140 bytes). */
  lemma NullLayout(padding: bool)
    ensures var s := XaTransactionIds.Encoding(ToXa(Null), padding);
      && s == EncodeI32(-1) + EncodeI32(0) + EncodeI32(0) + (if padding then Zeros(128) else [])
      && |s| == (if padding then 140 else 12)
  {
  }

  /** What `as_bytes` writes, the XID parser reads back as the same id; NULL comes back as the null XID. */
  lemma AsBytesParsesBack(t: TransactionId, padding: bool, rest: seq<byte>)
    requires t.Valid()
    ensures XaTransactionIds.ParseFrom(XaTransactionIds.Encoding(ToXa(t), padding) + rest, 0, 1, padding)
      == XaTransactionIds.Parsed(Ok([ToXa(t)]))
    ensures t.Tid? ==>
      ToXa(t).formatId == GetFormatId(t) && ToXa(t).globalTid == GetGlobalTa(t).value
      && ToXa(t).branchQualifier == GetBranchQualifier(t).value
  {
    XaTransactionIds.ParseOfEncoding(ToXa(t), padding, rest);
  }
}
