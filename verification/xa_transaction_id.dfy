/**
 * The XID (transaction identifier) of the X/Open XA specification:
 * a format id, a global transaction id and a branch qualifier of at most 64 bytes each,
 * with its little-endian binary layout (three `i32` header fields, then both byte strings,
 * optionally zero-padded to the 140-byte C struct).
 */
module XaTransactionIds {
  import opened Wrappers
  import opened LittleEndian
  import opened XaErrors

  const MAX_BYTES_GLOBAL_TRANSACTION_ID: nat := 64
  const MAX_BYTES_BRANCH_QUALIFIER: nat := 64

  /** The payload area of the C struct: both byte strings plus zero padding. */
  const XID_DATA_SIZE: nat := 128
  const HEADER_SIZE: nat := 12

  const BadFormatId: string := "Bad XA transaction id: invalid format-id"
  const GlobalTidTooLong: string := "Invalid global ta id (too long)"
  const BranchQualifierTooLong: string := "Invalid branch_qualifier (too long)"
  const NegativeGlobalTidLength: string := "Negative global tid length"
  const NegativeBranchQualifierLength: string := "Negative branch qualifier length"

  /** The fields are private in the source, so `format_id`, `global_tid` and `branch_qualifier` are the getters. */
  datatype XaTransactionId = XaTransactionId(formatId: int32, globalTid: seq<byte>, branchQualifier: seq<byte>)
  {
    /** What `try_new` and `null_ta` guarantee of every value they hand out. */
    predicate Valid() {
      formatId >= -1
      && |globalTid| <= MAX_BYTES_GLOBAL_TRANSACTION_ID
      && |branchQualifier| <= MAX_BYTES_BRANCH_QUALIFIER
    }
  }

  /** `XaTransactionId::try_new`: the three checks in the source's order, each failing with `Usage`. */
  function TryNew(formatId: int32, globalTid: seq<byte>, branchQualifier: seq<byte>): (r: Result<XaTransactionId, XaError>)
    ensures r.Ok? <==> formatId >= -1 && |globalTid| <= 64 && |branchQualifier| <= 64
    ensures r.Ok? ==> r.value.Valid() && r.value.formatId == formatId
                      && r.value.globalTid == globalTid && r.value.branchQualifier == branchQualifier
    ensures formatId < -1 ==> r == Err(Usage(BadFormatId))
    ensures formatId >= -1 && |globalTid| > 64 ==> r == Err(Usage(GlobalTidTooLong))
    ensures formatId >= -1 && |globalTid| <= 64 && |branchQualifier| > 64 ==> r == Err(Usage(BranchQualifierTooLong))
  {
    if formatId < -1 then Err(Usage(BadFormatId))
    else if |globalTid| > MAX_BYTES_GLOBAL_TRANSACTION_ID then Err(Usage(GlobalTidTooLong))
    else if |branchQualifier| > MAX_BYTES_BRANCH_QUALIFIER then Err(Usage(BranchQualifierTooLong))
    else Ok(XaTransactionId(formatId, globalTid, branchQualifier))
  }

  /** Every valid id is what `try_new` builds from its own fields. */
  lemma TryNewOfValid(x: XaTransactionId)
    requires x.Valid()
    ensures TryNew(x.formatId, x.globalTid, x.branchQualifier) == Ok(x)
  {
  }

  /** `XaTransactionId::null_ta` */
  function NullTa(): XaTransactionId {
    XaTransactionId(-1, [], [])
  }

  /** NULL has format id -1 and two empty byte strings, and is itself a valid id. */
  lemma NullTaIsValid()
    ensures NullTa().formatId == -1 && NullTa().globalTid == [] && NullTa().branchQualifier == []
    ensures TryNew(-1, [], []) == Ok(NullTa())
  {
  }

  /** The bytes `as_bytes` produces: header, both byte strings, and with `padding` the zeros that fill 128 bytes. */
  function Encoding(x: XaTransactionId, padding: bool): (s: seq<byte>)
    requires x.Valid()
  {
    EncodeI32(x.formatId) + EncodeI32(|x.globalTid|) + EncodeI32(|x.branchQualifier|)
    + x.globalTid + x.branchQualifier
    + (if padding then Zeros(XID_DATA_SIZE - |x.branchQualifier| - |x.globalTid|) else [])
  }

  /** The layout: 12 header bytes, then the payload; 140 bytes in all with padding, 12 + |g| + |b| without. */
  lemma EncodingLayout(x: XaTransactionId, padding: bool)
    requires x.Valid()
    ensures var s := Encoding(x, padding);
      && |s| == (if padding then HEADER_SIZE + XID_DATA_SIZE else HEADER_SIZE + |x.globalTid| + |x.branchQualifier|)
      && DecodeI32(s[0..4]) == x.formatId
      && DecodeI32(s[4..8]) == |x.globalTid|
      && DecodeI32(s[8..12]) == |x.branchQualifier|
      && s[12..12 + |x.globalTid|] == x.globalTid
      && s[12 + |x.globalTid|..12 + |x.globalTid| + |x.branchQualifier|] == x.branchQualifier
      && (forall i :: 12 + |x.globalTid| + |x.branchQualifier| <= i < |s| ==> s[i] == 0)
  {
    EncodingParts(x, padding);
    DecodeEncodeI32(x.formatId);
    DecodeEncodeI32(|x.globalTid|);
    DecodeEncodeI32(|x.branchQualifier|);
    EncodingPadding(x, padding);
  }

  /** Everything after the two byte strings is zero. */
  lemma EncodingPadding(x: XaTransactionId, padding: bool)
    requires x.Valid()
    ensures var s := Encoding(x, padding);
      forall i :: 12 + |x.globalTid| + |x.branchQualifier| <= i < |s| ==> s[i] == 0
  {
    var head := EncodeI32(x.formatId) + EncodeI32(|x.globalTid|) + EncodeI32(|x.branchQualifier|)
      + x.globalTid + x.branchQualifier;
    var tail := if padding then Zeros(XID_DATA_SIZE - |x.branchQualifier| - |x.globalTid|) else [];
    assert Encoding(x, padding) == head + tail;
  }

  /** `XaTransactionId::as_bytes`: writes the header and payload, then the padding one zero byte at a time. */
  method AsBytes(x: XaTransactionId, padding: bool) returns (result: seq<byte>)
    requires x.Valid()
    ensures result == Encoding(x, padding)
  {
    result := [];
    result := result + EncodeI32(x.formatId);
    result := result + EncodeI32(|x.globalTid|);
    result := result + EncodeI32(|x.branchQualifier|);
    result := result + x.globalTid;
    result := result + x.branchQualifier;
    assert result == EncodeI32(x.formatId) + EncodeI32(|x.globalTid|) + EncodeI32(|x.branchQualifier|)
      + x.globalTid + x.branchQualifier;
    ghost var unpadded := result;
    if padding {
      var missing := XID_DATA_SIZE - |x.branchQualifier| - |x.globalTid|;
      var i := 0;
      while i < missing
        invariant 0 <= i <= missing
        invariant result == unpadded + Zeros(i)
      {
        ZerosSnoc(i);
        result := result + [0];
        i := i + 1;
      }
    }
  }

  // ---------------------------------------------------------------------------
  // Decoding. The `Cursor` of `parse` is modelled by the byte slice and its position.

  /** What reading one record's header and both byte strings yields; `next` is the cursor position after them. */
  datatype FieldsRead =
    | Fields(formatId: int32, globalTid: seq<byte>, branchQualifier: seq<byte>, next: nat)
    | FieldsFailed(error: XaError)

  /**
   * What reading one whole record yields; `Underflow` is the usize subtraction
   * `128 - bq_len - gt_len` going below zero, which only the source's order reaches.
   */
  datatype RecordRead =
    | Record(xid: XaTransactionId, next: nat)
    | Failed(error: XaError)
    | Underflow

  /**
   * The outcome of `parse`: the `Result` it returns, or `SubtractOverflow` where the padding
   * arithmetic overflows (a panic in a debug build).
   */
  datatype ParseOutcome =
    | Parsed(result: Result<seq<XaTransactionId>, XaError>)
    | SubtractOverflow

  /**
   * The order of operations in the padding branch: the source's (`AsWritten`), which subtracts
   * before `try_new` has checked the lengths, or the corrected one (`BoundsFirst`), which rejects
   * over-long fields first. The model uses the corrected order unless `AsWritten` is named.
   */
  datatype PaddingOrder = AsWritten | BoundsFirst

  /** The error a short read turns into. */
  function Eof(): XaError {
    FromIoError(UnexpectedEof)
  }

  /** Reads the three header fields and the two byte strings at `pos`, failing like the cursor does. */
  function ReadFields(bytes: seq<byte>, pos: nat): (r: FieldsRead)
    requires pos <= |bytes|
    ensures r.Fields? ==> pos + HEADER_SIZE + |r.globalTid| + |r.branchQualifier| == r.next <= |bytes|
  {
    if |bytes| - pos < 4 then FieldsFailed(Eof())
    else
      var formatId := DecodeI32(bytes[pos..pos + 4]);
      if |bytes| - pos < 8 then FieldsFailed(Eof())
      else
        var gtLen := DecodeI32(bytes[pos + 4..pos + 8]);
        if gtLen < 0 then FieldsFailed(ReadXid(NegativeGlobalTidLength))
        else if |bytes| - pos < 12 then FieldsFailed(Eof())
        else
          var bqLen := DecodeI32(bytes[pos + 8..pos + 12]);
          if bqLen < 0 then FieldsFailed(ReadXid(NegativeBranchQualifierLength))
          else
            var p := pos + 12;
            if |bytes| - p < gtLen then FieldsFailed(Eof())
            else if |bytes| - p - gtLen < bqLen then FieldsFailed(Eof())
            else Fields(formatId, bytes[p..p + gtLen], bytes[p + gtLen..p + gtLen + bqLen], p + gtLen + bqLen)
  }

  /** Skips the padding (if any) and validates the fields with `try_new`. */
  function FinishRecord(fields: FieldsRead, bytes: seq<byte>, padding: bool): (r: RecordRead)
    requires fields.Fields? && fields.next <= |bytes|
    requires padding ==> |fields.globalTid| + |fields.branchQualifier| <= XID_DATA_SIZE
    ensures r.Record? ==> fields.next <= r.next <= |bytes|
  {
    var skip := if padding then XID_DATA_SIZE - |fields.branchQualifier| - |fields.globalTid| else 0;
    if |bytes| - fields.next < skip then Failed(Eof())
    else
      match TryNew(fields.formatId, fields.globalTid, fields.branchQualifier)
      case Err(e) => Failed(e)
      case Ok(x) => Record(x, fields.next + skip)
  }

  /** One iteration of the loop in `parse`, starting at cursor position `pos`. */
  function ReadRecord(bytes: seq<byte>, pos: nat, padding: bool, order: PaddingOrder := BoundsFirst): (r: RecordRead)
    requires pos <= |bytes|
    ensures r.Record? ==> pos < r.next <= |bytes|
    ensures r.Underflow? ==> order == AsWritten && padding
  {
    var fields := ReadFields(bytes, pos);
    if fields.FieldsFailed? then Failed(fields.error)
    else if padding && |fields.globalTid| + |fields.branchQualifier| > XID_DATA_SIZE then
      if order == AsWritten then Underflow
      else Failed(TryNew(fields.formatId, fields.globalTid, fields.branchQualifier).error)
    else FinishRecord(fields, bytes, padding)
  }

  /** Puts already decoded ids in front of a successful outcome; failures pass through. */
  function Prepend(xs: seq<XaTransactionId>, o: ParseOutcome): ParseOutcome {
    match o
    case Parsed(Ok(ys)) => Parsed(Ok(xs + ys))
    case _ => o
  }

  /** `XaTransactionId::parse` as a function: `count` records from `pos` on, stopping at the first failure. */
  function ParseFrom(bytes: seq<byte>, pos: nat, count: nat, padding: bool, order: PaddingOrder := BoundsFirst): ParseOutcome
    requires pos <= |bytes|
    decreases count
  {
    if count == 0 then Parsed(Ok([]))
    else
      match ReadRecord(bytes, pos, padding, order)
      case Underflow => SubtractOverflow
      case Failed(e) => Parsed(Err(e))
      case Record(x, next) => Prepend([x], ParseFrom(bytes, next, count - 1, padding, order))
  }

  lemma PrependEmpty(o: ParseOutcome)
    ensures Prepend([], o) == o
  {
    if o.Parsed? && o.result.Ok? {
      assert [] + o.result.value == o.result.value;
    }
  }

  lemma PrependAssoc(xs: seq<XaTransactionId>, ys: seq<XaTransactionId>, o: ParseOutcome)
    ensures Prepend(xs, Prepend(ys, o)) == Prepend(xs + ys, o)
  {
    if o.Parsed? && o.result.Ok? {
      assert xs + (ys + o.result.value) == (xs + ys) + o.result.value;
    }
  }

  /** The first half of one iteration of `parse`: the three `read_i32` calls and the two `read_exact` calls. */
  method ReadHeaderAndPayload(bytes: seq<byte>, pos: nat) returns (fields: FieldsRead)
    requires pos <= |bytes|
    ensures fields == ReadFields(bytes, pos)
  {
    if |bytes| - pos < 4 { return FieldsFailed(Eof()); }
    var formatId := DecodeI32(bytes[pos..pos + 4]);
    if |bytes| - pos < 8 { return FieldsFailed(Eof()); }
    var gtLen := DecodeI32(bytes[pos + 4..pos + 8]);
    if gtLen < 0 { return FieldsFailed(ReadXid(NegativeGlobalTidLength)); }
    if |bytes| - pos < 12 { return FieldsFailed(Eof()); }
    var bqLen := DecodeI32(bytes[pos + 8..pos + 12]);
    if bqLen < 0 { return FieldsFailed(ReadXid(NegativeBranchQualifierLength)); }
    var cursor := pos + 12;
    if |bytes| - cursor < gtLen { return FieldsFailed(Eof()); }
    var globalTid := bytes[cursor..cursor + gtLen];
    cursor := cursor + gtLen;
    if |bytes| - cursor < bqLen { return FieldsFailed(Eof()); }
    var branchQualifier := bytes[cursor..cursor + bqLen];
    cursor := cursor + bqLen;
    return Fields(formatId, globalTid, branchQualifier, cursor);
  }

  /**
   * One iteration of `parse`: fields, then the padding skipped one `read_u8` at a time, then
   * `try_new`; over-long fields are rejected before the padding arithmetic (see `PaddingOrder`).
   */
  method ReadOneRecord(bytes: seq<byte>, pos: nat, padding: bool) returns (record: RecordRead)
    requires pos <= |bytes|
    ensures record == ReadRecord(bytes, pos, padding)
  {
    var fields := ReadHeaderAndPayload(bytes, pos);
    if fields.FieldsFailed? { return Failed(fields.error); }
    var cursor := fields.next;
    var gtLen, bqLen := |fields.globalTid|, |fields.branchQualifier|;
    if padding {
      if bqLen + gtLen > XID_DATA_SIZE {
        return Failed(TryNew(fields.formatId, fields.globalTid, fields.branchQualifier).error);
      }
      var missing := XID_DATA_SIZE - bqLen - gtLen;
      var i := 0;
      while i < missing
        invariant 0 <= i <= missing && cursor == fields.next + i <= |bytes|
      {
        if cursor == |bytes| { return Failed(Eof()); }
        cursor := cursor + 1;
        i := i + 1;
      }
    }
    match TryNew(fields.formatId, fields.globalTid, fields.branchQualifier)
    case Err(e) => return Failed(e);
    case Ok(x) => return Record(x, cursor);
  }

  /**
   * One iteration of the loop in `parse` keeps its invariant: the whole outcome is the ids read
   * so far put in front of the outcome of parsing the rest; a failed record ends the whole parse.
   */
  lemma ParseStep(whole: ParseOutcome, result: seq<XaTransactionId>, bytes: seq<byte>, pos: nat, count: nat, padding: bool, record: RecordRead)
    requires pos <= |bytes| && count > 0 && record == ReadRecord(bytes, pos, padding)
    requires whole == Prepend(result, ParseFrom(bytes, pos, count, padding))
    ensures record.Failed? ==> whole == Parsed(Err(record.error))
    ensures record.Record? ==> whole == Prepend(result + [record.xid], ParseFrom(bytes, record.next, count - 1, padding))
  {
    if record.Record? {
      PrependAssoc(result, [record.xid], ParseFrom(bytes, record.next, count - 1, padding));
    }
  }

  /**
   * `XaTransactionId::parse`: a loop of `count` iterations over a cursor, each reading one record;
   * any failure ends it.
   */
  method Parse(bytes: seq<byte>, count: u64, padding: bool) returns (r: Result<seq<XaTransactionId>, XaError>)
    ensures Parsed(r) == ParseFrom(bytes, 0, count, padding)
  {
    var pos := 0;
    var result: seq<XaTransactionId> := [];
    var remaining: nat := count;
    ghost var whole := ParseFrom(bytes, 0, count, padding);
    PrependEmpty(whole);
    while remaining > 0
      invariant pos <= |bytes|
      invariant whole == Prepend(result, ParseFrom(bytes, pos, remaining, padding))
    {
      var record := ReadOneRecord(bytes, pos, padding);
      ParseStep(whole, result, bytes, pos, remaining, padding, record);
      assert whole == Prepend(result, ParseFrom(bytes, pos, remaining, padding));
      match record
      case Failed(e) => return Err(e);
      case Record(x, next) =>
        result, pos, remaining := result + [x], next, remaining - 1;
    }
    assert result + [] == result;
    return Ok(result);
  }

  // ---------------------------------------------------------------------------
  // Properties of the decoder.

  /** The bytes of several ids written one after another, as a recovery scan hands them to `parse`. */
  function EncodeAll(xs: seq<XaTransactionId>, padding: bool): seq<byte>
    requires forall i :: 0 <= i < |xs| ==> xs[i].Valid()
  {
    if xs == [] then [] else Encoding(xs[0], padding) + EncodeAll(xs[1..], padding)
  }

  /** A window inside a window of known contents. */
  lemma SliceOfWindow(bytes: seq<byte>, pos: nat, e: seq<byte>, i: nat, j: nat)
    requires pos + |e| <= |bytes| && bytes[pos..pos + |e|] == e && i <= j <= |e|
    ensures bytes[pos + i..pos + j] == e[i..j]
  {
    forall k | i <= k < j
      ensures bytes[pos + k] == e[k]
    {
      assert bytes[pos..pos + |e|][k] == e[k];
    }
  }

  /** The fields are read back from a window whose header and payload hold them. */
  lemma ReadFieldsAt(bytes: seq<byte>, pos: nat, formatId: int32, globalTid: seq<byte>, branchQualifier: seq<byte>)
    requires pos + HEADER_SIZE + |globalTid| + |branchQualifier| <= |bytes|
    requires |globalTid| < 0x8000_0000 && |branchQualifier| < 0x8000_0000
    requires DecodeI32(bytes[pos..pos + 4]) == formatId
    requires DecodeI32(bytes[pos + 4..pos + 8]) == |globalTid|
    requires DecodeI32(bytes[pos + 8..pos + 12]) == |branchQualifier|
    requires bytes[pos + 12..pos + 12 + |globalTid|] == globalTid
    requires bytes[pos + 12 + |globalTid|..pos + 12 + |globalTid| + |branchQualifier|] == branchQualifier
    ensures ReadFields(bytes, pos) == Fields(formatId, globalTid, branchQualifier, pos + HEADER_SIZE + |globalTid| + |branchQualifier|)
  {
  }

  /** Reading one record where an encoded id lies gives that id back and moves the cursor past its bytes. */
  lemma ReadRecordOfEncoding(x: XaTransactionId, padding: bool, bytes: seq<byte>, pos: nat)
    requires x.Valid()
    requires pos + |Encoding(x, padding)| <= |bytes|
    requires bytes[pos..pos + |Encoding(x, padding)|] == Encoding(x, padding)
    ensures ReadRecord(bytes, pos, padding) == Record(x, pos + |Encoding(x, padding)|)
  {
    EncodingParts(x, padding);
    ReadRecordOfWindow(x, padding, bytes, pos, Encoding(x, padding));
  }

  /** Reading one record from a window laid out as `as_bytes` lays out `x`. */
  lemma ReadRecordOfWindow(x: XaTransactionId, padding: bool, bytes: seq<byte>, pos: nat, e: seq<byte>)
    requires x.Valid() && pos + |e| <= |bytes| && bytes[pos..pos + |e|] == e
    requires var g, b := |x.globalTid|, |x.branchQualifier|;
      && |e| == HEADER_SIZE + g + b + (if padding then XID_DATA_SIZE - b - g else 0)
      && e[0..4] == EncodeI32(x.formatId)
      && e[4..8] == EncodeI32(g)
      && e[8..12] == EncodeI32(b)
      && e[12..12 + g] == x.globalTid
      && e[12 + g..12 + g + b] == x.branchQualifier
    ensures ReadRecord(bytes, pos, padding) == Record(x, pos + |e|)
  {
    HeaderWindow(x, e, bytes, pos);
    PayloadWindow(x, e, bytes, pos);
    ReadFieldsAt(bytes, pos, x.formatId, x.globalTid, x.branchQualifier);
    ReadRecordOfFields(x, padding, bytes, pos);
  }

  /** Once the fields of a valid id are read at `pos`, the record is that id, after the padding if any. */
  lemma ReadRecordOfFields(x: XaTransactionId, padding: bool, bytes: seq<byte>, pos: nat)
    requires x.Valid() && pos <= |bytes|
    requires var g, b := |x.globalTid|, |x.branchQualifier|;
      && pos + HEADER_SIZE + g + b + (if padding then XID_DATA_SIZE - b - g else 0) <= |bytes|
      && ReadFields(bytes, pos) == Fields(x.formatId, x.globalTid, x.branchQualifier, pos + HEADER_SIZE + g + b)
    ensures var g, b := |x.globalTid|, |x.branchQualifier|;
      ReadRecord(bytes, pos, padding) == Record(x, pos + HEADER_SIZE + g + b + (if padding then XID_DATA_SIZE - b - g else 0))
  {
    FinishRecordOfValid(x, bytes, padding, pos + HEADER_SIZE + |x.globalTid| + |x.branchQualifier|);
  }

  /** Once the fields of a valid id are read, the record is that id, after the padding if any. */
  lemma FinishRecordOfValid(x: XaTransactionId, bytes: seq<byte>, padding: bool, next: nat)
    requires x.Valid()
    requires next + (if padding then XID_DATA_SIZE - |x.branchQualifier| - |x.globalTid| else 0) <= |bytes|
    ensures padding ==> |x.globalTid| + |x.branchQualifier| <= XID_DATA_SIZE
    ensures FinishRecord(Fields(x.formatId, x.globalTid, x.branchQualifier, next), bytes, padding)
      == Record(x, next + (if padding then XID_DATA_SIZE - |x.branchQualifier| - |x.globalTid| else 0))
  {
    TryNewOfValid(x);
  }

  lemma HeaderWindow(x: XaTransactionId, e: seq<byte>, bytes: seq<byte>, pos: nat)
    requires x.Valid() && 12 <= |e| && pos + |e| <= |bytes| && bytes[pos..pos + |e|] == e
    requires e[0..4] == EncodeI32(x.formatId)
    requires e[4..8] == EncodeI32(|x.globalTid|)
    requires e[8..12] == EncodeI32(|x.branchQualifier|)
    ensures DecodeI32(bytes[pos..pos + 4]) == x.formatId
    ensures DecodeI32(bytes[pos + 4..pos + 8]) == |x.globalTid|
    ensures DecodeI32(bytes[pos + 8..pos + 12]) == |x.branchQualifier|
  {
    WindowDecode(bytes, pos, e, 0, x.formatId);
    WindowDecode(bytes, pos, e, 4, |x.globalTid|);
    WindowDecode(bytes, pos, e, 8, |x.branchQualifier|);
  }

  lemma PayloadWindow(x: XaTransactionId, e: seq<byte>, bytes: seq<byte>, pos: nat)
    requires pos + |e| <= |bytes| && bytes[pos..pos + |e|] == e
    requires 12 + |x.globalTid| + |x.branchQualifier| <= |e|
    requires e[12..12 + |x.globalTid|] == x.globalTid
    requires e[12 + |x.globalTid|..12 + |x.globalTid| + |x.branchQualifier|] == x.branchQualifier
    ensures bytes[pos + 12..pos + 12 + |x.globalTid|] == x.globalTid
    ensures bytes[pos + 12 + |x.globalTid|..pos + 12 + |x.globalTid| + |x.branchQualifier|] == x.branchQualifier
  {
    SliceOfWindow(bytes, pos, e, 12, 12 + |x.globalTid|);
    SliceOfWindow(bytes, pos, e, 12 + |x.globalTid|, 12 + |x.globalTid| + |x.branchQualifier|);
  }

  /** Where each part of an encoded id sits. */
  lemma EncodingParts(x: XaTransactionId, padding: bool)
    requires x.Valid()
    ensures var e, g, b := Encoding(x, padding), |x.globalTid|, |x.branchQualifier|;
      && |e| == HEADER_SIZE + g + b + (if padding then XID_DATA_SIZE - b - g else 0)
      && e[0..4] == EncodeI32(x.formatId)
      && e[4..8] == EncodeI32(g)
      && e[8..12] == EncodeI32(b)
      && e[12..12 + g] == x.globalTid
      && e[12 + g..12 + g + b] == x.branchQualifier
  {
  }

  /** Four bytes inside a window of known contents decode to what was encoded there. */
  lemma WindowDecode(bytes: seq<byte>, pos: nat, e: seq<byte>, i: nat, v: int32)
    requires pos + |e| <= |bytes| && bytes[pos..pos + |e|] == e
    requires i + 4 <= |e| && e[i..i + 4] == EncodeI32(v)
    ensures DecodeI32(bytes[pos + i..pos + i + 4]) == v
  {
    SliceOfWindow(bytes, pos, e, i, i + 4);
    DecodeEncodeI32(v);
  }

  /** The ids `xs` can be read one after another from `pos` on. */
  ghost predicate RecordsAt(bytes: seq<byte>, pos: nat, xs: seq<XaTransactionId>, padding: bool)
    requires pos <= |bytes|
    decreases |xs|
  {
    xs == []
    || (var r := ReadRecord(bytes, pos, padding);
        r.Record? && r.xid == xs[0] && RecordsAt(bytes, r.next, xs[1..], padding))
  }

  /** A record read successfully, followed by a successful parse of the rest. */
  lemma ParseFromRecord(bytes: seq<byte>, pos: nat, count: nat, padding: bool, x: XaTransactionId, next: nat, ys: seq<XaTransactionId>)
    requires pos <= next <= |bytes| && count > 0
    requires ReadRecord(bytes, pos, padding) == Record(x, next)
    requires ParseFrom(bytes, next, count - 1, padding) == Parsed(Ok(ys))
    ensures ParseFrom(bytes, pos, count, padding) == Parsed(Ok([x] + ys))
  {
  }

  /** Ids that can be read one after another are what `parse` returns for that many records. */
  lemma {:induction false} ParseOfRecords(bytes: seq<byte>, pos: nat, xs: seq<XaTransactionId>, padding: bool)
    requires pos <= |bytes| && RecordsAt(bytes, pos, xs, padding)
    ensures ParseFrom(bytes, pos, |xs|, padding) == Parsed(Ok(xs))
    decreases |xs|
  {
    if xs != [] {
      var r := ReadRecord(bytes, pos, padding);
      assert r.Record? && r.xid == xs[0] && RecordsAt(bytes, r.next, xs[1..], padding);
      ParseOfRecords(bytes, r.next, xs[1..], padding);
      ParseFromRecord(bytes, pos, |xs[1..]| + 1, padding, xs[0], r.next, xs[1..]);
      assert [xs[0]] + xs[1..] == xs;
    }
  }

  /** The window holding several encoded ids splits into the first id's bytes and the rest. */
  lemma EncodeAllWindows(xs: seq<XaTransactionId>, padding: bool, bytes: seq<byte>, pos: nat)
    requires xs != [] && forall i :: 0 <= i < |xs| ==> xs[i].Valid()
    requires pos + |EncodeAll(xs, padding)| <= |bytes|
    requires bytes[pos..pos + |EncodeAll(xs, padding)|] == EncodeAll(xs, padding)
    ensures var e, tail := Encoding(xs[0], padding), EncodeAll(xs[1..], padding);
      && pos + |e| + |tail| <= |bytes|
      && bytes[pos..pos + |e|] == e
      && bytes[pos + |e|..pos + |e| + |tail|] == tail
  {
    var e := Encoding(xs[0], padding);
    var tail := EncodeAll(xs[1..], padding);
    assert EncodeAll(xs, padding) == e + tail;
    WindowSplits(bytes, pos, e, tail);
  }

  /** A window holding two byte strings back to back splits into a window for each. */
  lemma WindowSplits(bytes: seq<byte>, pos: nat, e: seq<byte>, tail: seq<byte>)
    requires pos + |e| + |tail| <= |bytes| && bytes[pos..pos + |e| + |tail|] == e + tail
    ensures bytes[pos..pos + |e|] == e && bytes[pos + |e|..pos + |e| + |tail|] == tail
  {
    SliceOfWindow(bytes, pos, e + tail, 0, |e|);
    assert (e + tail)[0..|e|] == e;
    SliceOfWindow(bytes, pos, e + tail, |e|, |e| + |tail|);
    assert (e + tail)[|e|..|e| + |tail|] == tail;
  }

  /** Ids written back to back at `pos` can be read one after another. */
  lemma {:induction false} EncodingsAreRecords(xs: seq<XaTransactionId>, padding: bool, bytes: seq<byte>, pos: nat)
    requires forall i :: 0 <= i < |xs| ==> xs[i].Valid()
    requires pos + |EncodeAll(xs, padding)| <= |bytes|
    requires bytes[pos..pos + |EncodeAll(xs, padding)|] == EncodeAll(xs, padding)
    ensures RecordsAt(bytes, pos, xs, padding)
    decreases |xs|
  {
    if xs != [] {
      var next := FirstRecord(xs, padding, bytes, pos);
      EncodingsAreRecords(xs[1..], padding, bytes, next);
    }
  }

  /** The first of several ids written back to back is read, and the others' bytes follow it. */
  lemma FirstRecord(xs: seq<XaTransactionId>, padding: bool, bytes: seq<byte>, pos: nat) returns (next: nat)
    requires xs != [] && forall i :: 0 <= i < |xs| ==> xs[i].Valid()
    requires pos + |EncodeAll(xs, padding)| <= |bytes|
    requires bytes[pos..pos + |EncodeAll(xs, padding)|] == EncodeAll(xs, padding)
    ensures ReadRecord(bytes, pos, padding) == Record(xs[0], next)
    ensures next + |EncodeAll(xs[1..], padding)| <= |bytes|
    ensures bytes[next..next + |EncodeAll(xs[1..], padding)|] == EncodeAll(xs[1..], padding)
  {
    EncodeAllWindows(xs, padding, bytes, pos);
    next := pos + |Encoding(xs[0], padding)|;
    ReadRecordOfEncoding(xs[0], padding, bytes, pos);
  }

  /** The round trip of `as_bytes` and `parse`: ids written back to back are read back, in order. */
  lemma ParseOfEncodeAll(xs: seq<XaTransactionId>, padding: bool)
    requires forall i :: 0 <= i < |xs| ==> xs[i].Valid()
    ensures ParseFrom(EncodeAll(xs, padding), 0, |xs|, padding) == Parsed(Ok(xs))
  {
    var s := EncodeAll(xs, padding);
    assert s[0..|s|] == s;
    EncodingsAreRecords(xs, padding, s, 0);
    ParseOfRecords(s, 0, xs, padding);
  }

  /** The round trip for a single id, with trailing bytes left unread. */
  lemma ParseOfEncoding(x: XaTransactionId, padding: bool, rest: seq<byte>)
    requires x.Valid()
    ensures ParseFrom(Encoding(x, padding) + rest, 0, 1, padding) == Parsed(Ok([x]))
  {
    var e := Encoding(x, padding);
    assert (e + rest)[0..|e|] == e;
    ReadRecordOfEncoding(x, padding, e + rest, 0);
    assert [x] + [] == [x];
  }

  /** A successful parse returns exactly `count` ids. */
  lemma {:induction false} ParseCount(bytes: seq<byte>, pos: nat, count: nat, padding: bool, order: PaddingOrder)
    requires pos <= |bytes|
    ensures ParseFrom(bytes, pos, count, padding, order).Parsed? && ParseFrom(bytes, pos, count, padding, order).result.Ok?
      ==> |ParseFrom(bytes, pos, count, padding, order).result.value| == count
    decreases count
  {
    if count > 0 {
      var r := ReadRecord(bytes, pos, padding, order);
      if r.Record? {
        ParseCount(bytes, r.next, count - 1, padding, order);
      }
    }
  }

  /** Every error `parse` returns comes from a short or malformed read (`ReadXid`) or from `try_new` (`Usage`). */
  lemma {:induction false} ParseErrorKinds(bytes: seq<byte>, pos: nat, count: nat, padding: bool, order: PaddingOrder)
    requires pos <= |bytes|
    ensures var o := ParseFrom(bytes, pos, count, padding, order);
      o.Parsed? && o.result.Err? ==> o.result.error.ReadXid? || o.result.error.Usage?
    decreases count
  {
    if count > 0 {
      var r := ReadRecord(bytes, pos, padding, order);
      RecordErrorKinds(bytes, pos, padding, order);
      if r.Record? {
        ParseErrorKinds(bytes, r.next, count - 1, padding, order);
      }
    }
  }

  /** A record that cannot be read fails with a short or malformed read or with `Usage`. */
  lemma RecordErrorKinds(bytes: seq<byte>, pos: nat, padding: bool, order: PaddingOrder)
    requires pos <= |bytes|
    ensures var r := ReadRecord(bytes, pos, padding, order);
      r.Failed? ==> r.error.ReadXid? || r.error.Usage?
  {
    var fields := ReadFields(bytes, pos);
    assert fields.FieldsFailed? ==> fields.error.ReadXid?;
  }

  /** A negative global-tid length in a record's header makes `parse` fail with `ReadXid`. */
  lemma NegativeGlobalTidLengthFails(bytes: seq<byte>, count: nat, padding: bool)
    requires |bytes| >= 8 && DecodeI32(bytes[4..8]) < 0 && count > 0
    ensures ParseFrom(bytes, 0, count, padding) == Parsed(Err(ReadXid(NegativeGlobalTidLength)))
  {
  }

  /**
   * A record at any cursor position that reads completely but whose fields `try_new` rejects ends
   * `parse` with that `Usage` error: with `padding`, once its padding has been skipped, or at once
   * when its lengths leave no room for padding.
   */
  lemma InvalidRecordFails(bytes: seq<byte>, pos: nat, count: nat, padding: bool)
    requires pos <= |bytes| && count > 0 && ReadFields(bytes, pos).Fields?
    requires var f := ReadFields(bytes, pos);
      padding && |f.globalTid| + |f.branchQualifier| <= XID_DATA_SIZE
      ==> f.next + (XID_DATA_SIZE - |f.globalTid| - |f.branchQualifier|) <= |bytes|
    requires var f := ReadFields(bytes, pos);
      !(f.formatId >= -1 && |f.globalTid| <= 64 && |f.branchQualifier| <= 64)
    ensures var f := ReadFields(bytes, pos);
      var e := TryNew(f.formatId, f.globalTid, f.branchQualifier);
      e.Err? && e.error.Usage? && ParseFrom(bytes, pos, count, padding) == Parsed(Err(e.error))
  {
  }

  /** Any proper prefix of an id's bytes is a short read: `parse` fails with the end-of-file error. */
  lemma TruncatedEncodingFails(x: XaTransactionId, padding: bool, k: nat)
    requires x.Valid() && k < |Encoding(x, padding)|
    ensures ParseFrom(Encoding(x, padding)[..k], 0, 1, padding) == Parsed(Err(Eof()))
  {
    var e := Encoding(x, padding);
    var bytes := e[..k];
    var g, b := |x.globalTid|, |x.branchQualifier|;
    EncodingLayout(x, padding);
    if k >= 8 {
      assert bytes[4..8] == e[4..8];
    }
    if k >= 12 {
      assert bytes[8..12] == e[8..12];
    }
    assert ReadFields(bytes, 0).Fields? ==> k >= 12 + g + b;
  }

  // ---------------------------------------------------------------------------
  // The padding arithmetic of `parse`.

  /**
   * As written, a padded record whose lengths add up to more than 128 makes `128 - bq_len - gt_len`
   * underflow before `try_new` could reject it; with the bounds checked first the same bytes give
   * the `Usage` error that `try_new` reports for an over-long global id.
   */
  lemma OversizedPaddedRecordUnderflows()
    ensures var bytes := EncodeI32(0) + EncodeI32(100) + EncodeI32(100) + Zeros(200);
      && ParseFrom(bytes, 0, 1, true, AsWritten) == SubtractOverflow
      && ParseFrom(bytes, 0, 1, true, BoundsFirst) == Parsed(Err(Usage(GlobalTidTooLong)))
  {
    var bytes := EncodeI32(0) + EncodeI32(100) + EncodeI32(100) + Zeros(200);
    DecodeEncodeI32(0);
    DecodeEncodeI32(100);
    assert bytes[0..4] == EncodeI32(0);
    assert bytes[4..8] == EncodeI32(100);
    assert bytes[8..12] == EncodeI32(100);
    assert |bytes| == 212;
  }

  /** With the bounds checked first, `parse` never reaches the subtraction that underflows. */
  lemma {:induction false} BoundsFirstNeverUnderflows(bytes: seq<byte>, pos: nat, count: nat, padding: bool)
    requires pos <= |bytes|
    ensures ParseFrom(bytes, pos, count, padding, BoundsFirst) != SubtractOverflow
    decreases count
  {
    if count > 0 {
      var r := ReadRecord(bytes, pos, padding, BoundsFirst);
      if r.Record? {
        BoundsFirstNeverUnderflows(bytes, r.next, count - 1, padding);
      }
    }
  }

  /** Wherever the source's order does not underflow, checking the bounds first changes nothing. */
  lemma {:induction false} BoundsFirstAgrees(bytes: seq<byte>, pos: nat, count: nat, padding: bool)
    requires pos <= |bytes|
    requires ParseFrom(bytes, pos, count, padding, AsWritten) != SubtractOverflow
    ensures ParseFrom(bytes, pos, count, padding, BoundsFirst) == ParseFrom(bytes, pos, count, padding, AsWritten)
    decreases count
  {
    if count > 0 {
      var r := ReadRecord(bytes, pos, padding, AsWritten);
      assert ReadRecord(bytes, pos, padding, BoundsFirst) == r;
      if r.Record? {
        assert ParseFrom(bytes, r.next, count - 1, padding, AsWritten) != SubtractOverflow;
        BoundsFirstAgrees(bytes, r.next, count - 1, padding);
      }
    }
  }
}
