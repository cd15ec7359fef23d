/**
 * The XIDs `SimpleTransactionManager` hands to its participants: format id 99, the global
 * transaction number as eight little-endian bytes, and as branch qualifier the coordinator's id
 * followed by the participant's id, eight little-endian bytes each.
 */
module BranchXids {
  import opened Wrappers
  import opened LittleEndian
  import opened XaTransactionIds

  /** `FORMAT_ID`, the format id of every XID the coordinator creates. */
  const FORMAT_ID: int32 := 99

  /** The bytes of the branch qualifier for coordinator `tmId` and participant `rmId`. */
  function BranchQualifier(tmId: u64, rmId: u64): (bq: seq<byte>)
    ensures |bq| == 16
  {
    EncodeU64(tmId) + EncodeU64(rmId)
  }

  /**
   * `new_xatid`: the XID of the branch of global transaction `globalTid` at participant `rmId`.
   * The source builds it with `try_new(..).unwrap()`; `BranchXidDecodes` shows that call succeeds
   * with exactly this value.
   */
  function BranchXid(globalTid: u64, tmId: u64, rmId: u64): (x: XaTransactionId)
    ensures x.Valid()
  {
    XaTransactionId(FORMAT_ID, EncodeU64(globalTid), BranchQualifier(tmId, rmId))
  }

  /**
   * The `unwrap` of `try_new` in `new_xatid` never fails, and every part of the XID can be read
   * back from its bytes.
   */
  lemma BranchXidDecodes(globalTid: u64, tmId: u64, rmId: u64)
    ensures var x := BranchXid(globalTid, tmId, rmId);
      && TryNew(FORMAT_ID, EncodeU64(globalTid), BranchQualifier(tmId, rmId)) == Ok(x)
      && x.formatId == FORMAT_ID
      && |x.globalTid| == 8 && DecodeU64(x.globalTid) == globalTid
      && |x.branchQualifier| == 16
      && DecodeU64(x.branchQualifier[..8]) == tmId && DecodeU64(x.branchQualifier[8..]) == rmId
  {
    DecodeEncodeU64(globalTid);
    DecodeEncodeU64(tmId);
    DecodeEncodeU64(rmId);
    var bq := BranchQualifier(tmId, rmId);
    assert bq[..8] == EncodeU64(tmId) && bq[8..] == EncodeU64(rmId);
  }

  /**
   * `is_my_xid_and_rm`: whether `xid` was made by coordinator `tmId` for participant `rmId`,
   * checked as the source does: the format id, the qualifier's length, then the two ids in turn.
   */
  function IsMyXidAndRm(tmId: u64, xid: XaTransactionId, rmId: u64): bool {
    if xid.formatId != FORMAT_ID then false
    else if |xid.branchQualifier| != 16 then false
    else if DecodeU64(xid.branchQualifier[..8]) != tmId then false
    else DecodeU64(xid.branchQualifier[8..]) == rmId
  }

  /** An XID is this coordinator's XID for `rmId` exactly when its qualifier is the one `new_xatid` writes. */
  lemma IsMyXidAndRmMeans(tmId: u64, xid: XaTransactionId, rmId: u64)
    ensures IsMyXidAndRm(tmId, xid, rmId) <==>
      xid.formatId == FORMAT_ID && xid.branchQualifier == BranchQualifier(tmId, rmId)
  {
    var bq := xid.branchQualifier;
    if xid.formatId == FORMAT_ID && |bq| == 16 {
      EncodeDecodeU64(bq[..8]);
      EncodeDecodeU64(bq[8..]);
      assert bq == bq[..8] + bq[8..];
      if bq == BranchQualifier(tmId, rmId) {
        assert bq[..8] == EncodeU64(tmId) && bq[8..] == EncodeU64(rmId);
        DecodeEncodeU64(tmId);
        DecodeEncodeU64(rmId);
      }
    }
  }

  /**
   * The XIDs the coordinator creates are recognised as its own for exactly the participant they
   * were made for, whatever the global transaction number.
   */
  lemma BranchXidIsMine(globalTid: u64, tmId: u64, rmId: u64, myId: u64, otherRm: u64)
    ensures IsMyXidAndRm(myId, BranchXid(globalTid, tmId, rmId), otherRm) <==> tmId == myId && rmId == otherRm
  {
    BranchXidDecodes(globalTid, tmId, rmId);
  }

  /** The checks that reject an XID, one per early `return false` of the source. */
  lemma NotMineWhen(tmId: u64, xid: XaTransactionId, rmId: u64)
    ensures xid.formatId != FORMAT_ID ==> !IsMyXidAndRm(tmId, xid, rmId)
    ensures |xid.branchQualifier| != 16 ==> !IsMyXidAndRm(tmId, xid, rmId)
    ensures |xid.branchQualifier| == 16 && DecodeU64(xid.branchQualifier[..8]) != tmId ==> !IsMyXidAndRm(tmId, xid, rmId)
    ensures |xid.branchQualifier| == 16 && DecodeU64(xid.branchQualifier[8..]) != rmId ==> !IsMyXidAndRm(tmId, xid, rmId)
  {
  }
}
