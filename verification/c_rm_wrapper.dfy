/**
 * `CRmWrapper`: a `ResourceManager` built on a resource manager with the C-style interface of the
 * X/Open XA specification (`CResourceManager`), where `start`, `end`, `commit` and `recover` take
 * a flag word. Every `ResourceManager` method becomes exactly one call of the inner interface with
 * a fixed flag; the wrapper keeps no state of its own and returns the inner answer unchanged.
 */
module CRmWrappers {
  import opened Wrappers
  import opened XaFlags
  import opened XaTransactionIds
  import opened ResourceManagers

  /** The seven methods of `CResourceManager`, with their arguments. */
  datatype CCall =
    | CStart(xid: XaTransactionId, flags: Flags)
    | CEnd(xid: XaTransactionId, flags: Flags)
    | CPrepare(xid: XaTransactionId)
    | CCommit(xid: XaTransactionId, flags: Flags)
    | CRollback(xid: XaTransactionId)
    | CForget(xid: XaTransactionId)
    | CRecover(flags: Flags)

  /** The one inner call each wrapper method makes. */
  function Translate(req: Request): CCall {
    match req
    case Start(x) => CStart(x, NO_FLAGS)
    case StartByJoining(x) => CStart(x, JOIN)
    case StartByResuming(x) => CStart(x, RESUME)
    case EndSuccess(x) => CEnd(x, SUCCESS)
    case EndFailure(x) => CEnd(x, FAIL)
    case EndSuspend(x) => CEnd(x, SUSPEND)
    case Prepare(x) => CPrepare(x)
    case Commit(x) => CCommit(x, NO_FLAGS)
    case CommitOnePhase(x) => CCommit(x, ONE_PHASE)
    case Rollback(x) => CRollback(x)
    case Forget(x) => CForget(x)
    case Recover => CRecover(START_RECOVERY_SCAN | END_RECOVERY_SCAN)
    case BeginRecover => CRecover(START_RECOVERY_SCAN)
    case EndRecover => CRecover(END_RECOVERY_SCAN)
  }

  /** The wrapper method that makes a given inner call, if there is one. */
  function Untranslate(c: CCall): (r: Option<Request>) {
    match c
    case CStart(x, f) =>
      if f == NO_FLAGS then Some(Start(x))
      else if f == JOIN then Some(StartByJoining(x))
      else if f == RESUME then Some(StartByResuming(x))
      else None
    case CEnd(x, f) =>
      if f == SUCCESS then Some(EndSuccess(x))
      else if f == FAIL then Some(EndFailure(x))
      else if f == SUSPEND then Some(EndSuspend(x))
      else None
    case CPrepare(x) => Some(Prepare(x))
    case CCommit(x, f) =>
      if f == NO_FLAGS then Some(Commit(x))
      else if f == ONE_PHASE then Some(CommitOnePhase(x))
      else None
    case CRollback(x) => Some(Rollback(x))
    case CForget(x) => Some(Forget(x))
    case CRecover(f) =>
      if f == START_RECOVERY_SCAN | END_RECOVERY_SCAN then Some(Recover)
      else if f == START_RECOVERY_SCAN then Some(BeginRecover)
      else if f == END_RECOVERY_SCAN then Some(EndRecover)
      else None
  }

  /** `Untranslate` inverts `Translate`: every wrapper method is recovered from its inner call. */
  lemma UntranslateTranslate(req: Request)
    ensures Untranslate(Translate(req)) == Some(req)
  {
    FlagsAreDistinctBits();
  }

  /** ... and every inner call that names a wrapper method is that method's call. */
  lemma TranslateUntranslate(c: CCall)
    ensures Untranslate(c).Some? ==> Translate(Untranslate(c).value) == c
  {
  }

  /** No two wrapper methods, and no two XIDs, lead to the same inner call. */
  lemma TranslateInjective(a: Request, b: Request)
    ensures Translate(a) == Translate(b) ==> a == b
  {
    UntranslateTranslate(a);
    UntranslateTranslate(b);
  }

  /** The XID the wrapper is called with is the XID it forwards; scans carry none. */
  lemma TranslateKeepsXid(req: Request)
    ensures req.IsScan() <==> Translate(req).CRecover?
    ensures !req.IsScan() ==> Translate(req).xid == req.xid
  {
  }

  /**
   * The flags each inner call receives fit the flags the C interface documents for it:
   * `start` takes none, JOIN or RESUME; `end` one of SUCCESS, FAIL, SUSPEND; `commit` none or
   * ONE_PHASE; `recover` only recovery-scan flags.
   */
  lemma TranslateFlags(req: Request)
    ensures Translate(req).CStart? ==> ContainsOnly(Translate(req).flags, JOIN | RESUME)
    ensures Translate(req).CEnd? ==>
      ContainsOnly(Translate(req).flags, FAIL | SUCCESS | SUSPEND) && IsSingleBit(Translate(req).flags)
    ensures Translate(req).CCommit? ==> ContainsOnly(Translate(req).flags, ONE_PHASE)
    ensures Translate(req).CRecover? ==>
      ContainsOnly(Translate(req).flags, START_RECOVERY_SCAN | END_RECOVERY_SCAN) && Translate(req).flags != NO_FLAGS
  {
  }

  /** A resource manager with the C-style interface: its answers as a function of the calls it has seen. */
  datatype CResourceManager = CResourceManager(
    respond: (seq<CCall>, CCall) -> Reply,
    scan: (seq<CCall>, CCall) -> ScanReply)

  /** The inner calls a history of wrapper calls amounts to. */
  function TranslateAll(reqs: seq<Request>): (calls: seq<CCall>)
    ensures |calls| == |reqs| && forall i :: 0 <= i < |reqs| ==> calls[i] == Translate(reqs[i])
  {
    if reqs == [] then [] else TranslateAll(reqs[..|reqs| - 1]) + [Translate(reqs[|reqs| - 1])]
  }

  /** `CRmWrapper(c)` with the history `log`, seen as a participant. */
  function Wrap(c: CResourceManager, log: seq<Request>): Participant {
    Participant(
      (h: seq<Request>, req: Request) => c.respond(TranslateAll(h), Translate(req)),
      (h: seq<Request>, req: Request) => c.scan(TranslateAll(h), Translate(req)),
      log)
  }

  /**
   * Each wrapper method makes exactly one inner call and returns its answer unchanged: after any
   * request, the inner resource manager has seen its earlier calls plus the translated request.
   */
  lemma WrapForwards(c: CResourceManager, log: seq<Request>, req: Request)
    ensures Answer(Wrap(c, log), req) == c.respond(TranslateAll(log), Translate(req))
    ensures ScanAnswer(Wrap(c, log), req) == c.scan(TranslateAll(log), Translate(req))
    ensures Sent(Wrap(c, log), req) == Wrap(c, log + [req])
    ensures TranslateAll(log + [req]) == TranslateAll(log) + [Translate(req)]
  {
    assert (log + [req])[..|log|] == log;
  }
}
