/**
 * The `ResourceManager` interface the coordinator talks to. A participant is an oracle: it answers
 * each request as a function of the requests it has received so far, and it remembers every
 * request it was sent, in order. A participant is owned by exactly one registry entry
 * (`Box<dyn ResourceManager>`), so it is a value here.
 */
module ResourceManagers {
  import opened Wrappers
  import ReturnCodes
  import opened RmErrors
  import opened XaTransactionIds

  /** The fourteen methods of `ResourceManager`, with the XID they are called with. */
  datatype Request =
    | Start(xid: XaTransactionId)
    | StartByJoining(xid: XaTransactionId)
    | StartByResuming(xid: XaTransactionId)
    | EndSuccess(xid: XaTransactionId)
    | EndFailure(xid: XaTransactionId)
    | EndSuspend(xid: XaTransactionId)
    | Prepare(xid: XaTransactionId)
    | Commit(xid: XaTransactionId)
    | CommitOnePhase(xid: XaTransactionId)
    | Rollback(xid: XaTransactionId)
    | Forget(xid: XaTransactionId)
    | Recover
    | BeginRecover
    | EndRecover
  {
    /** The three recovery scans answer with a list of XIDs; every other request with a return code. */
    predicate IsScan() {
      Recover? || BeginRecover? || EndRecover?
    }
  }

  /** `RmResult<RmRc>`: what a participant answers to a non-scan request. */
  type Reply = Result<ReturnCodes.ReturnCode, RmError>

  /** What a participant answers to a recovery scan. */
  type ScanReply = Result<seq<XaTransactionId>, RmError>

  /**
   * A registered resource manager: `respond` and `scan` give its answer to a request from the
   * history of requests it has seen; `log` is that history.
   */
  datatype Participant = Participant(
    respond: (seq<Request>, Request) -> Reply,
    scan: (seq<Request>, Request) -> ScanReply,
    log: seq<Request>)

  /** The answer `p` gives to `req` now. */
  function Answer(p: Participant, req: Request): Reply {
    p.respond(p.log, req)
  }

  /** The answer `p` gives to the recovery scan `req` now. */
  function ScanAnswer(p: Participant, req: Request): ScanReply {
    p.scan(p.log, req)
  }

  /** `p` after it has received `req`: one more entry in its history, nothing else changes. */
  function Sent(p: Participant, req: Request): (q: Participant)
    ensures q.respond == p.respond && q.scan == p.scan
    ensures |q.log| == |p.log| + 1 && q.log[..|p.log|] == p.log && q.log[|p.log|] == req
  {
    p.(log := p.log + [req])
  }

  /** Sending one request after another is sending both, in that order. */
  lemma SentTwice(p: Participant, a: Request, b: Request)
    ensures Sent(Sent(p, a), b) == p.(log := p.log + [a, b])
  {
    assert p.log + [a] + [b] == p.log + [a, b];
  }
}
