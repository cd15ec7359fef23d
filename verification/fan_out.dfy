/**
 * `rm_action`: the coordinator sends one request to every registered participant, each on its own
 * branch XID, and collects the errors. The registry is a `HashMap`, whose iteration order is not
 * fixed, so everything here is stated independently of the order: the errors are compared as a
 * multiset with `ErrorBag`, which does not depend on any order.
 */
module FanOut {
  import opened Wrappers
  import opened LittleEndian
  import opened RmErrors
  import opened XaErrors
  import opened XaTransactionIds
  import opened ResourceManagers
  import opened BranchXids

  /** The participant methods the coordinator fans out (`rm_start`, `rm_end_success`, ...). */
  datatype Action =
    | StartAction
    | EndSuccessAction
    | EndFailureAction
    | PrepareAction
    | CommitAction
    | CommitOnePhaseAction
    | RollbackAction

  /** The request an action sends on branch `xid`. */
  function RequestFor(a: Action, xid: XaTransactionId): (req: Request)
    ensures !req.IsScan() && req.xid == xid
  {
    match a
    case StartAction => Start(xid)
    case EndSuccessAction => EndSuccess(xid)
    case EndFailureAction => EndFailure(xid)
    case PrepareAction => Prepare(xid)
    case CommitAction => Commit(xid)
    case CommitOnePhaseAction => CommitOnePhase(xid)
    case RollbackAction => Rollback(xid)
  }

  /** The name of the coordinator method that fans an action out, as error messages quote it. */
  function MethodName(a: Action): string {
    match a
    case StartAction => "rm_start"
    case EndSuccessAction => "rm_end_success"
    case EndFailureAction => "rm_end_failure"
    case PrepareAction => "rm_prepare"
    case CommitAction => "rm_commit"
    case CommitOnePhaseAction => "rm_commit_one_phase"
    case RollbackAction => "rm_rollback"
  }

  /** The registry of participants, keyed by the ids they were registered with. */
  type Registry = map<u64, Participant>

  /** Every participant after it has been sent action `a` on its own branch of `globalTid`. */
  function Advanced(rms: Registry, a: Action, globalTid: u64, tmId: u64): (after: Registry)
    ensures after.Keys == rms.Keys
  {
    map id | id in rms :: Sent(rms[id], RequestFor(a, BranchXid(globalTid, tmId, id)))
  }

  /** What each participant answers to action `a` on its own branch of `globalTid`. */
  function Replies(rms: Registry, a: Action, globalTid: u64, tmId: u64): (replies: map<u64, Reply>)
    ensures replies.Keys == rms.Keys
  {
    map id | id in rms :: Answer(rms[id], RequestFor(a, BranchXid(globalTid, tmId, id)))
  }

  /** Nobody failed. */
  predicate AllOk(replies: map<u64, Reply>) {
    forall id :: id in replies ==> replies[id].Ok?
  }

  /** The participants that failed. */
  function Failing(replies: map<u64, Reply>): set<u64> {
    set id | id in replies && replies[id].Err?
  }

  /** The error a reply contributes: its error if it failed, nothing otherwise. */
  function ErrorOf(reply: Reply): multiset<RmError> {
    if reply.Err? then multiset{reply.error} else multiset{}
  }

  /** The errors of all failed replies, one per failing participant, as a multiset. */
  ghost function ErrorBag(replies: map<u64, Reply>): multiset<RmError>
    decreases replies.Keys
  {
    if replies == map[] then multiset{}
    else
      var id: u64 :| id in replies;
      ErrorOf(replies[id]) + ErrorBag(replies - {id})
  }

  /** `ErrorBag` does not depend on the participant it takes first. */
  lemma {:induction false} ErrorBagRemove(replies: map<u64, Reply>, id: u64)
    requires id in replies
    ensures ErrorBag(replies) == ErrorOf(replies[id]) + ErrorBag(replies - {id})
    decreases replies.Keys
  {
    var first: u64 :| first in replies && ErrorBag(replies) == ErrorOf(replies[first]) + ErrorBag(replies - {first});
    if first != id {
      var withoutFirst, withoutId := replies - {first}, replies - {id};
      var rest := withoutFirst - {id};
      assert withoutId - {first} == rest;
      assert withoutFirst[id] == replies[id] && withoutId[first] == replies[first];
      ErrorBagRemove(withoutFirst, id);
      ErrorBagRemove(withoutId, first);
      var a, b, c := ErrorOf(replies[first]), ErrorOf(replies[id]), ErrorBag(rest);
      calc {
        ErrorBag(replies);
        a + ErrorBag(withoutFirst);
        a + (b + c);
        b + (a + c);
        b + ErrorBag(withoutId);
      }
    }
  }

  /** The error bag is empty exactly when nobody failed. */
  lemma {:induction false} ErrorBagEmpty(replies: map<u64, Reply>)
    ensures ErrorBag(replies) == multiset{} <==> AllOk(replies)
    decreases replies.Keys
  {
    if replies != map[] {
      var id: u64 :| id in replies;
      ErrorBagRemove(replies, id);
      ErrorBagEmpty(replies - {id});
      if AllOk(replies - {id}) && replies[id].Ok? {
        forall other | other in replies
          ensures replies[other].Ok?
        {
          if other != id {
            assert other in replies - {id};
          }
        }
      }
    }
  }

  /** The error bag holds exactly one error per failing participant. */
  lemma {:induction false} ErrorBagSize(replies: map<u64, Reply>)
    ensures |ErrorBag(replies)| == |Failing(replies)|
    decreases replies.Keys
  {
    if replies != map[] {
      var id: u64 :| id in replies;
      var rest := replies - {id};
      ErrorBagRemove(replies, id);
      ErrorBagSize(rest);
      var failing, failingRest := Failing(replies), Failing(rest);
      assert failingRest == failing - {id};
      if replies[id].Err? {
        assert id in failing;
        assert |ErrorOf(replies[id])| == 1;
        assert |failing| == |failingRest| + 1;
      } else {
        assert failingRest == failing;
      }
    }
  }

  /** The errors in the bag are exactly the errors of the failed participants. */
  lemma {:induction false} ErrorBagMembers(replies: map<u64, Reply>, e: RmError)
    ensures e in ErrorBag(replies) <==> exists id :: id in replies && replies[id] == Err(e)
    decreases replies.Keys
  {
    if replies != map[] {
      var id: u64 :| id in replies;
      ErrorBagRemove(replies, id);
      ErrorBagMembers(replies - {id}, e);
      if e in ErrorBag(replies - {id}) {
        var other: u64 :| other in replies - {id} && (replies - {id})[other] == Err(e);
        assert replies[other] == Err(e);
      }
      if exists other :: other in replies && replies[other] == Err(e) {
        var other: u64 :| other in replies && replies[other] == Err(e);
        if other != id {
          assert other in replies - {id};
        }
      }
    }
  }

  /** Taking one more key out of the removed set puts its entry back. */
  lemma RemoveOneMore(m: map<u64, Reply>, s: set<u64>, k: u64)
    requires k in s && k in m
    ensures (m - (s - {k}))[k] == m[k]
    ensures m - (s - {k}) - {k} == m - s
  {
    var left, right := m - (s - {k}) - {k}, m - s;
    assert left.Keys == right.Keys;
    assert forall j :: j in left ==> left[j] == right[j];
  }

  lemma RemoveNothing(m: map<u64, Reply>)
    ensures m - {} == m
  {
    assert (m - {}).Keys == m.Keys;
  }

  /** Two registries with the same keys and the same participant under each are equal. */
  lemma SameEntries(m: Registry, n: Registry)
    requires m.Keys == n.Keys && forall k :: k in m ==> m[k] == n[k]
    ensures m == n
  {
  }

  /**
   * The result of a fan-out as `rm_action` reports it: `Ok` exactly when nobody failed, otherwise
   * `RmErrors` with the errors of the failed participants, in some order.
   */
  ghost predicate Reported(r: Result<(), XaError>, replies: map<u64, Reply>) {
    (r.Ok? <==> AllOk(replies))
    && (r.Err? ==> r.error.RmErrors? && multiset(r.error.errors) == ErrorBag(replies))
  }

  /**
   * `rm_action`: every registered participant receives action `a` exactly once, on the XID
   * `new_xatid(globalTid, tmId, rm_id)`, in whatever order the registry yields them, and the loop
   * never stops early. The result is `Ok` exactly when no call failed, and otherwise lists one
   * error per failing participant.
   */
  method RmAction(rms: Registry, a: Action, globalTid: u64, tmId: u64) returns (after: Registry, result: Result<(), XaError>)
    ensures after == Advanced(rms, a, globalTid, tmId)
    ensures Reported(result, Replies(rms, a, globalTid, tmId))
  {
    ghost var replies: map<u64, Reply> := Replies(rms, a, globalTid, tmId);
    var errors: seq<RmError> := [];
    after := rms;
    var todo: set<u64> := rms.Keys;
    while todo != {}
      invariant Visited(rms, after, todo, a, globalTid, tmId)
      invariant multiset(errors) == ErrorBag(replies - todo)
      decreases todo
    {
      var id: u64 :| id in todo;
      var request := RequestFor(a, BranchXid(globalTid, tmId, id));
      var reply := Answer(after[id], request);
      ghost var errorsBefore := errors;
      VisitOne(rms, after, todo, a, globalTid, tmId, id);
      after := after[id := Sent(after[id], request)];
      if reply.Err? {
        errors := errors + [reply.error];
      }
      CollectOne(replies, todo, id, errorsBefore, errors, reply);
      todo := todo - {id};
    }
    VisitedAll(rms, after, a, globalTid, tmId);
    RemoveNothing(replies);
    ErrorBagEmpty(replies);
    if errors == [] {
      result := Ok(());
    } else {
      result := Err(RmErrors(errors));
    }
  }

  /** The loop state of `RmAction`: the participants outside `todo` have been sent `a`, the others not yet. */
  ghost predicate Visited(rms: Registry, after: Registry, todo: set<u64>, a: Action, globalTid: u64, tmId: u64) {
    && todo <= rms.Keys && after.Keys == rms.Keys
    && (forall id :: id in todo ==> after[id] == rms[id])
    && (forall id :: id in rms && id !in todo ==> after[id] == Sent(rms[id], RequestFor(a, BranchXid(globalTid, tmId, id))))
  }

  lemma VisitOne(rms: Registry, after: Registry, todo: set<u64>, a: Action, globalTid: u64, tmId: u64, id: u64)
    requires Visited(rms, after, todo, a, globalTid, tmId) && id in todo
    ensures Answer(after[id], RequestFor(a, BranchXid(globalTid, tmId, id))) == Replies(rms, a, globalTid, tmId)[id]
    ensures Visited(rms, after[id := Sent(after[id], RequestFor(a, BranchXid(globalTid, tmId, id)))], todo - {id}, a, globalTid, tmId)
  {
    var next := after[id := Sent(after[id], RequestFor(a, BranchXid(globalTid, tmId, id)))];
    assert next.Keys == rms.Keys;
    forall i | i in todo - {id}
      ensures next[i] == rms[i]
    {
      assert next[i] == after[i];
    }
    forall i | i in rms && i !in todo - {id}
      ensures next[i] == Sent(rms[i], RequestFor(a, BranchXid(globalTid, tmId, i)))
    {
      if i != id {
        assert next[i] == after[i];
      }
    }
  }

  lemma VisitedAll(rms: Registry, after: Registry, a: Action, globalTid: u64, tmId: u64)
    requires Visited(rms, after, {}, a, globalTid, tmId)
    ensures after == Advanced(rms, a, globalTid, tmId)
  {
    SameEntries(after, Advanced(rms, a, globalTid, tmId));
  }

  /** One more reply collected: its error, if any, joins the errors of the replies collected before. */
  lemma CollectOne(replies: map<u64, Reply>, todo: set<u64>, id: u64, before: seq<RmError>, now: seq<RmError>, reply: Reply)
    requires id in todo && id in replies && reply == replies[id]
    requires multiset(before) == ErrorBag(replies - todo)
    requires now == if reply.Err? then before + [reply.error] else before
    ensures multiset(now) == ErrorBag(replies - (todo - {id}))
  {
    RemoveOneMore(replies, todo, id);
    ErrorBagRemove(replies - (todo - {id}), id);
  }

  /** `Reported` pins down the errors up to order: their number is the number of failing participants. */
  lemma ReportedErrors(r: Result<(), XaError>, replies: map<u64, Reply>)
    requires Reported(r, replies)
    ensures r.Err? ==> |r.error.errors| == |Failing(replies)| > 0
    ensures r.Err? ==> forall e :: e in r.error.errors <==> exists id :: id in replies && replies[id] == Err(e)
  {
    ErrorBagSize(replies);
    ErrorBagEmpty(replies);
    if r.Err? {
      forall e
        ensures e in r.error.errors <==> exists id :: id in replies && replies[id] == Err(e)
      {
        ErrorBagMembers(replies, e);
        assert e in r.error.errors <==> e in multiset(r.error.errors);
      }
    }
  }
}
