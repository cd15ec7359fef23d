/**
 * `SimpleTransactionManager`: a minimal XA coordinator. It numbers its global transactions with a
 * counter, keeps a registry of participants, and drives them through start, two-phase (or
 * one-phase) commit and rollback, guarded by a status that is always a single `TmStatus` bit.
 */
module SimpleTransactionManagers {
  import opened Wrappers
  import opened LittleEndian
  import opened RmErrors
  import opened XaErrors
  import opened XaTransactionIds
  import opened TmStatuses
  import opened ResourceManagers
  import opened BranchXids
  import opened FanOut

  const NoCurrentTransaction: string := "No current transaction set"
  const RmIdInUse: string := "cannot register with given rm_id, which is already in use"

  /** `last_gtid += 1` on a `u64` wraps around (the model follows release builds). */
  const U64_MODULUS: int := 0x1_0000_0000_0000_0000

  /** The `UsageDetails` text of a failed status check. */
  function WrongStatusMessage(status: TmStatus, required: TmStatus): string {
    "SimpleTransactionManager is in state " + DebugText(status) + ", but state " + DebugText(required) + " is required"
  }

  /** The `Inconsistency` text when the compensating rollback after `method` failed. */
  function RollbackFailedMessage(methodName: string): string {
    "rm_rollback() failed after a failed " + methodName + "()"
  }

  // ---------------------------------------------------------------------------
  // Registration with cleanup: forget the recovered branches that belong to this coordinator.

  /** The recovered XIDs that this coordinator made for participant `rmId`, in their order. */
  function Mine(xids: seq<XaTransactionId>, tmId: u64, rmId: u64): (mine: seq<XaTransactionId>)
    ensures |mine| <= |xids|
    ensures forall x :: x in mine <==> x in xids && IsMyXidAndRm(tmId, x, rmId)
  {
    if xids == [] then []
    else
      var init, last := xids[..|xids| - 1], xids[|xids| - 1];
      assert xids == init + [last];
      Mine(init, tmId, rmId) + (if IsMyXidAndRm(tmId, last, rmId) then [last] else [])
  }

  /** The `forget` requests for a list of XIDs. */
  function Forgets(xids: seq<XaTransactionId>): (reqs: seq<Request>)
    ensures |reqs| == |xids| && forall i :: 0 <= i < |xids| ==> reqs[i] == Forget(xids[i])
  {
    seq(|xids|, i requires 0 <= i < |xids| => Forget(xids[i]))
  }

  /** `Mine` of one more recovered XID. */
  lemma MineStep(xids: seq<XaTransactionId>, i: nat, tmId: u64, rmId: u64)
    requires i < |xids|
    ensures Mine(xids[..i + 1], tmId, rmId)
      == Mine(xids[..i], tmId, rmId) + (if IsMyXidAndRm(tmId, xids[i], rmId) then [xids[i]] else [])
  {
    assert xids[..i + 1][..i] == xids[..i];
  }

  /** One more iteration of the cleanup loop: `forget` is sent exactly when the XID is this coordinator's. */
  lemma ForgetStep(start: seq<Request>, log: seq<Request>, xids: seq<XaTransactionId>, i: nat, tmId: u64, rmId: u64)
    requires i < |xids| && log == start + Forgets(Mine(xids[..i], tmId, rmId))
    ensures (if IsMyXidAndRm(tmId, xids[i], rmId) then log + [Forget(xids[i])] else log)
      == start + Forgets(Mine(xids[..i + 1], tmId, rmId))
  {
    MineStep(xids, i, tmId, rmId);
    ForgetsSnoc(Mine(xids[..i], tmId, rmId), xids[i]);
  }

  lemma ForgetsSnoc(xids: seq<XaTransactionId>, x: XaTransactionId)
    ensures Forgets(xids + [x]) == Forgets(xids) + [Forget(x)]
  {
  }

  /**
   * The cleanup loop of `register`: `forget` is sent for every recovered XID this coordinator made
   * for `rmId`, in order; its answer is discarded (`unwrap_or(RmRc::Ok)`).
   */
  method ForgetMine(p: Participant, xids: seq<XaTransactionId>, tmId: u64, rmId: u64) returns (q: Participant)
    ensures q == p.(log := p.log + Forgets(Mine(xids, tmId, rmId)))
  {
    q := p;
    for i := 0 to |xids|
      invariant q.respond == p.respond && q.scan == p.scan
      invariant q.log == p.log + Forgets(Mine(xids[..i], tmId, rmId))
    {
      ForgetStep(p.log, q.log, xids, i, tmId, rmId);
      if IsMyXidAndRm(tmId, xids[i], rmId) {
        var _ := Answer(q, Forget(xids[i]));
        q := Sent(q, Forget(xids[i]));
      }
    }
    assert xids[..|xids|] == xids;
  }

  /** `recover().unwrap_or_default()`: the recovered XIDs, or none when the scan fails. */
  function Recovered(rm: Participant): seq<XaTransactionId> {
    var found := ScanAnswer(rm, Recover);
    if found.Ok? then found.value else []
  }

  /** The participant `register` stores: with `cleanup`, after the recovery scan and the `forget`s. */
  function Registered(rm: Participant, rmId: u64, tmId: u64, cleanup: bool): Participant {
    if cleanup then rm.(log := rm.log + [Recover] + Forgets(Mine(Recovered(rm), tmId, rmId)))
    else rm
  }

  /**
   * With cleanup the new participant first receives one recovery scan, and then `forget` for
   * exactly the recovered XIDs that are this coordinator's for `rmId`; a failed scan leaves nothing
   * to forget. Without cleanup it receives nothing.
   */
  lemma RegisteredCalls(rm: Participant, rmId: u64, tmId: u64)
    ensures Registered(rm, rmId, tmId, false) == rm
    ensures var log := Registered(rm, rmId, tmId, true).log;
      && |log| > |rm.log| && log[..|rm.log|] == rm.log && log[|rm.log|] == Recover
      && (forall i :: |rm.log| < i < |log| ==> log[i].Forget?)
      && (forall x :: Forget(x) in log[|rm.log| + 1..] <==> x in Recovered(rm) && IsMyXidAndRm(tmId, x, rmId))
    ensures ScanAnswer(rm, Recover).Err? ==> Registered(rm, rmId, tmId, true).log == rm.log + [Recover]
  {
    var mine := Mine(Recovered(rm), tmId, rmId);
    var log := Registered(rm, rmId, tmId, true).log;
    assert log == rm.log + [Recover] + Forgets(mine);
    assert log[|rm.log| + 1..] == Forgets(mine);
    ForgetsExactly(mine);
  }

  /** `forget` is requested for exactly the XIDs in the list. */
  lemma ForgetsExactly(xids: seq<XaTransactionId>)
    ensures forall x :: Forget(x) in Forgets(xids) <==> x in xids
  {
    forall x
      ensures Forget(x) in Forgets(xids) <==> x in xids
    {
      if Forget(x) in Forgets(xids) {
        var i :| 0 <= i < |xids| && Forgets(xids)[i] == Forget(x);
        assert xids[i] == x;
      }
      if x in xids {
        var i :| 0 <= i < |xids| && xids[i] == x;
        assert Forgets(xids)[i] == Forget(x);
      }
    }
  }

  // ---------------------------------------------------------------------------
  // The phases of a two-phase commit, each followed by a compensating rollback when it failed.

  /** A compensating rollback that failed: after which phase, and the registry it was sent to. */
  datatype RollbackFailure = RollbackFailure(phase: Action, before: Registry)

  /** The registry after some phases, the fan-outs performed, and the rollback failure that stopped them. */
  datatype PhaseRun = PhaseRun(rms: Registry, actions: seq<Action>, rollbackFailure: Option<RollbackFailure>)

  const TwoPhaseCommit: seq<Action> := [EndSuccessAction, PrepareAction, CommitAction]

  /**
   * One phase of `commit_transaction`: fan `phase` out; if anybody failed, fan a rollback out
   * (`try_rollback_after`). Only a failure of that rollback is a failure of the step.
   */
  function Step(rms: Registry, tmId: u64, globalTid: u64, phase: Action): PhaseRun {
    var afterPhase := Advanced(rms, phase, globalTid, tmId);
    if AllOk(Replies(rms, phase, globalTid, tmId)) then PhaseRun(afterPhase, [phase], None)
    else
      PhaseRun(
        Advanced(afterPhase, RollbackAction, globalTid, tmId),
        [phase, RollbackAction],
        if AllOk(Replies(afterPhase, RollbackAction, globalTid, tmId)) then None
        else Some(RollbackFailure(phase, afterPhase)))
  }

  /** `Step` for the branches of `globalTid`, as a function of the registry and the phase. */
  function StepOf(tmId: u64, globalTid: u64): (Registry, Action) -> PhaseRun {
    (rms: Registry, phase: Action) => Step(rms, tmId, globalTid, phase)
  }

  /** Phases run in order by `step`, stopping only at a failed compensating rollback. */
  function Run(step: (Registry, Action) -> PhaseRun, rms: Registry, phases: seq<Action>): PhaseRun
    decreases |phases|
  {
    if phases == [] then PhaseRun(rms, [], None)
    else
      var first := step(rms, phases[0]);
      if first.rollbackFailure.Some? then first
      else
        var rest := Run(step, first.rms, phases[1..]);
        PhaseRun(rest.rms, first.actions + rest.actions, rest.rollbackFailure)
  }

  /** The run of `commit_transaction`'s phases on the branches of `globalTid`. */
  function RunPhases(rms: Registry, tmId: u64, globalTid: u64, phases: seq<Action>): PhaseRun {
    Run(StepOf(tmId, globalTid), rms, phases)
  }

  /** The requests a sequence of fan-outs sends on branch `xid`. */
  function Requests(actions: seq<Action>, xid: XaTransactionId): (reqs: seq<Request>)
    ensures |reqs| == |actions|
  {
    if actions == [] then [] else [RequestFor(actions[0], xid)] + Requests(actions[1..], xid)
  }

  /** The fan-outs of a run other than the compensating rollbacks. */
  function PhasesOf(actions: seq<Action>): (phases: seq<Action>)
    ensures |phases| <= |actions|
  {
    if actions == [] then []
    else (if actions[0] == RollbackAction then [] else [actions[0]]) + PhasesOf(actions[1..])
  }

  lemma PhasesOfAppend(a: seq<Action>, b: seq<Action>)
    ensures PhasesOf(a + b) == PhasesOf(a) + PhasesOf(b)
  {
    if a != [] {
      assert (a + b)[0] == a[0];
      assert (a + b)[1..] == a[1..] + b;
      PhasesOfAppend(a[1..], b);
    } else {
      assert a + b == b;
    }
  }

  /** The registry after a sequence of fan-outs on the branches of `globalTid`, in order. */
  function AdvancedBy(rms: Registry, actions: seq<Action>, globalTid: u64, tmId: u64): Registry
    decreases |actions|
  {
    if actions == [] then rms
    else AdvancedBy(Advanced(rms, actions[0], globalTid, tmId), actions[1..], globalTid, tmId)
  }

  lemma {:induction false} AdvancedByAppend(rms: Registry, a: seq<Action>, b: seq<Action>, globalTid: u64, tmId: u64)
    ensures AdvancedBy(rms, a + b, globalTid, tmId) == AdvancedBy(AdvancedBy(rms, a, globalTid, tmId), b, globalTid, tmId)
    decreases |a|
  {
    if a != [] {
      assert (a + b)[0] == a[0];
      assert (a + b)[1..] == a[1..] + b;
      AdvancedByAppend(Advanced(rms, a[0], globalTid, tmId), a[1..], b, globalTid, tmId);
    } else {
      assert a + b == b;
    }
  }

  /** A sequence of fan-outs keeps the registered ids. */
  lemma {:induction false} AdvancedByKeys(rms: Registry, actions: seq<Action>, globalTid: u64, tmId: u64)
    ensures AdvancedBy(rms, actions, globalTid, tmId).Keys == rms.Keys
    decreases |actions|
  {
    if actions != [] {
      AdvancedByKeys(Advanced(rms, actions[0], globalTid, tmId), actions[1..], globalTid, tmId);
    }
  }

  /**
   * A sequence of fan-outs reaches every participant: its history grows by the requests of those
   * fan-outs on its own branch, in order.
   */
  lemma {:induction false} AdvancedByLog(rms: Registry, actions: seq<Action>, globalTid: u64, tmId: u64, id: u64)
    requires id in rms
    ensures id in AdvancedBy(rms, actions, globalTid, tmId)
    ensures AdvancedBy(rms, actions, globalTid, tmId)[id].log == rms[id].log + Requests(actions, BranchXid(globalTid, tmId, id))
    decreases |actions|
  {
    if actions != [] {
      var next := Advanced(rms, actions[0], globalTid, tmId);
      AdvancedByLog(next, actions[1..], globalTid, tmId, id);
    }
  }

  /** What a step may send: its phase, then a rollback if the phase failed; only that rollback can fail. */
  ghost predicate Shaped(step: PhaseRun, phase: Action) {
    && (step.actions == [phase] || step.actions == [phase, RollbackAction])
    && (step.rollbackFailure.Some? ==> step.actions == [phase, RollbackAction] && step.rollbackFailure.value.phase == phase)
  }

  /** One step sends its phase and, when that failed, a rollback, and nothing else. */
  lemma StepShape(rms: Registry, tmId: u64, globalTid: u64, phase: Action)
    ensures var step := Step(rms, tmId, globalTid, phase);
      Shaped(step, phase) && step.rms == AdvancedBy(rms, step.actions, globalTid, tmId)
  {
    if AllOk(Replies(rms, phase, globalTid, tmId)) {
      OnePhase(rms, phase, globalTid, tmId);
    } else {
      PhaseAndRollback(rms, phase, globalTid, tmId);
    }
  }

  lemma OnePhase(rms: Registry, phase: Action, globalTid: u64, tmId: u64)
    ensures AdvancedBy(rms, [phase], globalTid, tmId) == Advanced(rms, phase, globalTid, tmId)
  {
    assert [phase][1..] == [];
  }

  lemma PhaseAndRollback(rms: Registry, phase: Action, globalTid: u64, tmId: u64)
    ensures AdvancedBy(rms, [phase, RollbackAction], globalTid, tmId)
      == Advanced(Advanced(rms, phase, globalTid, tmId), RollbackAction, globalTid, tmId)
  {
    assert [phase, RollbackAction] == [phase] + [RollbackAction];
    AdvancedByCons(rms, phase, [RollbackAction], globalTid, tmId);
    OnePhase(Advanced(rms, phase, globalTid, tmId), RollbackAction, globalTid, tmId);
  }

  lemma AdvancedByCons(rms: Registry, a: Action, rest: seq<Action>, globalTid: u64, tmId: u64)
    ensures AdvancedBy(rms, [a] + rest, globalTid, tmId) == AdvancedBy(Advanced(rms, a, globalTid, tmId), rest, globalTid, tmId)
  {
    assert ([a] + rest)[1..] == rest;
  }

  /** If every step advances the registry by its own fan-outs, so does the run. */
  lemma {:induction false} RunAdvances(step: (Registry, Action) -> PhaseRun, rms: Registry, phases: seq<Action>, globalTid: u64, tmId: u64)
    requires forall r: Registry, a: Action :: step(r, a).rms == AdvancedBy(r, step(r, a).actions, globalTid, tmId)
    ensures Run(step, rms, phases).rms == AdvancedBy(rms, Run(step, rms, phases).actions, globalTid, tmId)
    decreases |phases|
  {
    if phases != [] {
      var first := step(rms, phases[0]);
      if first.rollbackFailure.None? {
        RunAdvances(step, first.rms, phases[1..], globalTid, tmId);
        AdvancedByAppend(rms, first.actions, Run(step, first.rms, phases[1..]).actions, globalTid, tmId);
      }
    }
  }

  lemma PrefixCons(phases: seq<Action>, rest: seq<Action>)
    requires 0 < |phases| && |rest| <= |phases| - 1 && rest == phases[1..][..|rest|]
    ensures [phases[0]] + rest == phases[..|rest| + 1]
  {
  }

  /** The phase a shaped step is about is the only phase among its fan-outs. */
  lemma ShapedPhases(step: PhaseRun, phase: Action)
    requires Shaped(step, phase) && phase != RollbackAction
    ensures PhasesOf(step.actions) == [phase]
    ensures step.actions[|step.actions| - 1] == (if step.actions == [phase] then phase else RollbackAction)
  {
    assert PhasesOf([phase, RollbackAction]) == [phase] + PhasesOf([RollbackAction]);
  }

  /** A run that ended without a rollback failure performed exactly `phases`. */
  ghost predicate Completed(run: PhaseRun, phases: seq<Action>) {
    run.rollbackFailure.None? ==> PhasesOf(run.actions) == phases
  }

  /**
   * A run that ended with a rollback failure performed a prefix of `phases`, the last of which is
   * the one whose compensating rollback failed, and stopped right after that rollback.
   */
  ghost predicate StoppedIn(run: PhaseRun, phases: seq<Action>) {
    run.rollbackFailure.Some? ==>
      var done := PhasesOf(run.actions);
      && 0 < |done| <= |phases| && done == phases[..|done|]
      && done[|done| - 1] == run.rollbackFailure.value.phase
      && run.actions[|run.actions| - 1] == RollbackAction
  }

  /** The fan-outs of one phase followed by a run that performed all the other phases. */
  lemma CompletedCons(first: seq<Action>, rest: PhaseRun, phases: seq<Action>)
    requires phases != [] && PhasesOf(first) == [phases[0]] && Completed(rest, phases[1..])
    ensures Completed(PhaseRun(rest.rms, first + rest.actions, rest.rollbackFailure), phases)
  {
    if rest.rollbackFailure.None? {
      PhasesOfAppend(first, rest.actions);
      assert phases == [phases[0]] + phases[1..];
    }
  }

  /** The fan-outs of one phase followed by a run stopped in one of the other phases. */
  lemma StoppedCons(first: seq<Action>, rest: PhaseRun, phases: seq<Action>)
    requires phases != [] && PhasesOf(first) == [phases[0]] && StoppedIn(rest, phases[1..])
    ensures StoppedIn(PhaseRun(rest.rms, first + rest.actions, rest.rollbackFailure), phases)
  {
    if rest.rollbackFailure.Some? {
      PhasesOfAppend(first, rest.actions);
      PrefixCons(phases, PhasesOf(rest.actions));
      assert (first + rest.actions)[|first + rest.actions| - 1] == rest.actions[|rest.actions| - 1];
    }
  }

  /** Prefixing a successful shaped step for the first phase to a run of the other phases. */
  lemma OrderCons(first: PhaseRun, rest: PhaseRun, phases: seq<Action>)
    requires phases != [] && phases[0] != RollbackAction
    requires Shaped(first, phases[0]) && first.rollbackFailure.None?
    requires Completed(rest, phases[1..]) && StoppedIn(rest, phases[1..])
    ensures var run := PhaseRun(rest.rms, first.actions + rest.actions, rest.rollbackFailure);
      Completed(run, phases) && StoppedIn(run, phases)
  {
    ShapedPhases(first, phases[0]);
    CompletedCons(first.actions, rest, phases);
    StoppedCons(first.actions, rest, phases);
  }

  /** A run of shaped steps performs the phases in order, and stops right after a failed rollback. */
  lemma {:induction false} RunOrder(step: (Registry, Action) -> PhaseRun, rms: Registry, phases: seq<Action>)
    requires RollbackAction !in phases
    requires forall r: Registry, a: Action :: Shaped(step(r, a), a)
    ensures Completed(Run(step, rms, phases), phases) && StoppedIn(Run(step, rms, phases), phases)
    decreases |phases|
  {
    if phases != [] {
      var first := step(rms, phases[0]);
      if first.rollbackFailure.None? {
        RunOrder(step, first.rms, phases[1..]);
        OrderCons(first, Run(step, first.rms, phases[1..]), phases);
      } else {
        ShapedPhases(first, phases[0]);
      }
    }
  }

  /**
   * The phases run in the given order and reach every participant: each participant's history
   * grows by exactly the run's fan-outs on its own branch, and nobody joins or leaves. A run that
   * ends without a rollback failure has performed every phase; one that ends with it has performed
   * a prefix of the phases, the last of which is the one whose compensating rollback failed, and
   * stops right after that rollback.
   */
  lemma RunPhasesShape(rms: Registry, tmId: u64, globalTid: u64, phases: seq<Action>)
    requires RollbackAction !in phases
    ensures var run := RunPhases(rms, tmId, globalTid, phases);
      && run.rms.Keys == rms.Keys
      && (forall id :: id in rms ==> run.rms[id].log == rms[id].log + Requests(run.actions, BranchXid(globalTid, tmId, id)))
      && (run.rollbackFailure.None? ==> PhasesOf(run.actions) == phases)
      && (run.rollbackFailure.Some? ==>
            var done := PhasesOf(run.actions);
            && 0 < |done| <= |phases| && done == phases[..|done|]
            && done[|done| - 1] == run.rollbackFailure.value.phase
            && run.actions[|run.actions| - 1] == RollbackAction)
  {
    var step := StepOf(tmId, globalTid);
    StepsShaped(tmId, globalTid);
    RunOrder(step, rms, phases);
    RunAdvances(step, rms, phases, globalTid, tmId);
    AdvancedByAll(rms, Run(step, rms, phases).actions, globalTid, tmId);
  }

  lemma StepsShaped(tmId: u64, globalTid: u64)
    ensures forall r: Registry, a: Action ::
      Shaped(StepOf(tmId, globalTid)(r, a), a)
      && StepOf(tmId, globalTid)(r, a).rms == AdvancedBy(r, StepOf(tmId, globalTid)(r, a).actions, globalTid, tmId)
  {
    forall r: Registry, a: Action
      ensures Shaped(StepOf(tmId, globalTid)(r, a), a)
      ensures StepOf(tmId, globalTid)(r, a).rms == AdvancedBy(r, StepOf(tmId, globalTid)(r, a).actions, globalTid, tmId)
    {
      StepShape(r, tmId, globalTid, a);
    }
  }

  lemma AdvancedByAll(rms: Registry, actions: seq<Action>, globalTid: u64, tmId: u64)
    ensures AdvancedBy(rms, actions, globalTid, tmId).Keys == rms.Keys
    ensures forall id :: id in rms ==>
      AdvancedBy(rms, actions, globalTid, tmId)[id].log == rms[id].log + Requests(actions, BranchXid(globalTid, tmId, id))
  {
    AdvancedByKeys(rms, actions, globalTid, tmId);
    forall id | id in rms
      ensures AdvancedBy(rms, actions, globalTid, tmId)[id].log == rms[id].log + Requests(actions, BranchXid(globalTid, tmId, id))
    {
      AdvancedByLog(rms, actions, globalTid, tmId, id);
    }
  }

  /** A run of three phases, step by step. */
  lemma RunThree(step: (Registry, Action) -> PhaseRun, rms: Registry, a: Action, b: Action, c: Action)
    ensures var s1 := step(rms, a);
      var s2 := step(s1.rms, b);
      var s3 := step(s2.rms, c);
      var run := Run(step, rms, [a, b, c]);
      && (s1.rollbackFailure.Some? ==> run == s1)
      && (s1.rollbackFailure.None? && s2.rollbackFailure.Some? ==>
            run == PhaseRun(s2.rms, s1.actions + s2.actions, s2.rollbackFailure))
      && (s1.rollbackFailure.None? && s2.rollbackFailure.None? ==>
            run == PhaseRun(s3.rms, s1.actions + s2.actions + s3.actions, s3.rollbackFailure))
  {
    assert [a, b, c][1..] == [b, c] && [b, c][1..] == [c] && [c][1..] == [];
    var s1 := step(rms, a);
    var s2 := step(s1.rms, b);
    var s3 := step(s2.rms, c);
    if s1.rollbackFailure.None? && s2.rollbackFailure.None? {
      var last := Run(step, s2.rms, [c]);
      if s3.rollbackFailure.None? {
        assert Run(step, s3.rms, []) == PhaseRun(s3.rms, [], None);
        assert last == PhaseRun(s3.rms, s3.actions + [], None);
      } else {
        assert last == s3;
      }
      assert Run(step, s1.rms, [b, c]) == PhaseRun(s3.rms, s2.actions + s3.actions, s3.rollbackFailure);
    }
  }

  /** The answers of a participant that refuses to prepare and agrees to everything else. */
  function RefusePrepare(history: seq<Request>, req: Request): Reply {
    if req.Prepare? then Err(RmError.New(RmFailure, "cannot prepare")) else Ok(ReturnCodes.Ok)
  }

  /** The answers of a participant that agrees to everything. */
  function AgreeToAll(history: seq<Request>, req: Request): Reply {
    Ok(ReturnCodes.Ok)
  }

  /** The recovery scans of both: nothing to recover. */
  function NothingToRecover(history: seq<Request>, req: Request): ScanReply {
    Ok([])
  }

  /** Two participants, of which the first refuses to prepare. */
  function OneRefuses(): Registry {
    map[1 := Participant(RefusePrepare, NothingToRecover, []), 2 := Participant(AgreeToAll, NothingToRecover, [])]
  }

  /** A registry of the two participants of `OneRefuses`, whatever their histories. */
  ghost predicate LikeOneRefuses(rms: Registry) {
    rms.Keys == {1, 2} && rms[1].respond == RefusePrepare && rms[2].respond == AgreeToAll
  }

  lemma OneRefusesReplies(rms: Registry, a: Action, globalTid: u64, tmId: u64)
    requires LikeOneRefuses(rms)
    ensures AllOk(Replies(rms, a, globalTid, tmId)) <==> a != PrepareAction
  {
    var replies := Replies(rms, a, globalTid, tmId);
    assert replies[1] == RefusePrepare(rms[1].log, RequestFor(a, BranchXid(globalTid, tmId, 1)));
    assert replies[2].Ok?;
  }

  lemma OneRefusesAdvanced(rms: Registry, a: Action, globalTid: u64, tmId: u64)
    requires LikeOneRefuses(rms)
    ensures LikeOneRefuses(Advanced(rms, a, globalTid, tmId))
  {
  }

  /** On such a registry only the prepare phase fails, and the rollback after it succeeds. */
  lemma OneRefusesStep(rms: Registry, a: Action, globalTid: u64, tmId: u64)
    requires LikeOneRefuses(rms) && a != RollbackAction
    ensures LikeOneRefuses(StepOf(tmId, globalTid)(rms, a).rms)
    ensures StepOf(tmId, globalTid)(rms, a).rollbackFailure.None?
    ensures StepOf(tmId, globalTid)(rms, a).actions == if a == PrepareAction then [a, RollbackAction] else [a]
  {
    OneRefusesReplies(rms, a, globalTid, tmId);
    var after := Advanced(rms, a, globalTid, tmId);
    OneRefusesAdvanced(rms, a, globalTid, tmId);
    OneRefusesReplies(after, RollbackAction, globalTid, tmId);
    OneRefusesAdvanced(after, RollbackAction, globalTid, tmId);
  }

  /**
   * A failed phase whose compensating rollback succeeds does not stop the commit: on a registry of
   * two participants, one of which refuses to prepare, the prepare phase fails, everybody is rolled
   * back, and the commit phase is still sent, so the run ends without failure (and
   * `commit_transaction` reports `Ok` with status COMMITTED), whatever the transaction number,
   * the coordinator's id and the participants' histories.
   */
  lemma FallThrough(rms: Registry, globalTid: u64, tmId: u64)
    requires LikeOneRefuses(rms)
    ensures var run := RunPhases(rms, tmId, globalTid, TwoPhaseCommit);
      && !AllOk(Replies(Advanced(rms, EndSuccessAction, globalTid, tmId), PrepareAction, globalTid, tmId))
      && run.rollbackFailure.None?
      && run.actions == [EndSuccessAction, PrepareAction, RollbackAction, CommitAction]
  {
    var step := StepOf(tmId, globalTid);
    RunThree(step, rms, EndSuccessAction, PrepareAction, CommitAction);
    OneRefusesStep(rms, EndSuccessAction, globalTid, tmId);
    var s1 := step(rms, EndSuccessAction);
    OneRefusesReplies(rms, EndSuccessAction, globalTid, tmId);
    assert s1.rms == Advanced(rms, EndSuccessAction, globalTid, tmId);
    OneRefusesReplies(s1.rms, PrepareAction, globalTid, tmId);
    OneRefusesStep(s1.rms, PrepareAction, globalTid, tmId);
    var s2 := step(s1.rms, PrepareAction);
    OneRefusesStep(s2.rms, CommitAction, globalTid, tmId);
    FallThroughActions();
  }

  /** Such a registry exists: the two participants of `OneRefuses`, before any request. */
  lemma FallThroughExample(globalTid: u64, tmId: u64)
    ensures OneRefuses().Keys == {1, 2}
    ensures var run := RunPhases(OneRefuses(), tmId, globalTid, TwoPhaseCommit);
      run.rollbackFailure.None? && run.actions == [EndSuccessAction, PrepareAction, RollbackAction, CommitAction]
  {
    var rms := OneRefuses();
    assert rms[1].respond == RefusePrepare && rms[2].respond == AgreeToAll;
    FallThrough(rms, globalTid, tmId);
  }

  lemma FallThroughActions()
    ensures [EndSuccessAction] + [PrepareAction, RollbackAction] + [CommitAction]
      == [EndSuccessAction, PrepareAction, RollbackAction, CommitAction]
  {
  }

  /**
   * The error `try_rollback_after` reports when the compensating rollback after `failure.phase`
   * failed: `Inconsistency` naming the phase, with the rollback's own errors.
   */
  ghost predicate InconsistencyReported(r: Result<(), XaError>, failure: RollbackFailure, globalTid: u64, tmId: u64) {
    && r.Err? && r.error.Inconsistency?
    && r.error.description == RollbackFailedMessage(MethodName(failure.phase))
    && multiset(r.error.rollbackErrors) == ErrorBag(Replies(failure.before, RollbackAction, globalTid, tmId))
  }

  /** The registry `start_transaction` retries on: after the first start, `end_failure` and `rollback`. */
  function CleanedAfterFailedStart(rms: Registry, globalTid: u64, tmId: u64): Registry {
    var started := Advanced(rms, StartAction, globalTid, tmId);
    Advanced(Advanced(started, EndFailureAction, globalTid, tmId), RollbackAction, globalTid, tmId)
  }

  // ---------------------------------------------------------------------------

  class SimpleTransactionManager {
    const name: string
    /** The hash of the name with its low eight bits cleared. */
    const id: u64
    var rms: Registry
    var lastGtid: u64
    var currentGtid: Option<u64>
    var status: TmStatus

    /**
     * What holds between calls: the id's low byte is clear; the status is one of the six that a
     * call can leave behind (ACTIVATING and ROLLINGBACK exist only during a call, PREPARING and
     * PREPARED are never assigned); an active transaction is the last one started; and a
     * transaction that is being or has been committed, or was rolled back, has a number.
     */
    ghost predicate Valid()
      reads this
    {
      && id % 256 == 0
      && status in {IDLE, ACTIVE, COMMITTING, COMMITTED, ROLLBACK_ONLY, ROLLEDBACK}
      && (status == ACTIVE ==> currentGtid == Some(lastGtid))
      && (status in {COMMITTING, COMMITTED, ROLLEDBACK} ==> currentGtid.Some?)
    }

    /** `SimpleTransactionManager::new`; `hash` is what `DefaultHasher` makes of the name. */
    constructor (name: string, hash: u64)
      ensures this.name == name && id == hash - hash % 256
      ensures rms == map[] && lastGtid == 0 && currentGtid == None && status == IDLE
      ensures Valid()
    {
      this.name := name;
      id := hash - hash % 256;
      rms := map[];
      lastGtid := 0;
      currentGtid := None;
      status := IDLE;
    }

    /** `get_gtid` */
    method GetGtid() returns (g: Option<u64>)
      ensures g == currentGtid
    {
      g := currentGtid;
    }

    /** `next_global_tid`: the counter moves on by one, and its new value is the next number. */
    method NextGlobalTid() returns (g: u64)
      modifies this
      ensures lastGtid == (old(lastGtid) + 1) % U64_MODULUS && g == lastGtid
      ensures rms == old(rms) && currentGtid == old(currentGtid) && status == old(status)
    {
      lastGtid := (lastGtid + 1) % U64_MODULUS;
      g := lastGtid;
    }

    /** `get_current_gtid`: the current transaction's number, or `Usage` when there is none. */
    method GetCurrentGtid() returns (r: Result<u64, XaError>)
      ensures currentGtid.None? ==> r == Err(Usage(NoCurrentTransaction))
      ensures currentGtid.Some? ==> r == Ok(currentGtid.value)
    {
      match currentGtid
      case None => r := Err(Usage(NoCurrentTransaction));
      case Some(u) => r := Ok(u);
    }

    /**
     * `validate_and_set_status`: the status becomes `next` exactly when the current status is one
     * of `required`; otherwise `UsageDetails` and nothing changes.
     */
    method ValidateAndSetStatus(required: TmStatus, next: TmStatus) returns (r: Result<(), XaError>)
      modifies this
      ensures Contains(required, old(status)) ==> r == Ok(()) && status == next
      ensures !Contains(required, old(status)) ==>
        r == Err(UsageDetails(WrongStatusMessage(old(status), required))) && status == old(status)
      ensures rms == old(rms) && lastGtid == old(lastGtid) && currentGtid == old(currentGtid)
    {
      if Contains(required, status) {
        status := next;
        r := Ok(());
      } else {
        r := Err(UsageDetails(WrongStatusMessage(status, required)));
      }
    }

    /**
     * `try_rollback_after`: roll everybody back and end in IDLE; a failed rollback is reported as
     * `Inconsistency` with the rollback's errors.
     */
    method TryRollbackAfter(globalTid: u64, methodName: string) returns (r: Result<(), XaError>)
      modifies this
      ensures status == IDLE && rms == Advanced(old(rms), RollbackAction, globalTid, id)
      ensures r.Ok? <==> AllOk(Replies(old(rms), RollbackAction, globalTid, id))
      ensures r.Err? ==>
        && r.error.Inconsistency? && r.error.description == RollbackFailedMessage(methodName)
        && multiset(r.error.rollbackErrors) == ErrorBag(Replies(old(rms), RollbackAction, globalTid, id))
      ensures lastGtid == old(lastGtid) && currentGtid == old(currentGtid)
    {
      status := ROLLINGBACK;
      var result;
      rms, result := RmAction(rms, RollbackAction, globalTid, id);
      status := IDLE;
      match result {
        case Err(e) =>
          if e.RmErrors? {
            r := Err(Inconsistency(RollbackFailedMessage(methodName), e.errors));
          } else {
            r := Err(e);
          }
        case Ok(_) =>
          r := Ok(());
      }
    }

    /** One of the three phases of `commit_transaction`, with its compensating rollback. */
    method Phase(globalTid: u64, phase: Action) returns (r: Result<(), XaError>)
      modifies this
      ensures var step := StepOf(id, globalTid)(old(rms), phase);
        && rms == step.rms
        && (r.Ok? <==> step.rollbackFailure.None?)
        && (r.Err? ==> InconsistencyReported(r, step.rollbackFailure.value, globalTid, id))
        && status == (if step.actions == [phase] then old(status) else IDLE)
      ensures lastGtid == old(lastGtid) && currentGtid == old(currentGtid)
    {
      ghost var before := rms;
      ghost var step := Step(before, id, globalTid, phase);
      assert StepOf(id, globalTid)(before, phase) == step;
      var result;
      rms, result := RmAction(rms, phase, globalTid, id);
      if result.Err? {
        ghost var afterPhase := rms;
        r := TryRollbackAfter(globalTid, MethodName(phase));
        assert step == PhaseRun(rms, [phase, RollbackAction], if r.Ok? then None else Some(RollbackFailure(phase, afterPhase)));
      } else {
        r := Ok(());
        assert step == PhaseRun(rms, [phase], None);
      }
    }

    /**
     * `register`: an id already in use is refused with `Usage` and nothing happens; otherwise the
     * participant (after the cleanup, if asked for) is stored under `rmId` and nothing else changes.
     */
    method Register(rm: Participant, rmId: u64, cleanup: bool) returns (r: Result<(), XaError>)
      modifies this
      ensures old(rmId in rms) ==> r == Err(Usage(RmIdInUse)) && rms == old(rms)
      ensures old(rmId !in rms) ==> r == Ok(()) && rms == old(rms)[rmId := Registered(rm, rmId, id, cleanup)]
      ensures status == old(status) && lastGtid == old(lastGtid) && currentGtid == old(currentGtid)
    {
      if rmId in rms {
        return Err(Usage(RmIdInUse));
      }
      var p := rm;
      if cleanup {
        var found := ScanAnswer(p, Recover);
        p := Sent(p, Recover);
        var xids := if found.Ok? then found.value else [];
        p := ForgetMine(p, xids, id, rmId);
      }
      rms := rms[rmId := p];
      r := Ok(());
    }

    /** `unregister`: always `Ok`; removes `rmId` if present, and only it. */
    method Unregister(rmId: u64) returns (r: Result<(), XaError>)
      modifies this
      ensures r == Ok(()) && rms == old(rms) - {rmId}
      ensures rmId !in rms && forall other :: other != rmId && other in old(rms) ==> other in rms && rms[other] == old(rms)[other]
      ensures rmId !in old(rms) ==> rms == old(rms)
      ensures status == old(status) && lastGtid == old(lastGtid) && currentGtid == old(currentGtid)
    {
      rms := rms - {rmId};
      r := Ok(());
    }

    /**
     * `start_transaction`: allowed from IDLE, COMMITTED and ROLLEDBACK only. The next number is
     * taken whatever happens next. If every participant starts, the transaction is ACTIVE; otherwise
     * everybody is sent `end_failure` and `rollback` (errors ignored) and the start is tried once
     * more: success makes it ACTIVE, failure reports that second attempt's errors and leaves IDLE
     * with the current transaction as it was.
     */
    method StartTransaction() returns (r: Result<(), XaError>)
      modifies this
      ensures !Contains(StartGuard, old(status)) ==>
        && r == Err(UsageDetails(WrongStatusMessage(old(status), StartGuard)))
        && rms == old(rms) && lastGtid == old(lastGtid) && currentGtid == old(currentGtid) && status == old(status)
      ensures Contains(StartGuard, old(status)) ==>
        var g := (old(lastGtid) + 1) % U64_MODULUS;
        var first := Replies(old(rms), StartAction, g, id);
        var retryOn := CleanedAfterFailedStart(old(rms), g, id);
        && lastGtid == g
        && (AllOk(first) ==>
              r == Ok(()) && status == ACTIVE && currentGtid == Some(g) && rms == Advanced(old(rms), StartAction, g, id))
        && (!AllOk(first) ==>
              && rms == Advanced(retryOn, StartAction, g, id)
              && Reported(r, Replies(retryOn, StartAction, g, id))
              && (r.Ok? ==> status == ACTIVE && currentGtid == Some(g))
              && (r.Err? ==> status == IDLE && currentGtid == old(currentGtid)))
      ensures old(Valid()) ==> Valid()
    {
      r := ValidateAndSetStatus(StartGuard, ACTIVATING);
      if r.Err? {
        return;
      }
      var g := NextGlobalTid();
      var started;
      rms, started := RmAction(rms, StartAction, g, id);
      if started.Ok? {
        currentGtid := Some(g);
        status := ACTIVE;
        return Ok(());
      }
      r := RetryStart(g);
    }

    /**
     * The second attempt of `start_transaction`: `end_failure` and `rollback` to everybody, their
     * errors ignored, then `start` once more.
     */
    method RetryStart(g: u64) returns (r: Result<(), XaError>)
      modifies this
      ensures var retryOn := Advanced(Advanced(old(rms), EndFailureAction, g, id), RollbackAction, g, id);
        && rms == Advanced(retryOn, StartAction, g, id)
        && Reported(r, Replies(retryOn, StartAction, g, id))
        && (r.Ok? ==> status == ACTIVE && currentGtid == Some(g))
        && (r.Err? ==> status == IDLE && currentGtid == old(currentGtid))
      ensures lastGtid == old(lastGtid)
    {
      var ignored, started;
      rms, ignored := RmAction(rms, EndFailureAction, g, id);
      rms, ignored := RmAction(rms, RollbackAction, g, id);
      rms, started := RmAction(rms, StartAction, g, id);
      if started.Ok? {
        currentGtid := Some(g);
        status := ACTIVE;
        r := Ok(());
      } else {
        status := IDLE;
        r := started;
      }
    }

    /** The one-phase branch of `commit_transaction`: `commit_one_phase` to everybody. */
    method OnePhase(globalTid: u64) returns (r: Result<(), XaError>)
      modifies this
      ensures rms == Advanced(old(rms), CommitOnePhaseAction, globalTid, id)
      ensures Reported(r, Replies(old(rms), CommitOnePhaseAction, globalTid, id))
      ensures status == old(status) && lastGtid == old(lastGtid) && currentGtid == old(currentGtid)
    {
      rms, r := RmAction(rms, CommitOnePhaseAction, globalTid, id);
    }

    /**
     * The two-phase branch of `commit_transaction`: end_success, prepare and commit, each followed
     * by a compensating rollback when it failed, as `RunPhases` describes. A failed rollback stops
     * it with `Inconsistency`, and the status is then IDLE.
     */
    method TwoPhase(globalTid: u64) returns (r: Result<(), XaError>)
      modifies this
      ensures var run := RunPhases(old(rms), id, globalTid, TwoPhaseCommit);
        && rms == run.rms
        && (r.Ok? <==> run.rollbackFailure.None?)
        && (r.Err? ==> InconsistencyReported(r, run.rollbackFailure.value, globalTid, id) && status == IDLE)
      ensures lastGtid == old(lastGtid) && currentGtid == old(currentGtid)
    {
      RunThree(StepOf(id, globalTid), rms, EndSuccessAction, PrepareAction, CommitAction);
      r := Phase(globalTid, EndSuccessAction);
      if r.Err? {
        return;
      }
      r := Phase(globalTid, PrepareAction);
      if r.Err? {
        return;
      }
      r := Phase(globalTid, CommitAction);
    }

    /**
     * `commit_transaction`: needs a current transaction and status ACTIVE. With fewer than two
     * participants it sends `commit_one_phase` only, and a failure leaves the status COMMITTING.
     * Otherwise it runs end_success, prepare and commit as `RunPhases` describes: only a failed
     * compensating rollback stops it, with `Inconsistency` and status IDLE; else it ends COMMITTED.
     */
    method CommitTransaction() returns (r: Result<(), XaError>)
      modifies this
      ensures old(currentGtid).None? ==> r == Err(Usage(NoCurrentTransaction)) && rms == old(rms) && status == old(status)
      ensures old(currentGtid).Some? && !Contains(ACTIVE, old(status)) ==>
        r == Err(UsageDetails(WrongStatusMessage(old(status), ACTIVE))) && rms == old(rms) && status == old(status)
      ensures old(currentGtid).Some? && Contains(ACTIVE, old(status)) && |old(rms)| < 2 ==>
        var g := old(currentGtid).value;
        var replies := Replies(old(rms), CommitOnePhaseAction, g, id);
        && rms == Advanced(old(rms), CommitOnePhaseAction, g, id)
        && Reported(r, replies)
        && status == (if r.Ok? then COMMITTED else COMMITTING)
      ensures old(currentGtid).Some? && Contains(ACTIVE, old(status)) && |old(rms)| >= 2 ==>
        var g := old(currentGtid).value;
        var run := RunPhases(old(rms), id, g, TwoPhaseCommit);
        && rms == run.rms
        && (run.rollbackFailure.None? ==> r == Ok(()) && status == COMMITTED)
        && (run.rollbackFailure.Some? ==> InconsistencyReported(r, run.rollbackFailure.value, g, id) && status == IDLE)
      ensures r.Ok? ==> Contains(ACTIVE, old(status)) && status == COMMITTED
      ensures lastGtid == old(lastGtid) && currentGtid == old(currentGtid)
      ensures old(Valid()) ==> Valid()
    {
      var g :- GetCurrentGtid();
      r := ValidateAndSetStatus(ACTIVE, COMMITTING);
      if r.Err? {
        return;
      }
      if |rms| < 2 {
        r := OnePhase(g);
      } else {
        r := TwoPhase(g);
      }
      if r.Err? {
        return;
      }
      status := COMMITTED;
      r := Ok(());
    }

    /**
     * `rollback_transaction`: needs a current transaction. From ACTIVE it sends `end_failure` and
     * then `rollback`; from PREPARED or ROLLBACK_ONLY only `rollback`; from any other status
     * nothing. The first failing fan-out is reported and leaves the status as it was; otherwise the
     * status becomes ROLLEDBACK.
     */
    method RollbackTransaction() returns (r: Result<(), XaError>)
      modifies this
      ensures old(currentGtid).None? ==> r == Err(Usage(NoCurrentTransaction)) && rms == old(rms) && status == old(status)
      ensures old(currentGtid).Some? && old(status) == ACTIVE ==>
        var g := old(currentGtid).value;
        var ended := Replies(old(rms), EndFailureAction, g, id);
        var afterEnd := Advanced(old(rms), EndFailureAction, g, id);
        && (!AllOk(ended) ==> Reported(r, ended) && rms == afterEnd && status == ACTIVE)
        && (AllOk(ended) ==>
              && rms == Advanced(afterEnd, RollbackAction, g, id)
              && Reported(r, Replies(afterEnd, RollbackAction, g, id))
              && status == (if r.Ok? then ROLLEDBACK else ACTIVE))
      ensures old(currentGtid).Some? && old(status) in {PREPARED, ROLLBACK_ONLY} ==>
        var g := old(currentGtid).value;
        && rms == Advanced(old(rms), RollbackAction, g, id)
        && Reported(r, Replies(old(rms), RollbackAction, g, id))
        && status == (if r.Ok? then ROLLEDBACK else old(status))
      ensures old(currentGtid).Some? && old(status) !in {ACTIVE, PREPARED, ROLLBACK_ONLY} ==>
        r == Ok(()) && rms == old(rms) && status == ROLLEDBACK
      ensures r.Ok? ==> status == ROLLEDBACK
      ensures lastGtid == old(lastGtid) && currentGtid == old(currentGtid)
      ensures old(Valid()) ==> Valid()
    {
      var g :- GetCurrentGtid();
      if status == ACTIVE {
        rms, r := RmAction(rms, EndFailureAction, g, id);
        if r.Err? {
          return;
        }
        rms, r := RmAction(rms, RollbackAction, g, id);
        if r.Err? {
          return;
        }
      } else if status == PREPARED || status == ROLLBACK_ONLY {
        rms, r := RmAction(rms, RollbackAction, g, id);
        if r.Err? {
          return;
        }
      }
      status := ROLLEDBACK;
      r := Ok(());
    }

    /** `set_transaction_rollbackonly`: succeeds exactly from IDLE, ACTIVE, PREPARED and ROLLBACK_ONLY. */
    method SetTransactionRollbackOnly() returns (r: Result<(), XaError>)
      modifies this
      ensures Contains(RollbackOnlyGuard, old(status)) ==> r == Ok(()) && status == ROLLBACK_ONLY
      ensures !Contains(RollbackOnlyGuard, old(status)) ==>
        r == Err(UsageDetails(WrongStatusMessage(old(status), RollbackOnlyGuard))) && status == old(status)
      ensures IsStatus(old(status)) ==> (r.Ok? <==> old(status) in {IDLE, ACTIVE, PREPARED, ROLLBACK_ONLY})
      ensures rms == old(rms) && lastGtid == old(lastGtid) && currentGtid == old(currentGtid)
      ensures old(Valid()) ==> Valid()
    {
      if IsStatus(status) {
        GuardMembership(status);
      }
      r := ValidateAndSetStatus(RollbackOnlyGuard, ROLLBACK_ONLY);
    }

    /** `get_status` */
    method GetStatus() returns (r: Result<TmStatus, XaError>)
      ensures r == Ok(status)
    {
      r := Ok(status);
    }

    /**
     * `Drop`: while a transaction may be open (ACTIVATING, ACTIVE, PREPARING, PREPARED,
     * ROLLBACK_ONLY, ROLLINGBACK) everybody is sent `rollback` on the current number, or 0 if
     * there is none, and the errors are discarded; otherwise nothing happens.
     */
    method Drop()
      modifies this
      ensures Contains(DropGuard, old(status)) ==> rms == Advanced(old(rms), RollbackAction, old(currentGtid).GetOr(0), id)
      ensures !Contains(DropGuard, old(status)) ==> rms == old(rms)
      ensures status == old(status) && lastGtid == old(lastGtid) && currentGtid == old(currentGtid)
    {
      if Contains(DropGuard, status) {
        var g := currentGtid.GetOr(0);
        var ignored;
        rms, ignored := RmAction(rms, RollbackAction, g, id);
      }
    }
  }
}
