/**
 * The coordinator's status bits (`TmStatus`) and the membership test its guards use.
 * Each status is one bit; a guard is the union of the statuses it admits.
 */
module TmStatuses {

  type TmStatus = bv32

  const IDLE: TmStatus := 0x0000_0001
  const ACTIVATING: TmStatus := 0x0000_0002
  const ACTIVE: TmStatus := 0x0000_0004
  const PREPARING: TmStatus := 0x0000_0008
  const PREPARED: TmStatus := 0x0000_0100
  const COMMITTING: TmStatus := 0x0000_0200
  const COMMITTED: TmStatus := 0x0000_0400
  const ROLLBACK_ONLY: TmStatus := 0x0000_0800
  const ROLLINGBACK: TmStatus := 0x0001_0000
  const ROLLEDBACK: TmStatus := 0x0002_0000

  /** The ten statuses, in declaration order. */
  const AllStatuses: seq<TmStatus> :=
    [IDLE, ACTIVATING, ACTIVE, PREPARING, PREPARED, COMMITTING, COMMITTED, ROLLBACK_ONLY, ROLLINGBACK, ROLLEDBACK]

  /** Their names, as the derived `Debug` prints them. */
  const StatusNames: seq<string> :=
    ["IDLE", "ACTIVATING", "ACTIVE", "PREPARING", "PREPARED", "COMMITTING", "COMMITTED", "ROLLBACK_ONLY", "ROLLINGBACK", "ROLLEDBACK"]

  /** A single status: one of the ten bits. */
  predicate IsStatus(s: TmStatus) {
    s in AllStatuses
  }

  /** `TmStatus::contains`: every bit of `other` is in `self`. */
  predicate Contains(self: TmStatus, other: TmStatus) {
    self & other == other
  }

  /** The guards the coordinator uses. */
  const StartGuard: TmStatus := IDLE | COMMITTED | ROLLEDBACK
  const RollbackOnlyGuard: TmStatus := IDLE | ACTIVE | PREPARED | ROLLBACK_ONLY
  const DropGuard: TmStatus := ACTIVATING | ACTIVE | PREPARING | PREPARED | ROLLBACK_ONLY | ROLLINGBACK

  /** The statuses are ten distinct single bits with the listed values. */
  lemma StatusesAreDistinctBits()
    ensures |AllStatuses| == 10
    ensures forall i :: 0 <= i < 10 ==> AllStatuses[i] != 0 && AllStatuses[i] & (AllStatuses[i] - 1) == 0
    ensures forall i, j :: 0 <= i < j < 10 ==> AllStatuses[i] & AllStatuses[j] == 0
  {
  }

  /** For a single status, the guard test is plain membership in the statuses the guard names. */
  lemma GuardMembership(s: TmStatus)
    requires IsStatus(s)
    ensures Contains(StartGuard, s) <==> s in {IDLE, COMMITTED, ROLLEDBACK}
    ensures Contains(RollbackOnlyGuard, s) <==> s in {IDLE, ACTIVE, PREPARED, ROLLBACK_ONLY}
    ensures Contains(DropGuard, s) <==> s in {ACTIVATING, ACTIVE, PREPARING, PREPARED, ROLLBACK_ONLY, ROLLINGBACK}
    ensures Contains(ACTIVE, s) <==> s == ACTIVE
  {
    if s == IDLE {
    } else if s == ACTIVATING {
    } else if s == ACTIVE {
    } else if s == PREPARING {
    } else if s == PREPARED {
    } else if s == COMMITTING {
    } else if s == COMMITTED {
    } else if s == ROLLBACK_ONLY {
    } else if s == ROLLINGBACK {
    } else {
      assert s == ROLLEDBACK;
    }
  }

  /** The `Debug` text of a status set: the names of its bits joined by " | ", or "(empty)". */
  function DebugText(bits: TmStatus): string {
    var names := NamesOf(bits, 0);
    if names == [] then "(empty)" else Join(names)
  }

  function NamesOf(bits: TmStatus, from: nat): seq<string>
    requires from <= 10
    decreases 10 - from
  {
    if from == 10 then []
    else if Contains(bits, AllStatuses[from]) then [StatusNames[from]] + NamesOf(bits, from + 1)
    else NamesOf(bits, from + 1)
  }

  function Join(parts: seq<string>): string
    requires parts != []
  {
    if |parts| == 1 then parts[0] else parts[0] + " | " + Join(parts[1..])
  }
}
