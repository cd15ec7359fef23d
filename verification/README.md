# dist_tx coordinator — a Dafny model

This project models the synchronous core of the Rust crate `dist_tx`. The crate is a
two-phase-commit coordinator in the style of the X/Open XA specification. The model covers:

- `SimpleTransactionManager` (`simple_transaction_manager.dfy`). The coordinator is a class with
  the source's fields: `rms`, `last_gtid`, `current_gtid`, `status`, and the constants `name` and `id`.
  - Its methods change those fields as the source does: register/unregister, start (with its
    single retry), one-phase and two-phase commit (with compensating rollbacks), rollback,
    rollback-only, and the `Drop` safety net.
  - The phases of a two-phase commit are also described by a function, `RunPhases`. Lemmas about
    it state the order of the phases, where a run stops, and what every participant receives.
- The fan-out `rm_action` (`fan_out.dfy`). It is a loop over the registry that sends one request to
  every participant on its own branch XID. Its result is stated independently of the `HashMap`
  iteration order: the errors are compared as a multiset.
- The XID `XaTransactionId` (`xa_transaction_id.dfy`): the checks of `try_new`, the binary
  layout of `as_bytes`, and the cursor loop of `parse`. The round trip is proved for one XID and
  for any number of XIDs, in both padding modes.
- The older id type `TransactionId` (`transaction_id.dfy`) and its encoding. That encoding is the
  same byte layout, so the XID parser reads it back.
- The XIDs the coordinator creates (`new_xatid`) and its test `is_my_xid_and_rm` (`branch_xid.dfy`).
- The status bits `TmStatus`, the `Flags` bits and `contains_only`, the decoders `from_i32` of
  `ReturnCode`, `ErrorCode` and the resource-manager error `Kind`, the error type `XaError` with its
  description, and the adapter `CRmWrapper`.

A participant (`Box<dyn ResourceManager>`) is modelled as a value, `Participant`. It holds two
oracle functions that answer a request from the history of requests received so far, plus that
history. Each participant is owned by exactly one registry entry, so no aliasing is lost.
"What a participant was sent" is stated through its history.

Little-endian `i32`/`u64` reading and writing (the `byteorder` crate) is modelled in
`little_endian.dfy`, with its round trips proved. Integers are unbounded in Dafny. The source's
widths are kept by subset types `int32`, `u32`, `u64`. `last_gtid += 1` is written with explicit
wrap-around modulo 2^64.

Where the documentation and the code disagree, the model follows the code:

- The comment above `commit_transaction` (src/tm/simple_transaction_manager.rs:344-349) says a failed
  commit ends in a failure or rolled-back status.
  - In the code, a failed phase whose compensating rollback succeeds does not stop the commit. The
    next phase is still sent, and the call ends `Ok` with status COMMITTED.
  - `FallThrough` proves this on a concrete two-participant registry.
- A failed one-phase commit returns through `?` and leaves the status COMMITTING.
- The status guards use bit-set `contains`, so the empty status would pass every guard. The
  contracts keep `Contains(..)`. `GuardMembership` shows that, for the ten real statuses, this is
  plain membership.

## Model

| member | source | states |
|---|---|---|
| ReturnCodes.FromI32 | src/return_code.rs:44-65 | the decoded code carries the input value back; it is a named code exactly for 100..107, 8..3 and 0, and `UnknownErrorCode(i)` otherwise |
| ReturnCodes.FromI32Injective | src/return_code.rs:44-65 | distinct inputs give distinct codes |
| ReturnCodes.FromI32OfCode | src/return_code.rs:3-40 | every named code is decoded from its own XA value |
| ErrorCodes.FromI32 | src/rm/error_code.rs:22-31 | the decoded code carries the input value; it is a named code exactly when -8 <= i <= -3 |
| ErrorCodes.FromI32Injective | src/rm/error_code.rs:22-31 | distinct inputs give distinct codes |
| RmErrors.FromI32 | src/rm/rm_error.rs:73-100 | the kind carries the input value; named exactly for 100..107, 8..3 and -3..-8; 0 and every other value give `UnknownErrorCode(i)` |
| RmErrors.FromI32Injective | src/rm/rm_error.rs:73-100 | distinct inputs give distinct kinds |
| RmErrors.NewThenGet | src/rm/rm_error.rs:9-19 | `new(k, s)` has kind `k` and description `s`, and is the only error with both |
| XaErrors.GetDescription | src/tm/xa_error.rs:25-35 | `RmErrors` has the fixed text; `Usage`, `UsageDetails`, `Inconsistency` and `ReadXid` describe as their text |
| XaErrors.DescriptionIgnoresErrorLists | src/tm/xa_error.rs:25-35 | the error lists of `RmErrors` and `Inconsistency` never affect the description |
| XaErrors.FromIoError | src/tm/xa_error.rs:38-42 | every I/O error becomes `ReadXid` with the I/O error's description |
| XaFlags.FlagsAreDistinctBits | src/rm/flags.rs:9-42 | each of the eight flags is a single bit, and no two share it |
| XaFlags.ContainsOnly | src/rm/flags.rs:48-50 | `a.contains_only(b)` holds exactly when the bits of `a` are a subset of those of `b` |
| XaFlags.ContainsOnlyReflexive | src/rm/flags.rs:48-50 | every flag set contains only itself; the empty set contains only anything |
| XaFlags.ContainsOnlyTransitive | src/rm/flags.rs:48-50 | `contains_only` is transitive |
| XaFlags.ContainsOnlyAntisymmetric | src/rm/flags.rs:48-50 | `contains_only` both ways means equal sets |
| XaFlags.ContainsOnlyUnion | src/rm/flags.rs:48-50 | a union contains only a pattern exactly when both parts do |
| XaFlags.FlagTestVectors | src/rm/flags.rs:59-70 | the assertions of the crate's flag test: RESUME or JOIN has bits 0x0820_0000, the default is 0, and the four `contains_only` checks |
| TmStatuses.StatusesAreDistinctBits | src/tm/transaction_manager.rs:62-96 | the ten statuses are distinct single bits |
| TmStatuses.GuardMembership | src/tm/transaction_manager.rs:62-96 | for a single status, `contains` on the start, rollback-only and drop guards and on ACTIVE is membership in the statuses the guard names |
| LittleEndian.FromLeToLe | src/tm/xa_transaction_id.rs:96-98 | reading back a number written in n little-endian bytes gives the number |
| LittleEndian.ToLeFromLe | src/tm/xa_transaction_id.rs:123-131 | writing back the number read from n bytes gives the bytes |
| LittleEndian.CastRoundTrip | src/transaction_id.rs:72 | the `as i32` cast of a `u32` format id loses nothing: casting back to `u32` gives the id (used by `GetFormatId`) |
| LittleEndian.DecodeEncodeI32 | src/tm/xa_transaction_id.rs:96-98 | `read_i32` of what `write_i32` wrote is the value |
| LittleEndian.DecodeEncodeU64 | src/tm/simple_transaction_manager.rs:229-235 | `read_u64` of what `write_u64` wrote is the value |
| LittleEndian.EncodeDecodeU64 | src/tm/simple_transaction_manager.rs:209-214 | eight bytes are what `write_u64` writes for the value read from them |
| XaTransactionIds.TryNew | src/tm/xa_transaction_id.rs:36-54 | succeeds exactly for format id >= -1 and lengths <= 64, keeping the fields unchanged; otherwise the first failing check's `Usage`, in the source's order |
| XaTransactionIds.TryNewOfValid | src/tm/xa_transaction_id.rs:36-54 | every valid XID is what `try_new` builds from its own fields |
| XaTransactionIds.NullTaIsValid | src/tm/xa_transaction_id.rs:58-64 | NULL has format id -1 and empty byte strings, and `try_new` accepts it |
| XaTransactionIds.EncodingLayout | src/tm/xa_transaction_id.rs:94-108 | the three header fields decode to format id and lengths, the payload follows, zeros after it; 140 bytes with padding, 12+g+b without |
| XaTransactionIds.AsBytes | src/tm/xa_transaction_id.rs:94-108 | the write sequence with its zero-padding loop yields exactly that encoding |
| XaTransactionIds.ReadFields | src/tm/xa_transaction_id.rs:123-137 | a successful read of header and payload ends 12+g+b bytes later, inside the buffer |
| XaTransactionIds.ReadHeaderAndPayload | src/tm/xa_transaction_id.rs:123-137 | the three reads and two `read_exact` calls fail or succeed as `ReadFields` says |
| XaTransactionIds.ReadOneRecord | src/tm/xa_transaction_id.rs:122-151 | one loop iteration, with the byte-by-byte padding skip, yields the record `ReadRecord` describes; over-long fields are rejected before the padding arithmetic |
| XaTransactionIds.Parse | src/tm/xa_transaction_id.rs:118-153 | the cursor loop returns the `Result` that `ParseFrom` describes: `count` records in order, or the first failure |
| XaTransactionIds.ParseOfEncodeAll | src/tm/xa_transaction_id.rs:94-153 | XIDs written back to back by `as_bytes` are parsed back, in order, in both padding modes |
| XaTransactionIds.ParseOfEncoding | src/tm/xa_transaction_id.rs:94-153 | one XID's bytes followed by anything parse back to that XID |
| XaTransactionIds.ParseCount | src/tm/xa_transaction_id.rs:118-153 | a successful parse returns exactly `count` XIDs |
| XaTransactionIds.ParseErrorKinds | src/tm/xa_transaction_id.rs:118-153 | every error of `parse` is `ReadXid` (short or malformed read) or `Usage` (from `try_new`) |
| XaTransactionIds.NegativeGlobalTidLengthFails | src/tm/xa_transaction_id.rs:124-127 | a negative global-tid length fails with `ReadXid` |
| XaTransactionIds.InvalidRecordFails | src/tm/xa_transaction_id.rs:146-150 | a complete record at any cursor position whose fields `try_new` rejects ends the parse with that `Usage` error, after its padding, or at once when its lengths exceed 128 |
| XaTransactionIds.TruncatedEncodingFails | src/tm/xa_transaction_id.rs:123-144 | every proper prefix of an XID's bytes fails with the end-of-file error, never a partial result |
| XaTransactionIds.OversizedPaddedRecordUnderflows | src/tm/xa_transaction_id.rs:139-144 | as written, a padded record with lengths 100 and 100 reaches the underflowing subtraction; with bounds first it gives `Usage` |
| XaTransactionIds.BoundsFirstNeverUnderflows | src/tm/xa_transaction_id.rs:139-150 | with the bounds checked before subtracting, `parse` never underflows |
| XaTransactionIds.BoundsFirstAgrees | src/tm/xa_transaction_id.rs:139-150 | wherever the source's order does not underflow, the corrected order gives the same outcome |
| TransactionIds.New | src/transaction_id.rs:38-60 | succeeds exactly for format id <= i32::MAX and lengths <= 64, with the given fields; otherwise the first failing check's `Usage`, in order |
| TransactionIds.GetFormatId | src/transaction_id.rs:68-74 | NULL gives -1; a valid id gives its stored (non-negative) format id; in general the `as i32` cast, which casting back to `u32` undoes |
| TransactionIds.GetGlobalTa | src/transaction_id.rs:76-82 | `None` exactly for NULL, otherwise the stored global transaction id |
| TransactionIds.GetBranchQualifier | src/transaction_id.rs:84-90 | `None` exactly for NULL, otherwise the stored branch qualifier |
| TransactionIds.GettersOfNew | src/transaction_id.rs:38-90 | the getters give back what `new` was given |
| TransactionIds.ToXa | src/transaction_id.rs:96-124 | the XID a valid id is written as; NULL is written as the null XID |
| TransactionIds.AsBytes | src/transaction_id.rs:96-124 | the write sequence, with both padding loops, yields the XID encoding of the id |
| TransactionIds.NullLayout | src/transaction_id.rs:99-108 | NULL is header (-1, 0, 0), then 128 zeros with padding: 140 bytes, else 12 |
| TransactionIds.AsBytesParsesBack | src/transaction_id.rs:96-124 | the XID parser reads what `as_bytes` wrote back as the same id, with the getters' values |
| CRmWrappers.UntranslateTranslate | src/rm/c_rm_wrapper.rs:12-83 | each wrapper method's inner call (method and flags) identifies the wrapper method and its XID |
| CRmWrappers.TranslateUntranslate | src/rm/c_rm_wrapper.rs:12-83 | every inner call that names a wrapper method is that method's call |
| CRmWrappers.TranslateInjective | src/rm/c_rm_wrapper.rs:12-83 | no two wrapper calls give the same inner call |
| CRmWrappers.TranslateKeepsXid | src/rm/c_rm_wrapper.rs:13-66 | the XID is forwarded unchanged; the scans carry none |
| CRmWrappers.TranslateFlags | src/rm/c_rm_wrapper.rs:13-82 | start gets none/JOIN/RESUME, end exactly one of FAIL/SUCCESS/SUSPEND, commit none/ONE_PHASE, recover a non-empty set of scan flags |
| CRmWrappers.WrapForwards | src/rm/c_rm_wrapper.rs:13-82 | each wrapper method makes exactly one inner call and returns the inner answer unchanged |
| BranchXids.BranchXid | src/tm/simple_transaction_manager.rs:229-238 | the XID made for a branch is valid |
| BranchXids.BranchXidDecodes | src/tm/simple_transaction_manager.rs:229-238 | `try_new(..).unwrap()` succeeds with that XID; format 99, and global tid, coordinator id and participant id read back from its bytes |
| BranchXids.IsMyXidAndRmMeans | src/tm/simple_transaction_manager.rs:200-215 | the test holds exactly for format 99 with the branch qualifier `new_xatid` writes for this coordinator and participant |
| BranchXids.BranchXidIsMine | src/tm/simple_transaction_manager.rs:200-215 | an XID the coordinator made is recognised for exactly the coordinator and participant it was made for |
| BranchXids.NotMineWhen | src/tm/simple_transaction_manager.rs:200-215 | each early `return false`: wrong format, qualifier not 16 bytes, wrong coordinator id, wrong participant id |
| FanOut.RequestFor | src/tm/simple_transaction_manager.rs:116-154 | each `rm_*` wrapper sends a non-scan request on the branch XID it was given |
| FanOut.Advanced | src/tm/simple_transaction_manager.rs:98-114 | a fan-out keeps the registered ids |
| FanOut.Replies | src/tm/simple_transaction_manager.rs:98-114 | there is one reply per registered participant |
| FanOut.RmAction | src/tm/simple_transaction_manager.rs:98-114 | every participant receives the action once on its own branch XID, in any order; `Ok` exactly when nobody failed, else `RmErrors` with the failing participants' errors |
| FanOut.ReportedErrors | src/tm/simple_transaction_manager.rs:98-114 | a reported error list has exactly one entry per failing participant, and holds exactly their errors |
| FanOut.ErrorBagRemove | src/tm/simple_transaction_manager.rs:103-107 | the collected errors do not depend on the order the registry is visited in |
| FanOut.ErrorBagEmpty | src/tm/simple_transaction_manager.rs:109-113 | no error was collected exactly when nobody failed |
| FanOut.ErrorBagSize | src/tm/simple_transaction_manager.rs:103-107 | one error per failing participant |
| FanOut.ErrorBagMembers | src/tm/simple_transaction_manager.rs:103-107 | the errors collected are exactly those of failed replies |
| SimpleTransactionManagers.Mine | src/tm/simple_transaction_manager.rs:256-258 | the recovered XIDs kept are exactly those the test accepts |
| SimpleTransactionManagers.ForgetMine | src/tm/simple_transaction_manager.rs:256-262 | the cleanup loop sends `forget` for exactly those XIDs, in order, and nothing else changes |
| SimpleTransactionManagers.RegisteredCalls | src/tm/simple_transaction_manager.rs:254-263 | with cleanup, one recovery scan, then `forget` for exactly the recovered XIDs of this coordinator and participant; a failed scan forgets nothing; without cleanup nothing is sent |
| SimpleTransactionManagers.AdvancedByLog | src/tm/simple_transaction_manager.rs:359-380 | a sequence of fan-outs appends to each participant's history exactly its requests on its own branch, in order |
| SimpleTransactionManagers.StepShape | src/tm/simple_transaction_manager.rs:362-365 | a phase sends the phase and, only when it failed, a rollback; only that rollback can fail |
| SimpleTransactionManagers.RunAdvances | src/tm/simple_transaction_manager.rs:359-380 | the registry after the phases is the registry advanced by exactly the fan-outs performed |
| SimpleTransactionManagers.RunOrder | src/tm/simple_transaction_manager.rs:359-380 | phases run in order; a run without failure performed every phase; one with failure performed a prefix and stopped right after the failed rollback |
| SimpleTransactionManagers.RunPhasesShape | src/tm/simple_transaction_manager.rs:359-380 | the two-phase run in full: order, where it stops, nobody joins or leaves, and every participant receives exactly the run's requests on its own branch |
| SimpleTransactionManagers.RunThree | src/tm/simple_transaction_manager.rs:360-379 | the three phases step by step, stopping at a failed rollback |
| SimpleTransactionManagers.FallThrough | src/tm/simple_transaction_manager.rs:367-383 | a refused prepare whose rollback succeeds does not stop the commit: the commit phase is still sent and the run ends without failure |
| SimpleTransactionManagers.FallThroughExample | src/tm/simple_transaction_manager.rs:367-383 | such a registry exists: two participants, one of which refuses to prepare |
| SimpleTransactionManagers.SimpleTransactionManager.constructor | src/tm/simple_transaction_manager.rs:47-60 | the id is the hash with its low byte cleared; empty registry, counter 0, no transaction, IDLE; the invariant holds |
| SimpleTransactionManagers.SimpleTransactionManager.GetGtid | src/tm/simple_transaction_manager.rs:64-66 | returns the current transaction number |
| SimpleTransactionManagers.SimpleTransactionManager.NextGlobalTid | src/tm/simple_transaction_manager.rs:68-71 | the counter moves on by one (modulo 2^64) and is returned; nothing else changes |
| SimpleTransactionManagers.SimpleTransactionManager.GetCurrentGtid | src/tm/simple_transaction_manager.rs:73-78 | the current number, or `Usage` when there is none |
| SimpleTransactionManagers.SimpleTransactionManager.ValidateAndSetStatus | src/tm/simple_transaction_manager.rs:80-90 | the status becomes `new` exactly when the guard contains it; otherwise `UsageDetails` and nothing changes |
| SimpleTransactionManagers.SimpleTransactionManager.TryRollbackAfter | src/tm/simple_transaction_manager.rs:164-184 | rollback to everybody, status IDLE; `Ok` exactly when nobody failed, else `Inconsistency` naming the method, with the rollback's errors |
| SimpleTransactionManagers.SimpleTransactionManager.Phase | src/tm/simple_transaction_manager.rs:362-365 | one phase with its compensating rollback: the registry and result `Step` describes |
| SimpleTransactionManagers.SimpleTransactionManager.Register | src/tm/simple_transaction_manager.rs:241-267 | an id in use gives `Usage` and changes nothing; otherwise the participant, after its cleanup, is stored under the id and nothing else changes |
| SimpleTransactionManagers.SimpleTransactionManager.Unregister | src/tm/simple_transaction_manager.rs:269-272 | always `Ok`; removes only that id, and does nothing when it is absent |
| SimpleTransactionManagers.SimpleTransactionManager.StartTransaction | src/tm/simple_transaction_manager.rs:280-342 | guard IDLE/COMMITTED/ROLLEDBACK; the next number is taken even on failure; first success makes it ACTIVE; otherwise end_failure, rollback and one retry, whose failure leaves IDLE and the current transaction unchanged; keeps the invariant |
| SimpleTransactionManagers.SimpleTransactionManager.RetryStart | src/tm/simple_transaction_manager.rs:303-341 | end_failure and rollback (errors ignored), then one more start and its outcome |
| SimpleTransactionManagers.SimpleTransactionManager.OnePhase | src/tm/simple_transaction_manager.rs:356-358 | only `commit_one_phase` to everybody, with its reported result |
| SimpleTransactionManagers.SimpleTransactionManager.TwoPhase | src/tm/simple_transaction_manager.rs:360-379 | end_success, prepare and commit as `RunPhases` describes; a failed rollback stops it with `Inconsistency` and IDLE |
| SimpleTransactionManagers.SimpleTransactionManager.CommitTransaction | src/tm/simple_transaction_manager.rs:350-384 | no transaction gives `Usage`; not ACTIVE gives `UsageDetails`; fewer than two participants commit in one phase, a failure leaving COMMITTING; otherwise the two-phase run; success only from ACTIVE, ending COMMITTED; keeps the invariant |
| SimpleTransactionManagers.SimpleTransactionManager.RollbackTransaction | src/tm/simple_transaction_manager.rs:386-403 | needs a transaction; from ACTIVE end_failure then rollback, from PREPARED/ROLLBACK_ONLY rollback only, else no calls; the first failure returns with the status unchanged; success gives ROLLEDBACK |
| SimpleTransactionManagers.SimpleTransactionManager.SetTransactionRollbackOnly | src/tm/simple_transaction_manager.rs:405-410 | succeeds exactly from IDLE, ACTIVE, PREPARED and ROLLBACK_ONLY, and then the status is ROLLBACK_ONLY |
| SimpleTransactionManagers.SimpleTransactionManager.GetStatus | src/tm/simple_transaction_manager.rs:412-414 | returns the status |
| SimpleTransactionManagers.SimpleTransactionManager.Drop | src/tm/simple_transaction_manager.rs:417-431 | rollback to everybody on the current number (or 0), errors discarded, exactly when a transaction may be open; otherwise nothing |

## Left out

- Logging: the `trace!`/`debug!` calls and `trace_error` have no effect on state or results.
- Debug formatting of the ids is left out. The status text in `UsageDetails` messages is
  approximated by `DebugText`: the flag names joined by " | ". The exact `bitflags` formatting is
  not reproduced.
- `DefaultHasher` is foreign and unstable. The hash of the name is a constructor parameter `hash`;
  only the mask that clears the low byte is modelled.
- The `name()` getter is the constant field `name`.
- SimpleTransactionManagers.SimpleTransactionManager.NextGlobalTid: models the release-build wrap-around of `last_gtid += 1`,
  not the debug-build overflow panic.
- Participants are oracles: the code behind `Box<dyn ResourceManager>` and `CResourceManager` is
  not part of this model. A participant's answer is a function of the requests it has received.
- FanOut.RmAction: the order in which a `HashMap` is visited is not fixed, so the error list is
  stated up to order (as a multiset), not as a sequence.
- The `io::Result` of `as_bytes` is dropped: writing to a `Vec` never fails.
- Flags: `from_bits` is not modelled. Every bit of 0x0820_0000 is a named flag, so the test's
  comparison with `from_bits(0x0820_0000)` reduces to the stated bit value.
- The coordinator never assigns PREPARING or PREPARED. The invariant `Valid` therefore admits
  only the six statuses a call can leave behind; the guards still handle all ten.
- The async copies of the coordinator, the resource-manager traits and the wrapper, and the
  duplicate crate layouts are left out. They repeat the same logic with another concurrency style
  or other type names.
- XaTransactionIds.Parse: follows the corrected order of the padding arithmetic (see Findings).
  The source's order is kept as `ParseFrom(.., AsWritten)`, where the underflowing usize
  subtraction is the outcome `SubtractOverflow` (a debug-build panic). The release-build
  wrap-around, whose huge skip would end in an end-of-file error, is not modelled separately.
- XaTransactionIds.ReadOneRecord: uses the same corrected order as `Parse`, so a padded record
  whose lengths add up to more than 128 gives the `Usage` error of `try_new`, not the underflow.

## Findings

| source | as written | input that shows it | evidently intended | confidence | as-written member | corrected member |
|---|---|---|---|---|---|---|
| src/tm/xa_transaction_id.rs:139-150 | with padding, `parse` computes `128 - branch_qualifier_len - global_tid_len` in `usize` before `try_new` checks the lengths, so lengths summing to more than 128 underflow (a panic in a debug build) | one padded record with header (0, 100, 100) and 200 payload bytes, `count` 1 | the record is rejected with the `Usage` error of `try_new` (global tid too long); `Parse` and the round-trip lemmas use this order, and `BoundsFirstAgrees` shows it changes nothing where the source does not underflow | not executed | XaTransactionIds.OversizedPaddedRecordUnderflows | XaTransactionIds.BoundsFirstNeverUnderflows |
