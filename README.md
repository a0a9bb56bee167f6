# sux_lock bookkeeping, modelled and verified in Dafny

This project models the bookkeeping layer of InnoDB's `sux_lock`
(`storage/innobase/include/sux_lock.h`). `sux_lock` is a latch with three
modes: S (shared), U (update, or shared-exclusive) and X (exclusive). It
adds recursion and owner tracking on top of a non-recursive primitive
(`srw_lock`). The primitive does all the blocking; the bookkeeping is:

- `writer`: no owner, a thread, or the sentinel `FOR_IO` (owned for an
  I/O completion that another thread will release);
- `recursive`: one `uint32_t` that packs the X depth (unit
  `RECURSIVE_X = 1`, low 16 bits) and the U depth (unit
  `RECURSIVE_U = 1 << 16`, high 16 bits);
- `waits`: the number of acquisitions that had to wait;
- `readers`: the debug-build set of threads holding S.

The operations do not block. With the caller's thread id and the
primitive's boolean answer as parameters, each one is a deterministic
state change.

Files:

- `packed.dfy` (`Packed`): the packed counter, in the source's arithmetic
  (`+=`, `-=`, `/=` by a unit, `& RECURSIVE_MAX`). The proofs show that the
  two halves never carry or borrow into each other, and that the upgrade's
  division turns the U depth into the X depth.
- `primitive.dfy` (`Primitive`): the contract of the underlying lock as
  abstract state. That state is which of U and X is held, plus the number
  of shared holds. It also says when each acquisition can be granted.
- `sux_spec.dfy` (`SuxSpec`): the reference state machine, with two
  explicit depths `u` and `x`. `Valid` is the invariant that the source's
  assertions rely on. It ties the owner, the depths, the registry and the
  primitive's mode together. Every acquisition, `SUnlock`, and the
  release `UOrXUnlock` (which requires the last X hold to go after the U
  holds) are proved to preserve it. `UOrXUnlockAsWritten`, the release
  without that order, is not, and `ReleaseOutOfOrderAsWritten` proves
  that it can break it.
- `sux_lock.dfy` (`SuxLockClass`): class `SuxLock`, with the source's
  fields updated in place. The packed word is kept literally. `State()`
  reads the fields as a `SuxSpec.Sux`. Each lock operation is proved to
  perform its `SuxSpec` transition on `State()`: `SLock`, `ULock`, `XLock`,
  `UXUpgrade`, `XLockUpgraded`, the three tries, `SUnlock`, `ClaimOwnership`
  and `UOrXUnlock` perform the transition of the same name,
  `WriterRecurse` and `XLockRecursive` perform `SuxSpec.WriterRecurse`, and
  `UUnlock` and `XUnlock` perform `SuxSpec.UOrXUnlock`. `Init` and
  `Assign` produce `SuxSpec.Initial()`. The remaining members have no
  transition of their own. The setters and `ResetWaited` state their whole
  new state. The queries state what they imply about the depths and the
  primitive.
- `sux_properties.dfy` (`SuxProperties`): properties that span several
  calls. They cover recursion round trips, the upgrade, `FOR_IO` transfer,
  mutual exclusion, shared holders, the wait counter, the lifecycle and the
  finding below.

Modelling choices:

- A thread id is a `nat`. The owner is the tagged value `Owner`
  (`NoOwner | Thread(id) | ForIo`), not a reserved bit pattern.
- `recursive` and `waits` have type `uint32`, the integers
  0 .. 2^32 - 1. `v & RECURSIVE_MAX` is written `v % 2^16`, which is the
  same for the mask 2^16 - 1. `waits.fetch_add(1)` wraps modulo 2^32.
- A blocking acquisition (`s_lock`, `u_lock`, `x_lock`, `u_x_upgrade`,
  and the primitive calls inside `x_lock_upgraded`) is modelled at the
  moment the primitive grants it. Its `requires` states the grant condition
  (`CanRead`, `CanUpdate`, `CanWrite`, `CanUpgrade`). The parameter
  `immediate` is the primitive's return value, "acquired without waiting".
- For a try variant, the parameter `granted` is the primitive's answer. It
  may be `false` even when the lock is free, but it is `true` only when the
  grant condition holds.
- The debug registry `readers` and the primitive's state are ghost.

Where the code and design descriptions of this lock differ, the model
follows the code:

- A depth may reach 65535 (`RECURSIVE_MAX`), not only 65534. This is
  because `writer_recurse` checks `rec < RECURSIVE_MAX` before it
  increments.
- An owner holding only U cannot take X by recursion.
  `writer_recurse<false>` needs a non-zero X depth, so such an owner must
  upgrade instead. An X owner may recurse into U.
- `x_lock_upgraded` discards the primitive's answer, so it never changes
  `waits`.

## Model

| member | source | states |
|---|---|---|
| Packed.Pack | storage/innobase/include/sux_lock.h:44-60 | the word U·2^16 + X holds U depth `u` and X depth `x`, each at most `RECURSIVE_MAX`, and reads them back |
| Packed.PackOfDepths | storage/innobase/include/sux_lock.h:44-60 | every 32-bit word is the packing of its two depths |
| Packed.ZeroIffNoDepth | storage/innobase/include/sux_lock.h:274 | `recursive` is zero exactly when both depths are |
| Packed.UnitIffSingleDepth | storage/innobase/include/sux_lock.h:268-270 | `recursive == unit` of a mode exactly when that mode has depth 1 and the other has depth 0 |
| Packed.Recurse | storage/innobase/include/sux_lock.h:112-120 | adding one unit below the cap raises that mode's depth by one and leaves the other depth alone (no carry) |
| Packed.Unrecurse | storage/innobase/include/sux_lock.h:271-274 | subtracting one unit from a non-zero depth lowers it by one, leaves the other depth alone, and gives zero iff it was the last hold of either mode |
| Packed.Upgrade | storage/innobase/include/sux_lock.h:413-420 | `recursive / RECURSIVE_U` with no X depth makes the old U depth the X depth and leaves no U depth |
| SuxSpec.Initial | storage/innobase/include/sux_lock.h:67-75 | the zeroed lock is valid, may be freed, and has a zero wait counter |
| SuxSpec.WriterRecurse | storage/innobase/include/sux_lock.h:112-120 | the owner's recursion adds one U hold (needs some depth) or one X hold (needs X depth); the invariant holds and nothing else changes |
| SuxSpec.ClaimOwnership | storage/innobase/include/sux_lock.h:154-156 | a held lock passes to the caller with its depths, registry and primitive unchanged |
| SuxSpec.SLock | storage/innobase/include/sux_lock.h:368-376 | a caller without X or S becomes a registered reader; `waits` goes up by one iff the primitive waited |
| SuxSpec.SLockTry | storage/innobase/include/sux_lock.h:233-239 | it reports the primitive's answer; on success the caller is registered, on failure nothing changes; `waits` never changes |
| SuxSpec.ULock | storage/innobase/include/sux_lock.h:378-392 | on both paths the caller ends owning one more U hold with the X depth unchanged; `waits` changes only on the fresh path, by one iff it waited |
| SuxSpec.XLock | storage/innobase/include/sux_lock.h:394-411 | the X depth goes up by one, the U depth stays, and the owner is the caller or `FOR_IO`; the owner path needs X depth and no `for_io`; `waits` as for `u_lock` |
| SuxSpec.UXUpgrade | storage/innobase/include/sux_lock.h:413-420 | a U-only owner becomes an X owner with X depth equal to its old U depth and no U depth; `waits` goes up by one iff it waited |
| SuxSpec.XLockUpgraded | storage/innobase/include/sux_lock.h:204-231 | the caller ends holding X; the result is true iff it held U without X, and then the U depth became the X depth; otherwise the X depth went up by one; `waits` never changes |
| SuxSpec.ULockTry | storage/innobase/include/sux_lock.h:422-441 | it succeeds iff (owner and not `for_io`) or (non-owner and granted); success adds one U hold owned by the caller or `FOR_IO`; failure, including an owner asking for I/O, changes nothing |
| SuxSpec.XLockTry | storage/innobase/include/sux_lock.h:443-460 | it succeeds iff the caller owns the lock or the primitive granted it; success means one more X hold for the caller; failure changes nothing |
| SuxSpec.SUnlock | storage/innobase/include/sux_lock.h:250-261 | exactly the caller's registry entry goes; the owner and depths stay |
| SuxSpec.UOrXUnlockAsWritten | storage/innobase/include/sux_lock.h:262-282 | the source's release: the released depth drops by one, the other stays, and the owner is cleared and the primitive released in the released mode exactly when both depths reach zero; otherwise the primitive is untouched |
| SuxSpec.UOrXUnlock | storage/innobase/include/sux_lock.h:262-288 | with the last X hold released after the U holds, the release keeps the invariant; at zero depth the owner is cleared and the primitive is released, and otherwise the primitive is untouched |
| SuxLockClass.SuxLock.Init | storage/innobase/include/sux_lock.h:67-75 | initialisation leaves the valid all-zero state (the same state the `init` specialisation at lines 306-314 asserts) |
| SuxLockClass.SuxLock.Free | storage/innobase/include/sux_lock.h:77-92 | with no owner, no depth and no registered reader, the primitive is not held at all (what its `destroy` asserts) |
| SuxLockClass.SuxLock.Assign | storage/innobase/include/sux_lock.h:295-299 | `operator=` resets to the valid all-zero state whatever was held |
| SuxLockClass.SuxLock.Waited | storage/innobase/include/sux_lock.h:94-95 | it reads the wait counter without changing anything |
| SuxLockClass.SuxLock.ResetWaited | storage/innobase/include/sux_lock.h:96-97 | `waits` becomes 0 and nothing else changes |
| SuxLockClass.SuxLock.NotRecursive | storage/innobase/include/sux_lock.h:102-108 | for a non-zero word, true iff exactly one hold of one mode remains |
| SuxLockClass.SuxLock.WriterRecurse | storage/innobase/include/sux_lock.h:111-120 | the packed `+=` performs the two-depth recursion step |
| SuxLockClass.SuxLock.SetNewOwner | storage/innobase/include/sux_lock.h:123-129 | a present owner is replaced and only `writer` changes |
| SuxLockClass.SuxLock.SetFirstOwner | storage/innobase/include/sux_lock.h:130-136 | the owner is set where there was none and only `writer` changes |
| SuxLockClass.SuxLock.SLockRegister | storage/innobase/include/sux_lock.h:137-150 | the caller, not yet registered, is added and only `readers` changes |
| SuxLockClass.SuxLock.ClaimOwnership | storage/innobase/include/sux_lock.h:153-156 | performs `SuxSpec.ClaimOwnership` |
| SuxLockClass.SuxLock.HaveUOrX | storage/innobase/include/sux_lock.h:158-165 | the owner test agrees with the two-depth reading; it implies `recursive != 0` and that the primitive is held in U or X mode |
| SuxLockClass.SuxLock.HaveUNotX | storage/innobase/include/sux_lock.h:166-168 | the low-half test agrees with "owner, no X depth"; it implies U depth and the primitive in U mode |
| SuxLockClass.SuxLock.HaveX | storage/innobase/include/sux_lock.h:169-171 | the low-half test agrees with "owner with X depth"; it implies the primitive is exclusive with no reader |
| SuxLockClass.SuxLock.HaveS | storage/innobase/include/sux_lock.h:172-184 | registry membership implies a shared hold on the primitive and no X holder |
| SuxLockClass.SuxLock.HaveAny | storage/innobase/include/sux_lock.h:185-186 | agrees with `have_u_or_x() or have_s()`; it implies the primitive is held |
| SuxLockClass.SuxLock.SLock | storage/innobase/include/sux_lock.h:368-376 | performs `SuxSpec.SLock` |
| SuxLockClass.SuxLock.ULock | storage/innobase/include/sux_lock.h:378-392 | the packed code performs `SuxSpec.ULock` |
| SuxLockClass.SuxLock.XLock | storage/innobase/include/sux_lock.h:394-411 | the packed code performs `SuxSpec.XLock` |
| SuxLockClass.SuxLock.XLockRecursive | storage/innobase/include/sux_lock.h:198-199 | the owner with X depth below the cap gains one X hold |
| SuxLockClass.SuxLock.UXUpgrade | storage/innobase/include/sux_lock.h:413-420 | the packed `/=` performs `SuxSpec.UXUpgrade` |
| SuxLockClass.SuxLock.XLockUpgraded | storage/innobase/include/sux_lock.h:204-231 | the `recursive & RECURSIVE_MAX` test and the packed updates perform `SuxSpec.XLockUpgraded`, result included |
| SuxLockClass.SuxLock.SLockTry | storage/innobase/include/sux_lock.h:233-239 | performs `SuxSpec.SLockTry`, result included |
| SuxLockClass.SuxLock.ULockTry | storage/innobase/include/sux_lock.h:422-441 | performs `SuxSpec.ULockTry`, result included |
| SuxLockClass.SuxLock.XLockTry | storage/innobase/include/sux_lock.h:443-460 | performs `SuxSpec.XLockTry`, result included |
| SuxLockClass.SuxLock.SUnlock | storage/innobase/include/sux_lock.h:250-261 | performs `SuxSpec.SUnlock` |
| SuxLockClass.SuxLock.UOrXUnlock | storage/innobase/include/sux_lock.h:262-282 | the packed `-=` and the zero test perform `SuxSpec.UOrXUnlock` |
| SuxLockClass.SuxLock.UUnlock | storage/innobase/include/sux_lock.h:283-285 | the U release of `u_or_x_unlock` |
| SuxLockClass.SuxLock.XUnlock | storage/innobase/include/sux_lock.h:286-288 | the X release of `u_or_x_unlock`, the last X hold after the U holds |
| SuxProperties.RecurseTimes | storage/innobase/include/sux_lock.h:112-120 | `k` recursion steps raise one depth by exactly `k` and change nothing else |
| SuxProperties.UnlockTimes | storage/innobase/include/sux_lock.h:265-282 | `k` releases lower one depth by exactly `k`; the owner and the primitive are released exactly when both depths reach zero |
| SuxProperties.RecursiveXRoundTrip | storage/innobase/include/sux_lock.h:394-411 | X taken once then recursed `n - 1` times: every shorter release sequence leaves the caller holding X, and `n` releases restore the lock apart from `waits` |
| SuxProperties.UpgradePreservesDepth | storage/innobase/include/sux_lock.h:413-420 | after the upgrade, exactly the old U depth of X releases, and no U release, frees the lock |
| SuxProperties.IndependentCounters | storage/innobase/include/sux_lock.h:112-120 | X then two U recursions are released per mode, with X held until its own release; releasing X first is out of order |
| SuxProperties.ForIoTransfer | storage/innobase/include/sux_lock.h:265-282 | a `FOR_IO` owner is no thread; another thread may release it only by claiming (in the unlock or with `claim_ownership` first), and that frees the lock |
| SuxProperties.ExclusiveExcludesTries | storage/innobase/include/sux_lock.h:422-460 | while anyone holds X, another thread's `s_lock_try`, `u_lock_try` and `x_lock_try` all fail |
| SuxProperties.SLockTryAll | storage/innobase/include/sux_lock.h:233-239 | without X depth, `s_lock_try` by any number of distinct unregistered threads in turn all succeed; afterwards exactly those threads are added to the registry, the shared count rises by their number, and owner, U depth and `waits` are unchanged |
| SuxProperties.SharedConcurrency | storage/innobase/include/sux_lock.h:233-239 | a registered reader makes another thread's `x_lock_try` fail |
| SuxProperties.UpdateThenWaitingWriter | storage/innobase/include/sux_lock.h:378-411 | while T1 holds U, T2's `x_lock` cannot be granted; after T1's `u_unlock` it can, and a waited acquisition raises `waits` by one |
| SuxProperties.WaitsCountBlocking | storage/innobase/include/sux_lock.h:405-406 | the wait counter changes iff the primitive reported a wait |
| SuxProperties.Lifecycle | storage/innobase/include/sux_lock.h:77-92 | a lock that may be freed has its primitive fully released, and the initial lock may be freed |
| SuxProperties.ReleaseOutOfOrderAsWritten | storage/innobase/include/sux_lock.h:274-281 | as written, an X owner that recursed into U and releases X first ends with "U without X" while the primitive stays exclusive |

## Left out

- The primitive itself (`srw_lock.h`) is modelled only by its contract.
  Its lock word, `rw_lock`, the pthread mutexes and the PERFORMANCE_SCHEMA
  instrumentation are not modelled.
- Blocking, waking and waiter fairness are not modelled. A blocking call is
  the single step at which the primitive grants it.
- `is_waiting` is not modelled. It reads a `WRITER_WAITING` bit of the
  primitive's lock word.
- Memory orderings of the `std::atomic` fields, the `readers_lock` mutex
  and the lazy allocation of the `readers` set are not modelled. `readers`
  is a ghost set that is always present.
- The PERFORMANCE_SCHEMA specialisations
  (storage/innobase/include/sux_lock.h:316-365) are modelled once, through
  the lean ones. They behave the same, but take `file, line` instead of
  `for_io`. The `init` specialisation for the low-level primitive
  (storage/innobase/include/sux_lock.h:306-314) asserts the same all-zero
  state as the generic one and is modelled by
  `SuxLockClass.SuxLock.Init`.
- The platform bit pattern of `FOR_IO` is not modelled. The owner is a
  tagged value.
- Debug-only assertions become `requires` clauses. Optimised builds, where
  a violation is undefined behaviour, are not modelled.
- SuxLockClass.SuxLock.Free: `free` destroys the registry and the
  primitive; the model has no "destroyed" state and only proves the
  assertions `free` and `destroy` make.
- SuxLockClass.SuxLock.UOrXUnlock, SuxLockClass.SuxLock.XUnlock,
  SuxSpec.UOrXUnlock and SuxProperties.UnlockTimes: they require the last X hold to be released after
  the U holds. The source does not check this order; see Findings.

## Findings

| source | as written | input that shows it | evidently intended | confidence | as-written member | corrected member |
|---|---|---|---|---|---|---|
| storage/innobase/include/sux_lock.h:274-281 | `u_or_x_unlock` releases the primitive in the mode being released, whatever mode it was acquired in; releasing the last X hold while U holds remain leaves `have_u_not_x()` true while the primitive is still exclusive | `x_lock(); u_lock(); x_unlock(); u_unlock();` by one thread: the last call runs the primitive's `u_unlock` on an exclusive lock (`u_x_upgrade` in place of the last call would run `u_wr_upgrade` on it) | the last X hold of an owner is released only after the U holds taken under it, so that "U without X" always means the primitive is in U mode | low: depends on whether any caller releases out of that order; not executed | SuxProperties.ReleaseOutOfOrderAsWritten | SuxSpec.UOrXUnlock |
