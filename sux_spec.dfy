/** The bookkeeping of `sux_lock` read with two explicit depths instead of
    the packed word: the reference state machine that the class in
    `SuxLockClass` refines. Every operation takes the calling thread's id
    and, where the source calls the primitive, the primitive's boolean
    answer, as parameters. */
module SuxSpec {
  import opened Packed
  import opened Primitive

  /** A thread identity; real threads are never 0 and never `FOR_IO`,
      which the two other owner cases stand for. */
  type Tid = nat

  datatype Owner = NoOwner | Thread(id: Tid) | ForIo

  /** The state of one lock: the `writer` field, the U and X depths that
      `recursive` packs, `waits`, the debug set `readers`, and the
      abstract state of the underlying primitive. */
  datatype Sux = Sux(writer: Owner, u: nat, x: nat, waits: uint32,
                     readers: set<Tid>, lock: Srw)

  /** The mode the primitive is in for given depths: X as soon as there is
      an X depth, U when there is only U depth. */
  function ModeFor(u: nat, x: nat): Mode
  {
    if x > 0 then Exclusive else if u > 0 then Update else Unlocked
  }

  /** The invariant that the source's assertions rely on. */
  predicate Valid(s: Sux)
  {
    && s.u <= RECURSIVE_MAX && s.x <= RECURSIVE_MAX
    && (s.writer == NoOwner <==> s.u + s.x == 0)
    && (s.writer == ForIo ==> s.u + s.x == 1)
    && s.lock.mode == ModeFor(s.u, s.x)
    && s.lock.shared == |s.readers|
    && (s.lock.mode == Exclusive ==> s.lock.shared == 0)
  }

  /** The zeroed lock that initialisation asserts and `operator=` makes. */
  function Initial(): (s: Sux)
    ensures Valid(s) && MayFree(s) && s.waits == 0
  {
    Sux(NoOwner, 0, 0, 0, {}, Idle)
  }

  /** `waits.fetch_add(1)` when the primitive reports that it waited;
      `fetch_add` wraps around at 2^32. */
  function Bump(w: uint32, waited: bool): uint32
  {
    if waited then (w + 1) % 0x1_0000_0000 else w
  }

  predicate HaveUOrX(s: Sux, self: Tid) { s.writer == Thread(self) }

  predicate HaveUNotX(s: Sux, self: Tid) { HaveUOrX(s, self) && s.x == 0 }

  predicate HaveX(s: Sux, self: Tid) { HaveUOrX(s, self) && s.x > 0 }

  predicate HaveS(s: Sux, self: Tid) { self in s.readers }

  predicate HaveAny(s: Sux, self: Tid) { HaveUOrX(s, self) || HaveS(s, self) }

  /** The lock may be freed: no owner, no depth, no registered reader. */
  predicate MayFree(s: Sux) { s.writer == NoOwner && s.u == 0 && s.x == 0 && s.readers == {} }

  /** `writer_recurse<allow_readers>`: one more recursive U or X hold by the
      owner. The U step needs some depth already, the X step an X depth. */
  function WriterRecurse(s: Sux, self: Tid, allowReaders: bool): (r: Sux)
    requires Valid(s)
    requires s.writer == Thread(self)
    requires if allowReaders then s.u + s.x != 0 else s.x != 0
    requires (if allowReaders then s.u else s.x) < RECURSIVE_MAX
    ensures Valid(r) && HaveUOrX(r, self)
    ensures allowReaders ==> r.u == s.u + 1 && r.x == s.x
    ensures !allowReaders ==> r.x == s.x + 1 && r.u == s.u
    ensures r.lock == s.lock && r.waits == s.waits && r.readers == s.readers
  {
    if allowReaders then s.(u := s.u + 1) else s.(x := s.x + 1)
  }

  /** `claim_ownership`: the caller becomes the owner of a held U or X lock;
      the depths stay. */
  function ClaimOwnership(s: Sux, self: Tid): (r: Sux)
    requires Valid(s)
    requires s.writer != NoOwner
    ensures Valid(r) && HaveUOrX(r, self)
    ensures r.u == s.u && r.x == s.x && r.lock == s.lock
    ensures r.waits == s.waits && r.readers == s.readers
  {
    s.(writer := Thread(self))
  }

  /** `s_lock`, at the moment the primitive grants the shared lock. */
  function SLock(s: Sux, self: Tid, immediate: bool): (r: Sux)
    requires Valid(s)
    requires !HaveX(s, self) && !HaveS(s, self)
    requires s.lock.CanRead()
    ensures Valid(r) && HaveS(r, self)
    ensures r.readers == s.readers + {self}
    ensures r.writer == s.writer && r.u == s.u && r.x == s.x
    ensures r.waits == Bump(s.waits, !immediate)
  {
    Sux(s.writer, s.u, s.x, Bump(s.waits, !immediate), s.readers + {self}, s.lock.RdLock())
  }

  /** `s_lock_try`; `granted` is the answer of `rd_lock_try`. */
  function SLockTry(s: Sux, self: Tid, granted: bool): (res: (Sux, bool))
    requires Valid(s)
    requires granted ==> s.lock.CanRead() && !HaveS(s, self)
    ensures Valid(res.0) && res.0.waits == s.waits
    ensures res.1 == granted
    ensures granted ==> HaveS(res.0, self) && res.0.readers == s.readers + {self}
    ensures granted ==> res.0.writer == s.writer && res.0.u == s.u && res.0.x == s.x
    ensures !granted ==> res.0 == s
  {
    if granted then (s.(readers := s.readers + {self}, lock := s.lock.RdLock()), true)
    else (s, false)
  }

  /** `u_lock`: a recursion step for the owner, otherwise a fresh U
      acquisition at the moment the primitive grants it. Either way the
      caller ends up with one more U hold. */
  function ULock(s: Sux, self: Tid, immediate: bool): (r: Sux)
    requires Valid(s)
    requires s.writer == Thread(self) ==> s.u < RECURSIVE_MAX
    requires s.writer != Thread(self) ==> s.lock.CanUpdate()
    ensures Valid(r) && HaveUOrX(r, self)
    ensures r.u == s.u + 1 && r.x == s.x && r.readers == s.readers
    ensures r.waits == if s.writer == Thread(self) then s.waits else Bump(s.waits, !immediate)
  {
    if s.writer == Thread(self) then WriterRecurse(s, self, true)
    else Sux(Thread(self), 1, 0, Bump(s.waits, !immediate), s.readers, s.lock.ULock())
  }

  /** `x_lock(for_io)`: a recursion step for an owner that already holds X
      (and not for I/O), otherwise a fresh X acquisition owned by the caller
      or by `FOR_IO`. */
  function XLock(s: Sux, self: Tid, forIo: bool, immediate: bool): (r: Sux)
    requires Valid(s)
    requires s.writer == Thread(self) ==> !forIo && 0 < s.x < RECURSIVE_MAX
    requires s.writer != Thread(self) ==> s.lock.CanWrite()
    ensures Valid(r)
    ensures r.writer == if forIo then ForIo else Thread(self)
    ensures r.x == s.x + 1 && r.u == s.u && r.readers == s.readers
    ensures r.waits == if s.writer == Thread(self) then s.waits else Bump(s.waits, !immediate)
  {
    if s.writer == Thread(self) then WriterRecurse(s, self, false)
    else Sux(if forIo then ForIo else Thread(self), 0, 1, Bump(s.waits, !immediate),
             s.readers, s.lock.WrLock())
  }

  /** `u_x_upgrade`: the U depth becomes the X depth once the readers have
      drained. */
  function UXUpgrade(s: Sux, self: Tid, immediate: bool): (r: Sux)
    requires Valid(s)
    requires HaveUNotX(s, self)
    requires s.lock.CanUpgrade()
    ensures Valid(r) && HaveX(r, self) && !HaveUNotX(r, self)
    ensures r.x == s.u && r.u == 0 && r.readers == s.readers
    ensures r.waits == Bump(s.waits, !immediate)
  {
    s.(u := 0, x := s.u, waits := Bump(s.waits, !immediate), lock := s.lock.UWrUpgrade())
  }

  /** `x_lock_upgraded`: X recursion for an X owner, an upgrade for a U-only
      owner (reported as `true`), a fresh X acquisition otherwise. The
      primitive's answer is discarded, so `waits` never changes. */
  function XLockUpgraded(s: Sux, self: Tid): (res: (Sux, bool))
    requires Valid(s)
    requires HaveX(s, self) ==> s.x < RECURSIVE_MAX
    requires HaveUNotX(s, self) ==> s.lock.CanUpgrade()
    requires !HaveUOrX(s, self) ==> s.lock.CanWrite()
    ensures Valid(res.0) && HaveX(res.0, self)
    ensures res.1 <==> HaveUNotX(s, self)
    ensures res.1 ==> res.0.x == s.u && res.0.u == 0
    ensures !res.1 ==> res.0.x == s.x + 1 && res.0.u == s.u
    ensures res.0.waits == s.waits && res.0.readers == s.readers
  {
    if s.writer == Thread(self) then
      if s.x != 0 then (WriterRecurse(s, self, false), false)
      else (s.(u := 0, x := s.u, lock := s.lock.UWrUpgrade()), true)
    else (Sux(Thread(self), 0, 1, s.waits, s.readers, s.lock.WrLock()), false)
  }

  /** `u_lock_try(for_io)`; `granted` is the answer of the primitive's
      `u_lock_try`, which the owner never asks. An owner asking for I/O is
      refused without any change. */
  function ULockTry(s: Sux, self: Tid, forIo: bool, granted: bool): (res: (Sux, bool))
    requires Valid(s)
    requires s.writer == Thread(self) && !forIo ==> s.u < RECURSIVE_MAX
    requires s.writer != Thread(self) && granted ==> s.lock.CanUpdate()
    ensures Valid(res.0) && res.0.waits == s.waits && res.0.readers == s.readers
    ensures res.1 <==> if s.writer == Thread(self) then !forIo else granted
    ensures res.1 ==> res.0.u == s.u + 1 && res.0.x == s.x
    ensures res.1 ==> res.0.writer == if forIo then ForIo else Thread(self)
    ensures !res.1 ==> res.0 == s
  {
    if s.writer == Thread(self) then
      if forIo then (s, false) else (WriterRecurse(s, self, true), true)
    else if granted then
      (Sux(if forIo then ForIo else Thread(self), 1, 0, s.waits, s.readers,
           s.lock.ULock()), true)
    else (s, false)
  }

  /** `x_lock_try`; `granted` is the answer of `wr_lock_try`, which the
      owner never asks. */
  function XLockTry(s: Sux, self: Tid, granted: bool): (res: (Sux, bool))
    requires Valid(s)
    requires s.writer == Thread(self) ==> 0 < s.x < RECURSIVE_MAX
    requires s.writer != Thread(self) && granted ==> s.lock.CanWrite()
    ensures Valid(res.0) && res.0.waits == s.waits && res.0.readers == s.readers
    ensures res.1 <==> s.writer == Thread(self) || granted
    ensures res.1 ==> HaveX(res.0, self) && res.0.x == s.x + 1 && res.0.u == s.u
    ensures !res.1 ==> res.0 == s
  {
    if s.writer == Thread(self) then (WriterRecurse(s, self, false), true)
    else if granted then (Sux(Thread(self), 0, 1, s.waits, s.readers, s.lock.WrLock()), true)
    else (s, false)
  }

  /** `s_unlock`: the caller's single registry entry goes. */
  function SUnlock(s: Sux, self: Tid): (r: Sux)
    requires Valid(s)
    requires HaveS(s, self)
    ensures Valid(r) && !HaveS(r, self)
    ensures r.readers == s.readers - {self}
    ensures r.writer == s.writer && r.u == s.u && r.x == s.x && r.waits == s.waits
  {
    s.(readers := s.readers - {self}, lock := s.lock.RdUnlock())
  }

  /** The owner check of `u_or_x_unlock`: the caller owns the lock, or it is
      owned for I/O, the caller claims it, and exactly one hold of the
      released mode and none of the other is left. */
  predicate MayRelease(s: Sux, self: Tid, allowReaders: bool, claim: bool)
  {
    || s.writer == Thread(self)
    || (&& s.writer == ForIo && claim
        && (if allowReaders then s.u == 1 && s.x == 0 else s.x == 1 && s.u == 0))
  }

  /** The depth of the released mode. */
  function ReleasedDepth(s: Sux, allowReaders: bool): nat
  {
    if allowReaders then s.u else s.x
  }

  /** `u_or_x_unlock` as the source writes it: take one hold of the mode
      away; on the very last hold clear the owner and release the
      primitive in the mode being released. */
  function UOrXUnlockAsWritten(s: Sux, self: Tid, allowReaders: bool, claim: bool): (r: Sux)
    requires Valid(s)
    requires MayRelease(s, self, allowReaders, claim)
    requires ReleasedDepth(s, allowReaders) > 0
    ensures ReleasedDepth(r, allowReaders) == ReleasedDepth(s, allowReaders) - 1
    ensures ReleasedDepth(r, !allowReaders) == ReleasedDepth(s, !allowReaders)
    ensures r.writer == if r.u + r.x == 0 then NoOwner else s.writer
    ensures r.lock == if r.u + r.x == 0 then Idle.(shared := s.lock.shared) else s.lock
    ensures r.waits == s.waits && r.readers == s.readers
  {
    var u := if allowReaders then s.u - 1 else s.u;
    var x := if allowReaders then s.x else s.x - 1;
    if u + x != 0 then s.(u := u, x := x)
    else Sux(NoOwner, 0, 0, s.waits, s.readers,
             if allowReaders then s.lock.UUnlock() else s.lock.WrUnlock())
  }

  /** The release ordering under which the bookkeeping and the primitive
      agree: the last X hold of an owner goes only after its U holds. */
  predicate ReleaseInOrder(s: Sux, allowReaders: bool)
  {
    !allowReaders && s.x == 1 ==> s.u == 0
  }

  /** `u_or_x_unlock` as the rest of the model uses it: the source's
      release, called in the order that keeps the invariant. */
  function UOrXUnlock(s: Sux, self: Tid, allowReaders: bool, claim: bool): (r: Sux)
    requires Valid(s)
    requires MayRelease(s, self, allowReaders, claim)
    requires ReleasedDepth(s, allowReaders) > 0
    requires ReleaseInOrder(s, allowReaders)
    ensures Valid(r)
    ensures ReleasedDepth(r, allowReaders) == ReleasedDepth(s, allowReaders) - 1
    ensures ReleasedDepth(r, !allowReaders) == ReleasedDepth(s, !allowReaders)
    ensures r.writer == if r.u + r.x == 0 then NoOwner else s.writer
    ensures r.lock == if r.u + r.x == 0 then Idle.(shared := s.lock.shared) else s.lock
    ensures r.waits == s.waits && r.readers == s.readers
  {
    UOrXUnlockAsWritten(s, self, allowReaders, claim)
  }
}
