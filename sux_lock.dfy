/** `sux_lock` itself: the fields the source updates in place, with the
    packed `recursive` word kept literally. Each operation is proved to
    perform, on the two-depth reading `State()`, the transition of the same
    name in `SuxSpec`. The debug registry `readers` and the primitive are
    ghost. */
module SuxLockClass {
  import opened Packed
  import opened Primitive
  import opened SuxSpec

  class SuxLock {
    /** Who holds the U or X side: no one, one thread, or the I/O subsystem. */
    var writer: Owner
    /** U depth in the high half, X depth in the low half. */
    var recursive: uint32
    /** Acquisitions that had to block, modulo 2^32. */
    var waits: uint32
    /** The registry that debug builds keep of S holders. */
    ghost var readers: set<Tid>
    /** The abstract state of the underlying non-recursive lock. */
    ghost var lock: Srw

    /** The lock read with two explicit depths. */
    ghost function State(): Sux
      reads this
    {
      Sux(writer, UDepth(recursive), XDepth(recursive), waits, readers, lock)
    }

    ghost predicate Valid()
      reads this
    {
      SuxSpec.Valid(State())
    }

    /** `SRW_LOCK_INIT` / `init` on zero-filled memory: the all-zero state
        that initialisation asserts. */
    constructor Init()
      ensures Valid() && State() == Initial()
    {
      writer := NoOwner;
      recursive := 0;
      waits := 0;
      readers := {};
      lock := Idle;
      new;
      ZeroIffNoDepth(recursive);
      assert State() == Sux(NoOwner, 0, 0, 0, {}, Idle);
    }

    /** `free`: the lock has no owner, no depth and no registered reader.
        Then the primitive is not held at all, which its `destroy` asserts. */
    method Free()
      requires Valid()
      requires writer == NoOwner && recursive == 0 && readers == {}
      ensures lock == Idle
    {
    }

    /** `operator=`: the source's lock state is not copied; this one is
        reset to all zero whatever it held. */
    method Assign(other: SuxLock)
      modifies this
      ensures Valid() && State() == Initial()
    {
      writer := NoOwner;
      recursive := 0;
      waits := 0;
      readers := {};
      lock := Idle;
      ZeroIffNoDepth(recursive);
      assert State() == Sux(NoOwner, 0, 0, 0, {}, Idle);
    }

    /** `waited` */
    function Waited(): (n: uint32)
      reads this
      ensures n == State().waits
    {
      waits
    }

    /** `reset_waited` */
    method ResetWaited()
      modifies this
      ensures State() == old(State()).(waits := 0)
    {
      waits := 0;
    }

    /** `not_recursive`: exactly one hold of one mode. */
    function NotRecursive(): (b: bool)
      reads this
      requires Valid()
      requires recursive != 0
      ensures b <==> State().u + State().x == 1
    {
      recursive == RECURSIVE_X || recursive == RECURSIVE_U
    }

    /** `writer_recurse<allow_readers>` */
    method WriterRecurse(self: Tid, allowReaders: bool)
      requires Valid()
      requires writer == Thread(self)
      requires if allowReaders then recursive != 0 else XDepth(recursive) != 0
      requires Depth(recursive, allowReaders) < RECURSIVE_MAX
      modifies this
      ensures Valid() && State() == SuxSpec.WriterRecurse(old(State()), self, allowReaders)
    {
      recursive := Recurse(recursive, allowReaders);
    }

    /** `set_new_owner`: the debug build asserts that there was an owner. */
    method SetNewOwner(id: Owner)
      requires writer != NoOwner
      modifies this
      ensures writer == id
      ensures recursive == old(recursive) && waits == old(waits)
      ensures readers == old(readers) && lock == old(lock)
    {
      writer := id;
    }

    /** `set_first_owner`: the debug build asserts that there was none. */
    method SetFirstOwner(id: Owner)
      requires writer == NoOwner
      modifies this
      ensures writer == id
      ensures recursive == old(recursive) && waits == old(waits)
      ensures readers == old(readers) && lock == old(lock)
    {
      writer := id;
    }

    /** `s_lock_register`: the insertion into the registry must be new. */
    ghost method SLockRegister(self: Tid)
      requires self !in readers
      modifies this
      ensures readers == old(readers) + {self}
      ensures writer == old(writer) && recursive == old(recursive)
      ensures waits == old(waits) && lock == old(lock)
    {
      readers := readers + {self};
    }

    /** `claim_ownership` */
    method ClaimOwnership(self: Tid)
      requires Valid()
      requires writer != NoOwner
      modifies this
      ensures Valid() && State() == SuxSpec.ClaimOwnership(old(State()), self)
    {
      SetNewOwner(Thread(self));
    }

    /** `have_u_or_x`: the caller is the owner; it then holds some depth and
        the primitive is held in U or X mode. */
    function HaveUOrX(self: Tid): (b: bool)
      reads this
      requires Valid()
      ensures b <==> SuxSpec.HaveUOrX(State(), self)
      ensures b ==> recursive != 0 && lock.mode != Unlocked
    {
      writer == Thread(self)
    }

    /** `have_u_not_x`: the owner with an empty X half; it then holds U
        depth and the primitive is in U mode. */
    function HaveUNotX(self: Tid): (b: bool)
      reads this
      requires Valid()
      ensures b <==> SuxSpec.HaveUNotX(State(), self)
      ensures b ==> UDepth(recursive) > 0 && lock.mode == Update
    {
      HaveUOrX(self) && Mask(recursive / RECURSIVE_X) == 0
    }

    /** `have_x`: the owner with a non-empty X half; the primitive is then
        exclusively held and has no reader. */
    function HaveX(self: Tid): (b: bool)
      reads this
      requires Valid()
      ensures b <==> SuxSpec.HaveX(State(), self)
      ensures b ==> lock.mode == Exclusive && lock.shared == 0 && readers == {}
    {
      HaveUOrX(self) && Mask(recursive / RECURSIVE_X) != 0
    }

    /** `have_s` (debug builds only): the caller is registered as a reader;
        the primitive then has a shared hold and no X holder. */
    ghost function HaveS(self: Tid): (b: bool)
      reads this
      requires Valid()
      ensures b <==> SuxSpec.HaveS(State(), self)
      ensures b ==> lock.shared > 0 && lock.mode != Exclusive
    {
      self in readers
    }

    /** `have_any` (debug builds only): the primitive is then held. */
    ghost function HaveAny(self: Tid): (b: bool)
      reads this
      requires Valid()
      ensures b <==> SuxSpec.HaveAny(State(), self)
      ensures b ==> lock != Idle
    {
      HaveUOrX(self) || HaveS(self)
    }

    /** `s_lock`; `immediate` is the answer of `rd_lock`. */
    method SLock(self: Tid, immediate: bool)
      requires Valid()
      requires !HaveX(self) && !HaveS(self)
      requires lock.CanRead()
      modifies this
      ensures Valid() && State() == SuxSpec.SLock(old(State()), self, immediate)
    {
      lock := lock.RdLock();
      if !immediate {
        waits := (waits + 1) % 0x1_0000_0000;
      }
      SLockRegister(self);
    }

    /** `u_lock`; `immediate` is the answer of the primitive's `u_lock`. */
    method ULock(self: Tid, immediate: bool)
      requires Valid()
      requires writer == Thread(self) ==> UDepth(recursive) < RECURSIVE_MAX
      requires writer != Thread(self) ==> lock.CanUpdate()
      modifies this
      ensures Valid() && State() == SuxSpec.ULock(old(State()), self, immediate)
    {
      if writer == Thread(self) {
        WriterRecurse(self, true);
      } else {
        lock := lock.ULock();
        if !immediate {
          waits := (waits + 1) % 0x1_0000_0000;
        }
        assert recursive == 0;
        recursive := RECURSIVE_U;
        SetFirstOwner(Thread(self));
      }
    }

    /** `x_lock(for_io)`; `immediate` is the answer of `wr_lock`. */
    method XLock(self: Tid, forIo: bool, immediate: bool)
      requires Valid()
      requires writer == Thread(self) ==> !forIo
      requires writer == Thread(self) ==> 0 < XDepth(recursive) < RECURSIVE_MAX
      requires writer != Thread(self) ==> lock.CanWrite()
      modifies this
      ensures Valid() && State() == SuxSpec.XLock(old(State()), self, forIo, immediate)
    {
      if writer == Thread(self) {
        WriterRecurse(self, false);
      } else {
        lock := lock.WrLock();
        if !immediate {
          waits := (waits + 1) % 0x1_0000_0000;
        }
        assert recursive == 0;
        recursive := RECURSIVE_X;
        SetFirstOwner(if forIo then ForIo else Thread(self));
      }
    }

    /** `x_lock_recursive` */
    method XLockRecursive(self: Tid)
      requires Valid()
      requires writer == Thread(self)
      requires 0 < XDepth(recursive) < RECURSIVE_MAX
      modifies this
      ensures Valid() && State() == SuxSpec.WriterRecurse(old(State()), self, false)
    {
      WriterRecurse(self, false);
    }

    /** `u_x_upgrade`; `immediate` is the answer of `u_wr_upgrade`. */
    method UXUpgrade(self: Tid, immediate: bool)
      requires Valid()
      requires HaveUNotX(self)
      requires lock.CanUpgrade()
      modifies this
      ensures Valid() && State() == SuxSpec.UXUpgrade(old(State()), self, immediate)
    {
      lock := lock.UWrUpgrade();
      if !immediate {
        waits := (waits + 1) % 0x1_0000_0000;
      }
      recursive := Upgrade(recursive);
    }

    /** `x_lock_upgraded`; reports whether U holds were upgraded to X. */
    method XLockUpgraded(self: Tid) returns (upgraded: bool)
      requires Valid()
      requires writer == Thread(self) && Mask(recursive) != 0 ==> XDepth(recursive) < RECURSIVE_MAX
      requires writer == Thread(self) && Mask(recursive) == 0 ==> lock.CanUpgrade()
      requires writer != Thread(self) ==> lock.CanWrite()
      modifies this
      ensures Valid() && (State(), upgraded) == SuxSpec.XLockUpgraded(old(State()), self)
    {
      if writer == Thread(self) {
        if Mask(recursive) != 0 {
          WriterRecurse(self, false);
          return false;
        }
        lock := lock.UWrUpgrade();
        recursive := Upgrade(recursive);
        return true;
      } else {
        lock := lock.WrLock();
        assert recursive == 0;
        recursive := RECURSIVE_X;
        SetFirstOwner(Thread(self));
        return false;
      }
    }

    /** `s_lock_try`; `granted` is the answer of `rd_lock_try`. */
    method SLockTry(self: Tid, granted: bool) returns (acquired: bool)
      requires Valid()
      requires granted ==> lock.CanRead() && self !in readers
      modifies this
      ensures Valid() && (State(), acquired) == SuxSpec.SLockTry(old(State()), self, granted)
    {
      acquired := granted;
      if acquired {
        lock := lock.RdLock();
        SLockRegister(self);
      }
    }

    /** `u_lock_try(for_io)`; `granted` is the answer of the primitive's
        `u_lock_try`, asked only when the caller is not the owner. */
    method ULockTry(self: Tid, forIo: bool, granted: bool) returns (acquired: bool)
      requires Valid()
      requires writer == Thread(self) && !forIo ==> UDepth(recursive) < RECURSIVE_MAX
      requires writer != Thread(self) && granted ==> lock.CanUpdate()
      modifies this
      ensures Valid() && (State(), acquired) == SuxSpec.ULockTry(old(State()), self, forIo, granted)
    {
      if writer == Thread(self) {
        if forIo {
          return false;
        }
        WriterRecurse(self, true);
        return true;
      }
      if granted {
        lock := lock.ULock();
        assert recursive == 0;
        recursive := RECURSIVE_U;
        SetFirstOwner(if forIo then ForIo else Thread(self));
        return true;
      }
      return false;
    }

    /** `x_lock_try`; `granted` is the answer of `wr_lock_try`, asked only
        when the caller is not the owner. */
    method XLockTry(self: Tid, granted: bool) returns (acquired: bool)
      requires Valid()
      requires writer == Thread(self) ==> 0 < XDepth(recursive) < RECURSIVE_MAX
      requires writer != Thread(self) && granted ==> lock.CanWrite()
      modifies this
      ensures Valid() && (State(), acquired) == SuxSpec.XLockTry(old(State()), self, granted)
    {
      if writer == Thread(self) {
        WriterRecurse(self, false);
        return true;
      }
      if granted {
        lock := lock.WrLock();
        assert recursive == 0;
        recursive := RECURSIVE_X;
        SetFirstOwner(Thread(self));
        return true;
      }
      return false;
    }

    /** `s_unlock`: the registry must lose exactly one entry, the caller's. */
    method SUnlock(self: Tid)
      requires Valid()
      requires self in readers
      modifies this
      ensures Valid() && State() == SuxSpec.SUnlock(old(State()), self)
    {
      readers := readers - {self};
      lock := lock.RdUnlock();
    }

    /** `u_or_x_unlock(allow_readers, claim_ownership)`, with the release
        order of `SuxSpec.ReleaseInOrder` on the last X hold. */
    method UOrXUnlock(self: Tid, allowReaders: bool, claim: bool)
      requires Valid()
      requires writer == Thread(self) ||
               (writer == ForIo && claim && recursive == Unit(allowReaders))
      requires Depth(recursive, allowReaders) != 0
      requires !allowReaders && XDepth(recursive) == 1 ==> UDepth(recursive) == 0
      modifies this
      ensures Valid() && State() == SuxSpec.UOrXUnlock(old(State()), self, allowReaders, claim)
    {
      UnitIffSingleDepth(recursive, allowReaders);
      recursive := Unrecurse(recursive, allowReaders);
      if recursive == 0 {
        SetNewOwner(NoOwner);
        if allowReaders {
          lock := lock.UUnlock();
        } else {
          lock := lock.WrUnlock();
        }
      }
    }

    /** `u_unlock(claim_ownership)` */
    method UUnlock(self: Tid, claim: bool)
      requires Valid()
      requires writer == Thread(self) || (writer == ForIo && claim && recursive == RECURSIVE_U)
      requires UDepth(recursive) != 0
      modifies this
      ensures Valid() && State() == SuxSpec.UOrXUnlock(old(State()), self, true, claim)
    {
      UOrXUnlock(self, true, claim);
    }

    /** `x_unlock(claim_ownership)`, with the release order of
        `SuxSpec.ReleaseInOrder`. */
    method XUnlock(self: Tid, claim: bool)
      requires Valid()
      requires writer == Thread(self) || (writer == ForIo && claim && recursive == RECURSIVE_X)
      requires XDepth(recursive) != 0
      requires XDepth(recursive) == 1 ==> UDepth(recursive) == 0
      modifies this
      ensures Valid() && State() == SuxSpec.UOrXUnlock(old(State()), self, false, claim)
    {
      UOrXUnlock(self, false, claim);
    }
  }
}
