/** Properties of the `sux_lock` bookkeeping that relate several calls:
    recursion round trips, the upgrade, FOR_IO transfer, mutual exclusion,
    wait accounting, the lifecycle, and the release order that the source
    leaves unchecked. */
module SuxProperties {
  import opened Packed
  import opened Primitive
  import opened SuxSpec

  /** `k` recursive holds of one mode taken by the owner. */
  function RecurseTimes(s: Sux, self: Tid, allowReaders: bool, k: nat): (r: Sux)
    requires Valid(s)
    requires k > 0 ==> s.writer == Thread(self)
    requires k > 0 ==> if allowReaders then s.u + s.x != 0 else s.x != 0
    requires ReleasedDepth(s, allowReaders) + k <= RECURSIVE_MAX
    ensures Valid(r)
    ensures ReleasedDepth(r, allowReaders) == ReleasedDepth(s, allowReaders) + k
    ensures ReleasedDepth(r, !allowReaders) == ReleasedDepth(s, !allowReaders)
    ensures r.writer == s.writer && r.lock == s.lock
    ensures r.waits == s.waits && r.readers == s.readers
    decreases k
  {
    if k == 0 then s else WriterRecurse(RecurseTimes(s, self, allowReaders, k - 1), self, allowReaders)
  }

  /** `k` releases of one mode by the owner, the last X hold last. */
  function UnlockTimes(s: Sux, self: Tid, allowReaders: bool, k: nat): (r: Sux)
    requires Valid(s)
    requires k <= ReleasedDepth(s, allowReaders)
    requires k > 0 ==> s.writer == Thread(self)
    requires !allowReaders && k == s.x && k > 0 ==> s.u == 0
    ensures Valid(r)
    ensures ReleasedDepth(r, allowReaders) == ReleasedDepth(s, allowReaders) - k
    ensures ReleasedDepth(r, !allowReaders) == ReleasedDepth(s, !allowReaders)
    ensures r.writer == if r.u + r.x == 0 then NoOwner else s.writer
    ensures r.lock == if r.u + r.x == 0 then Idle.(shared := s.lock.shared) else s.lock
    ensures r.waits == s.waits && r.readers == s.readers
    decreases k
  {
    if k == 0 then s
    else UnlockTimes(UOrXUnlock(s, self, allowReaders, false), self, allowReaders, k - 1)
  }

  /** Taking X once and recursing `n - 1` times needs exactly `n` releases:
      fewer leave the caller holding X, `n` give back the lock exactly as it
      was, apart from the wait counter of the first acquisition. */
  lemma RecursiveXRoundTrip(s: Sux, self: Tid, n: nat, immediate: bool)
    requires Valid(s) && s.lock.CanWrite()
    requires 1 <= n <= RECURSIVE_MAX
    ensures var held := RecurseTimes(XLock(s, self, false, immediate), self, false, n - 1);
            && (forall j :: 0 <= j < n ==> HaveX(UnlockTimes(held, self, false, j), self))
            && UnlockTimes(held, self, false, n) == s.(waits := Bump(s.waits, !immediate))
  {
  }

  /** The upgrade keeps the depth: a U-only owner of depth `k` becomes an X
      owner that needs exactly `k` X releases, and no U release, to give
      the lock back. */
  lemma UpgradePreservesDepth(s: Sux, self: Tid, immediate: bool)
    requires Valid(s) && HaveUNotX(s, self) && s.lock.CanUpgrade()
    ensures var up := UXUpgrade(s, self, immediate);
            && HaveX(up, self) && !HaveUNotX(up, self) && up.u == 0
            && (forall j :: 0 <= j < s.u ==> HaveX(UnlockTimes(up, self, false, j), self))
            && UnlockTimes(up, self, false, s.u) ==
               Sux(NoOwner, 0, 0, Bump(s.waits, !immediate), s.readers, Idle)
  {
  }

  /** An owner of X recurses into U twice: each mode is released on its own
      count, and X stays held until its own release. Releasing the X hold
      while the U holds remain is out of the release order. */
  lemma IndependentCounters(s: Sux, self: Tid, immediate: bool)
    requires Valid(s) && s.lock.CanWrite()
    ensures var held := ULock(ULock(XLock(s, self, false, immediate), self, true), self, true);
            && held.u == 2 && held.x == 1 && !ReleaseInOrder(held, false)
            && var u1 := UOrXUnlock(held, self, true, false);
            && HaveX(u1, self) && u1.u == 1
            && var u2 := UOrXUnlock(u1, self, true, false);
            && HaveX(u2, self) && u2.u == 0
            && UOrXUnlock(u2, self, false, false) == s.(waits := Bump(s.waits, !immediate))
  {
  }

  /** `x_lock(for_io = true)` leaves an owner that is no thread. Another
      thread releases it by claiming, either in the unlock call or with
      `claim_ownership` first, but not by a plain unlock. */
  lemma ForIoTransfer(s: Sux, io: Tid, other: Tid, immediate: bool)
    requires Valid(s) && s.lock.CanWrite()
    ensures var held := XLock(s, io, true, immediate);
            && held.writer == ForIo
            && (forall t :: !HaveUOrX(held, t))
            && !MayRelease(held, other, false, false)
            && MayRelease(held, other, false, true)
            && UOrXUnlock(held, other, false, true) == s.(waits := held.waits)
            && UOrXUnlock(ClaimOwnership(held, other), other, false, false) == s.(waits := held.waits)
  {
  }

  /** While any owner holds X, no other thread's try can be granted. */
  lemma ExclusiveExcludesTries(s: Sux, other: Tid, forIo: bool, gs: bool, gu: bool, gx: bool)
    requires Valid(s) && s.x > 0 && s.writer != Thread(other)
    requires gs ==> s.lock.CanRead() && !HaveS(s, other)
    requires gu ==> s.lock.CanUpdate()
    requires gx ==> s.lock.CanWrite()
    ensures !SLockTry(s, other, gs).1
    ensures !ULockTry(s, other, forIo, gu).1
    ensures !XLockTry(s, other, gx).1
  {
  }

  /** `s_lock_try` by each thread of `ts` in turn, each granted by the
      primitive, with whether every call succeeded. */
  function SLockTryAll(s: Sux, ts: seq<Tid>): (r: (Sux, bool))
    requires Valid(s) && s.x == 0
    requires forall i, j :: 0 <= i < j < |ts| ==> ts[i] != ts[j]
    requires forall i :: 0 <= i < |ts| ==> ts[i] !in s.readers
    ensures r.1
    ensures Valid(r.0) && r.0.x == 0
    ensures forall t :: t in r.0.readers <==> t in s.readers || t in ts
    ensures r.0.lock.shared == s.lock.shared + |ts|
    ensures r.0.writer == s.writer && r.0.u == s.u && r.0.waits == s.waits
    decreases |ts|
  {
    if ts == [] then (s, true)
    else
      var init, t := ts[..|ts| - 1], ts[|ts| - 1];
      assert ts == init + [t];
      var step := SLockTryAll(s, init);
      var last := SLockTry(step.0, t, true);
      (last.0, step.1 && last.1)
  }

  /** Any registered reader keeps every X acquisition of another thread
      from being granted. */
  lemma SharedConcurrency(s: Sux, other: Tid, gx: bool)
    requires Valid(s) && s.writer != Thread(other) && s.readers != {}
    requires gx ==> s.lock.CanWrite()
    ensures !XLockTry(s, other, gx).1
  {
  }

  /** The scenario of one U holder and one X waiter: while `t1` holds U,
      `t2`'s `x_lock` cannot be granted; after `t1`'s `u_unlock` it is, and
      if it had to wait the counter goes up by one. */
  lemma UpdateThenWaitingWriter(s: Sux, t1: Tid, t2: Tid)
    requires Valid(s) && s.lock.CanWrite() && t1 != t2
    ensures var u := ULock(s, t1, true);
            && !u.lock.CanWrite()
            && var freed := UOrXUnlock(u, t1, true, false);
            && freed.lock.CanWrite()
            && var x := XLock(freed, t2, false, false);
            && HaveX(x, t2) && x.waits == (s.waits + 1) % 0x1_0000_0000
  {
  }

  /** The wait counter moves exactly when the primitive reports a wait. */
  lemma WaitsCountBlocking(w: uint32, waited: bool)
    ensures Bump(w, waited) != w <==> waited
  {
  }

  /** A freshly initialised lock may be freed, and any lock that may be
      freed has its primitive completely released. */
  lemma Lifecycle(s: Sux)
    requires Valid(s) && MayFree(s)
    ensures s.lock == Idle
    ensures MayFree(Initial())
  {
  }

  /** The release `u_or_x_unlock` performs as written, for an X owner that
      recursed into U and then releases its X hold first: the bookkeeping
      then reports U without X while the primitive is still exclusive, so
      the owner's next `u_unlock` would call the primitive's `u_unlock` on
      an exclusive lock, and `u_x_upgrade` its upgrade. */
  lemma ReleaseOutOfOrderAsWritten(s: Sux, t: Tid)
    requires Valid(s) && s.lock.CanWrite()
    ensures var held := ULock(XLock(s, t, false, true), t, true);
            && var after := UOrXUnlockAsWritten(held, t, false, false);
            && HaveUNotX(after, t) && after.u == 1
            && after.lock.mode == Exclusive
            && !Valid(after)
            && !ReleaseInOrder(held, false)
  {
  }
}
