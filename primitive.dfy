/** The contract of the non-recursive lock underneath `sux_lock`
    (`srw_lock` / `srw_lock_low`), as abstract state only: which of U or X
    is held, and how many shared holds there are. Blocking, waking and the
    lock word itself are not modelled. */
module Primitive {

  datatype Mode = Unlocked | Update | Exclusive

  datatype Srw = Srw(mode: Mode, shared: nat) {

    /** `rd_lock` can be granted: nobody holds X (a U holder admits readers). */
    predicate CanRead() { mode != Exclusive }

    /** `u_lock` can be granted: nobody holds U or X. */
    predicate CanUpdate() { mode == Unlocked }

    /** `wr_lock` can be granted: nobody holds the lock in any mode. */
    predicate CanWrite() { mode == Unlocked && shared == 0 }

    /** `u_wr_upgrade` completes: U is held and the readers have drained. */
    predicate CanUpgrade() { mode == Update && shared == 0 }

    function RdLock(): Srw
      requires CanRead()
    {
      this.(shared := shared + 1)
    }

    function RdUnlock(): Srw
      requires shared > 0
    {
      this.(shared := shared - 1)
    }

    function ULock(): Srw
      requires CanUpdate()
    {
      this.(mode := Update)
    }

    /** `u_unlock` releases a U hold; on any other mode it breaks the
        primitive's contract. */
    function UUnlock(): Srw
      requires mode == Update
    {
      this.(mode := Unlocked)
    }

    function WrLock(): Srw
      requires CanWrite()
    {
      this.(mode := Exclusive)
    }

    function WrUnlock(): Srw
      requires mode == Exclusive
    {
      this.(mode := Unlocked)
    }

    function UWrUpgrade(): Srw
      requires CanUpgrade()
    {
      this.(mode := Exclusive)
    }
  }

  /** A lock that nobody holds. */
  const Idle := Srw(Unlocked, 0)
}
