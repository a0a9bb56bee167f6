/** The packed recursion counter of `sux_lock`: one 32-bit word holding the
    X depth in its low 16 bits (unit `RECURSIVE_X`) and the U depth in its
    high 16 bits (unit `RECURSIVE_U`). */
module Packed {

  /** The C++ `uint32_t`. */
  type uint32 = r: int | 0 <= r < 0x1_0000_0000

  const RECURSIVE_X: uint32 := 1
  const RECURSIVE_U: uint32 := 0x1_0000
  /** The largest depth a mode may reach. */
  const RECURSIVE_MAX: uint32 := RECURSIVE_U - 1

  /** `v & RECURSIVE_MAX`: the mask 2^16 - 1 keeps the low 16 bits, which is
      the remainder modulo 2^16. */
  function Mask(v: uint32): uint32
  {
    v % (RECURSIVE_MAX + 1)
  }

  /** The unit of one mode: `allow_readers ? RECURSIVE_U : RECURSIVE_X`. */
  function Unit(allowReaders: bool): uint32
  {
    if allowReaders then RECURSIVE_U else RECURSIVE_X
  }

  /** `(recursive / unit) & RECURSIVE_MAX`: the depth of one mode. */
  function Depth(r: uint32, allowReaders: bool): uint32
  {
    if allowReaders then Mask(r / RECURSIVE_U) else Mask(r / RECURSIVE_X)
  }

  function XDepth(r: uint32): uint32 { Depth(r, false) }

  function UDepth(r: uint32): uint32 { Depth(r, true) }

  /** The word that holds U depth `u` and X depth `x`; reading it back
      gives both depths. */
  function Pack(u: nat, x: nat): (r: uint32)
    requires u <= RECURSIVE_MAX && x <= RECURSIVE_MAX
    ensures UDepth(r) == u && XDepth(r) == x
  {
    u * RECURSIVE_U + x
  }

  /** Every word is the packing of its two depths, so the two depths
      determine it. */
  lemma PackOfDepths(r: uint32)
    ensures r == Pack(UDepth(r), XDepth(r))
  {
  }

  /** The word is zero exactly when both depths are. */
  lemma ZeroIffNoDepth(r: uint32)
    ensures r == 0 <==> UDepth(r) == 0 && XDepth(r) == 0
  {
  }

  /** The word equals one unit of a mode exactly when that mode has depth
      one and the other mode depth zero. */
  lemma UnitIffSingleDepth(r: uint32, allowReaders: bool)
    ensures r == Unit(allowReaders) <==>
              Depth(r, allowReaders) == 1 && Depth(r, !allowReaders) == 0
  {
  }

  /** `recursive += unit` in `writer_recurse`: with the depth below the cap,
      the addition does not carry into the other mode's half. */
  function Recurse(r: uint32, allowReaders: bool): (r': uint32)
    requires Depth(r, allowReaders) < RECURSIVE_MAX
    ensures Depth(r', allowReaders) == Depth(r, allowReaders) + 1
    ensures Depth(r', !allowReaders) == Depth(r, !allowReaders)
  {
    PackOfDepths(r);
    if allowReaders then r + RECURSIVE_U else r + RECURSIVE_X
  }

  /** `recursive -= unit` in `u_or_x_unlock`: with a non-zero depth, the
      subtraction does not borrow from the other mode's half, and it leaves
      zero exactly when this was the last hold of either mode. */
  function Unrecurse(r: uint32, allowReaders: bool): (r': uint32)
    requires Depth(r, allowReaders) > 0
    ensures Depth(r', allowReaders) == Depth(r, allowReaders) - 1
    ensures Depth(r', !allowReaders) == Depth(r, !allowReaders)
    ensures r' == 0 <==> Depth(r, allowReaders) == 1 && Depth(r, !allowReaders) == 0
  {
    PackOfDepths(r);
    if allowReaders then r - RECURSIVE_U else r - RECURSIVE_X
  }

  /** `recursive /= RECURSIVE_U` in the upgrade: with no X depth, the old U
      depth becomes the X depth and nothing is left in the U half. */
  function Upgrade(r: uint32): (r': uint32)
    requires XDepth(r) == 0
    ensures XDepth(r') == UDepth(r) && UDepth(r') == 0
  {
    r / RECURSIVE_U
  }
}
