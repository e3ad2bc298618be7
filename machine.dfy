/** Fixed-width integer behaviour of the Rust code, written out over unbounded integers. */
module Machine {
  import opened Wrappers

  /** `usize::MAX` on the 64-bit targets the backend is built for. */
  const USIZE_MAX: nat := 0xFFFF_FFFF_FFFF_FFFF
  const U64_MAX: nat := 0xFFFF_FFFF_FFFF_FFFF
  const I64_MAX: int := 0x7FFF_FFFF_FFFF_FFFF
  const TWO_64: nat := 0x1_0000_0000_0000_0000
  /** `isize::MAX`, the largest length a Rust `String` can have. */
  const ISIZE_MAX: nat := 0x7FFF_FFFF_FFFF_FFFF
  const U32_MAX: nat := 0xFFFF_FFFF

  /** `usize::saturating_add`: the sum, or `usize::MAX` when it does not fit. */
  function SaturatingAdd(a: nat, b: nat): (r: nat)
    requires a <= USIZE_MAX
    ensures a <= r <= USIZE_MAX
    ensures r == a + b || r == USIZE_MAX
    ensures a + b <= USIZE_MAX ==> r == a + b
  {
    if a + b <= USIZE_MAX then a + b else USIZE_MAX
  }

  /** `usize::saturating_sub`: the difference, or 0 when it would be negative. */
  function SaturatingSub(a: nat, b: nat): (r: nat)
    ensures r <= a
    ensures b <= a ==> r + b == a
    ensures a < b ==> r == 0
  {
    if b <= a then a - b else 0
  }

  /** `u64::wrapping_mul`. */
  function WrappingMul64(a: nat, b: nat): (r: nat)
    ensures r < TWO_64
  {
    (a * b) % TWO_64
  }

  /** Two to the power `n`. */
  function Pow2(n: nat): (r: nat)
    ensures r >= 1
  {
    if n == 0 then 1 else 2 * Pow2(n - 1)
  }

  lemma {:induction false} Pow2Monotone(a: nat, b: nat)
    requires a <= b
    ensures Pow2(a) <= Pow2(b)
    decreases b
  {
    if a < b {
      Pow2Monotone(a, b - 1);
    }
  }

  /** `u64::checked_shl` applied to 1: `1 << n`, or `None` once the shift reaches the width. */
  function CheckedShlOne64(n: nat): (r: Option<nat>)
    ensures r.Some? <==> n < 64
  {
    if n < 64 then Some(Pow2(n)) else None
  }

  /** `u64::saturating_mul`. */
  function SaturatingMul64(a: nat, b: nat): (r: nat)
    ensures r <= U64_MAX
    ensures a * b <= U64_MAX ==> r == a * b
    ensures a * b > U64_MAX ==> r == U64_MAX
  {
    if a * b <= U64_MAX then a * b else U64_MAX
  }

  /** Saturating multiplication never decreases when its second factor grows. */
  lemma SaturatingMulMonotone(a: nat, b: nat, c: nat)
    requires b <= c
    ensures SaturatingMul64(a, b) <= SaturatingMul64(a, c)
  {
    MulMonotone(a, b, c);
  }

  /** A product never decreases when its second factor grows. */
  lemma {:induction false} MulMonotone(a: nat, b: nat, c: nat)
    requires b <= c
    ensures a * b <= a * c
    decreases a
  {
    if a > 0 {
      MulMonotone(a - 1, b, c);
      assert a * b == (a - 1) * b + b;
      assert a * c == (a - 1) * c + c;
    }
  }
}
