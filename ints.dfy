/** The fixed-width machine integers the game uses, and the release-build
    wrap-around of Rust's `as` casts and arithmetic on them. */
module Ints {

  const U16Limit: int := 0x1_0000
  const I16Min: int := -0x8000

  type u8 = x: int | 0 <= x < 0x100
  type u16 = x: int | 0 <= x < 0x1_0000
  type i16 = x: int | -0x8000 <= x < 0x8000

  /** Reduction of an integer into u16, as a cast `as u16` does. */
  function WrapU16(n: int): (r: u16)
    ensures 0 <= n < U16Limit ==> r == n
    ensures (n - r) % U16Limit == 0
  {
    n % U16Limit
  }

  /** Reduction of an integer into i16, as a cast `as i16` or a wrapping
      i16 operation does. */
  function WrapI16(n: int): (r: i16)
    ensures I16Min <= n < -I16Min ==> r == n
    ensures (n - r) % U16Limit == 0
  {
    (n - I16Min) % U16Limit + I16Min
  }
}
