/** Matrix elements and the `Zero` capability of src/traits.rs.

    Elements are modelled as unbounded integers. The source implements
    `Zero` for ten primitive integer types through the `zero!` macro, and
    every one of them returns the literal 0, the product accumulator's
    initial value. */
module Scalar {

  /** `Zero::zero()`: the additive identity, the only `z` with `z + z == z`. */
  function Zero(): (z: int)
    ensures z + z == z
  {
    0
  }
}
