/** Small helpers shared by the other modules. */
module Wrappers {

  /** A value that may be absent (undefined or null on the JavaScript side). */
  datatype Option<+T> = None | Some(value: T)

  /** `Math.max` and `Math.min` on integers. */
  function Max(a: int, b: int): int { if a >= b then a else b }
  function Min(a: int, b: int): int { if a <= b then a else b }
}
