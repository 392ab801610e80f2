/** Option/Result values and the fixed-width integers of the Rust source. */
module Wrappers {
  datatype Option<+T> = None | Some(value: T)

  datatype Result<+T, +E> = Ok(value: T) | Err(error: E)
}

/**
 * Rust's `u8` and `i8` as subset types of `int`, and the debug-build
 * semantics of their arithmetic: an operation whose exact result does not
 * fit panics, which the model records as `Overflow`.
 */
module Ints {
  type u8 = x: int | 0 <= x < 256
  type i8 = x: int | -128 <= x < 128

  /** The outcome of evaluating integer code that may panic on overflow. */
  datatype Eval<+T> = Done(value: T) | Overflow

  function Add8(a: u8, b: u8): (r: Eval<u8>)
    ensures r.Done? <==> a + b < 256
    ensures r.Done? ==> r.value == a + b
  {
    if a + b < 256 then Done(a + b) else Overflow
  }

  function Sub8(a: u8, b: u8): (r: Eval<u8>)
    ensures r.Done? <==> b <= a
    ensures r.Done? ==> r.value == a - b
  {
    if b <= a then Done(a - b) else Overflow
  }

  function Mul8(a: u8, b: u8): (r: Eval<u8>)
    ensures r.Done? <==> a * b < 256
    ensures r.Done? ==> r.value == a * b
  {
    if a * b < 256 then Done(a * b) else Overflow
  }

  /** `u8::saturating_sub`: never panics, stops at zero. */
  function SaturatingSub8(a: u8, b: u8): (r: u8)
    ensures r == if b <= a then a - b else 0
  {
    if b <= a then a - b else 0
  }

  /** `i8::abs`, which panics on `-128` in a debug build. */
  function Abs8(a: i8): (r: Eval<i8>)
    ensures r.Done? <==> a != -128
    ensures r.Done? ==> r.value >= 0 && (r.value == a || r.value == -a)
  {
    if a == -128 then Overflow else if a < 0 then Done(-a) else Done(a)
  }
}
