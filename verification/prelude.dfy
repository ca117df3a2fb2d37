/** Shared vocabulary of the model: optional values, the run-time panics the
    modelled Go code can raise, and a small integer helper. */
module Prelude {

  /** The conventional Some/None datatype, used for the outcome of parsing a
      decimal number. */
  datatype Option<+T> = None | Some(value: T)

  /** The two ways the modelled Go code can panic. */
  datatype Panic =
    | IndexOutOfRange   // a slice indexed outside [0, len)
    | IntnNonPositive   // math/rand.Intn called with an argument <= 0

  /** The outcome of a Go call that either returns a value or panics. */
  datatype Result<+R> = Ok(value: R) | Panicked(panic: Panic)

  function Min(a: int, b: int): int
  {
    if a <= b then a else b
  }
}
