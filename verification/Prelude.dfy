/** Shared result types and small arithmetic. */
module Prelude {

  datatype Option<+T> = None | Some(value: T)

  /** A method that can raise returns one of these instead. */
  datatype Result<+T> = Ok(value: T) | Err(message: string)

  function Max(a: real, b: real): real { if a >= b then a else b }
  function Min(a: real, b: real): real { if a <= b then a else b }
}
