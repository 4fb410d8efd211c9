/** Types that several models use. */
module Prelude {

  datatype Option<+T> = None | Some(value: T)

  datatype Result<+T, +E> = Ok(value: T) | Err(error: E)

  type Byte = b: int | 0 <= b < 256 witness 0

  function Min(a: nat, b: nat): nat {
    if a < b then a else b
  }
}
