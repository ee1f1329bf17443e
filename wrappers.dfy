/** Small value types shared by every module of the model. */
module Wrappers {
  /** Rust's `Option`. */
  datatype Option<T> = None | Some(value: T)

  /** Rust's `Result`, for operations that return an error value. */
  datatype Result<T, E> = Ok(value: T) | Err(error: E)

  /** Why a Rust operation panics (debug build semantics). */
  datatype Panic =
    | IndexOutOfBounds   // slice or Vec index, `Vec::remove`/`insert` past the end
    | MissingKey         // `HashMap` index with an absent key
    | DivisionByZero     // `/` or `%` by zero
    | Underflow          // `usize` subtraction below zero
    | EmptyRange         // `gen_range` on an empty range
    | UnwrapNone         // `Option::unwrap` on `None`, `Result::unwrap` on `Err`
    | Unimplemented      // `todo!()`

  /** The outcome of running a piece of Rust code that may panic. */
  datatype Exec<T> = Done(value: T) | Panics(reason: Panic)

  /** Where the code as written does not do what it evidently means to, `AsWritten`
      models the code and `Corrected` what it means. */
  datatype Revision = AsWritten | Corrected

  /** Rust's `u32`. */
  newtype u32 = x: int | 0 <= x < 0x1_0000_0000

  const U32_MAX: int := 0xFFFF_FFFF
}
