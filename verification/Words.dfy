/**
 Machine words and the failure-compatible result types shared by every module.

 Integers are unbounded in Dafny, so the source's `u64` is a subset type and each
 checked or wrapping operation is written out where the source performs it.
 */
module Words {

  const U64_MAX: int := 0xFFFF_FFFF_FFFF_FFFF
  const PAGE_SIZE: int := 4096

  type u32 = x: int | 0 <= x <= 0xFFFF_FFFF

  type u64 = x: int | 0 <= x <= 0xFFFF_FFFF_FFFF_FFFF

  datatype Option<+T> = None | Some(value: T)

  datatype Result<+T, +E> = Ok(value: T) | Err(error: E) {
    predicate IsFailure() {
      Err?
    }

    function PropagateFailure<U>(): Result<U, E>
      requires Err?
    {
      Err(error)
    }

    function Extract(): T
      requires Ok?
    {
      value
    }
  }

  /** A check that carries no value: the source's `Result<(), E>`. */
  datatype Outcome<+E> = Pass | Fail(error: E) {
    predicate IsFailure() {
      Fail?
    }

    function PropagateFailure<U>(): Result<U, E>
      requires Fail?
    {
      Err(error)
    }
  }
}
