/**
 Shared value types of the model: the fixed-width unsigned integers the .NET
 source stores (`byte`, `uint`), and the Option/Result wrappers that stand for
 a null reference and for a thrown exception respectively.
 */
module Base {

  /** A .NET `byte`. */
  type byte = x: int | 0 <= x < 0x100

  /** A .NET `uint` (32 bits, unsigned). */
  type uint32 = x: int | 0 <= x < 0x1_0000_0000

  const UINT32_MAX: int := 0xFFFF_FFFF

  /** `None` plays the part of a C# `null`. */
  datatype Option<T> = None | Some(value: T)

  /** `Failure` plays the part of an exception escaping an operation. */
  datatype Result<T, E> = Success(value: T) | Failure(error: E) {

    predicate IsFailure() {
      Failure?
    }

    function PropagateFailure<U>(): Result<U, E>
      requires Failure?
    {
      Failure(error)
    }

    function Extract(): T
      requires Success?
    {
      value
    }
  }
}
