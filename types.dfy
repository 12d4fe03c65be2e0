/** Machine integer widths and the error-carrying wrappers shared by the codec, the
    TCP client and the console. */
module Types {

  /** A Go `byte`. */
  newtype byte = x: int | 0 <= x < 0x100

  /** A Go `uint16`. */
  newtype uint16 = x: int | 0 <= x < 0x1_0000

  /** Go's conversion `uint16(i)` of a (two's complement) integer: the low 16 bits, that is
      the one `uint16` congruent to `i` modulo 2^16. */
  function ToUint16(i: int): (r: uint16)
    ensures (i - r as int) % 0x1_0000 == 0
    ensures 0 <= i < 0x1_0000 ==> r as int == i
  {
    (i % 0x1_0000) as uint16
  }

  datatype Option<T> = None | Some(value: T)

  /** A value or an error, usable with `:-`. */
  datatype Result<R, E> = Success(value: R) | Failure(error: E) {
    predicate IsFailure() {
      Failure?
    }

    function PropagateFailure<U>(): Result<U, E>
      requires Failure?
    {
      Failure(error)
    }

    function Extract(): R
      requires Success?
    {
      value
    }
  }
}
