/** Fixed-width integers of the engine and the small result types every other module shares. */
module Common {

  const Two32: int := 0x1_0000_0000

  /** `uint32_t` and `unsigned int`. */
  type uint32 = x: int | 0 <= x < 0x1_0000_0000

  /** `int32_t` and `int`. */
  type int32 = x: int | -0x8000_0000 <= x < 0x8000_0000

  /** The largest value of a 64-bit `size_t`. */
  const SizeMax: nat := 0xFFFF_FFFF_FFFF_FFFF

  /** `static_cast<int32_t>` of an unsigned size: the size modulo 2^32, read in two's complement. */
  function Int32Of(n: nat): (r: int32)
    ensures n < 0x8000_0000 ==> r == n
    ensures (r as int) % Two32 == n % Two32
  {
    var w := n % Two32;
    if w < 0x8000_0000 then w else w - Two32
  }

  /** The usual arithmetic conversion that C++ applies to a signed 32-bit value compared with a `size_t`. */
  function SizeOf(x: int32): (r: nat)
    ensures 0 <= x ==> r == x
    ensures x < 0 ==> SizeMax - 0x8000_0000 < r <= SizeMax
  {
    if x < 0 then x + SizeMax + 1 else x
  }

  /** A result that may be null, or a lookup that may miss. */
  datatype Option<T> = None | Some(value: T)

  /** The outcome of a call that either returns a value or throws. */
  datatype Result<T, E> = Success(value: T) | Failure(error: E)

  /** The outcome of a `void` call that may throw. */
  datatype Outcome<E> = Pass | Fail(error: E)

  /** Raw, caller-supplied storage that a placement-new constructs an object into. */
  class Storage<T> {
    var content: Option<T>

    constructor ()
      ensures content == None
    {
      content := None;
    }
  }
}
