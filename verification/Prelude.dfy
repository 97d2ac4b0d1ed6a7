/** Types shared by the whole model: poll results, errors, wakers and wrapping 32-bit clocks. */
module Prelude {

  datatype Option<+T> = None | Some(value: T)

  /** What one poll of a future returns. */
  datatype Poll<+T> = Pending | Ready(value: T)

  /** The io::Result values that the runtime itself produces, and a code for those of the C library. */
  datatype Io<+T> = Ok(value: T) | BrokenPipe | UnexpectedEof | Interrupted | Failed(code: int)

  /** A waker is identified with the task that it wakes. */
  type Task = nat

  const TWO_TO_THE_32 := 0x1_0000_0000

  type U32 = x: int | 0 <= x < TWO_TO_THE_32

  /** u32 addition of a release build: it wraps. */
  function WrapAdd(a: U32, b: U32): (r: U32)
    ensures r == (a + b) % TWO_TO_THE_32
  {
    if a + b < TWO_TO_THE_32 then a + b else a + b - TWO_TO_THE_32
  }

  /** u32 subtraction of a release build: it wraps. */
  function WrapSub(a: U32, b: U32): (r: U32)
    ensures r == (a - b) % TWO_TO_THE_32
  {
    if b <= a then a - b else a - b + TWO_TO_THE_32
  }

  /** The 32-bit reading of a true time in milliseconds (now_mills). */
  function Reading(time: nat): U32 {
    time % TWO_TO_THE_32
  }
}
