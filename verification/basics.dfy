/** Byte strings and the two result shapes every other module uses. */
module Basics {
  newtype byte = i: int | 0 <= i < 256

  /** Go strings are byte strings: provider ids, field names and credential values are all of this type. */
  type Bytes = seq<byte>

  const NUL: byte := 0

  predicate NulFree(b: Bytes) {
    NUL !in b
  }

  datatype Option<+T> = None | Some(value: T)

  datatype Result<+T, +E> = Ok(value: T) | Err(error: E)

  /** The bytes of an ASCII string. */
  function Ascii(s: string): Bytes
    requires forall i :: 0 <= i < |s| ==> s[i] < 128 as char
  {
    seq(|s|, i requires 0 <= i < |s| => s[i] as int as byte)
  }

  /** An instant or a duration, in nanoseconds. */
  type Time = int
}
