/** Small shared vocabulary: an optional value (a C# reference that may be
    null) and the 32-bit signed integers that C# `int` stands for. */
module Base {

  /** A reference that may be null. */
  datatype Option<+T> = None | Some(value: T)

  const INT32_MIN: int := -0x8000_0000
  const INT32_MAX: int := 0x7FFF_FFFF
  const TWO_TO_THE_32: int := 0x1_0000_0000

  /** The values of a C# `int`. */
  newtype int32 = x: int | -0x8000_0000 <= x < 0x8000_0000

  /** The result of C# `int` arithmetic in the default unchecked context:
      the mathematical result taken modulo 2^32 into the signed range. */
  function Wrap32(x: int): (r: int32)
    ensures (r as int - x) % TWO_TO_THE_32 == 0
    ensures INT32_MIN <= x <= INT32_MAX ==> r as int == x
  {
    (((x - INT32_MIN) % TWO_TO_THE_32) + INT32_MIN) as int32
  }
}
