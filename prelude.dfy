/** Small shared vocabulary: Kotlin's nullable values and its 32-bit `Int`. */
module Prelude {

  /** A Kotlin nullable value: `None` stands for `null`. */
  datatype Option<+T> = None | Some(value: T)

  /** Kotlin's `Int`. */
  newtype int32 = x: int | -0x8000_0000 <= x < 0x8000_0000

  const Int32Max: int32 := 0x7fff_ffff
  const Int32Min: int32 := -0x8000_0000
}
