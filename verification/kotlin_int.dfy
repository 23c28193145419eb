/** The two bounds of Kotlin's 32-bit `Int` that the report code uses as
    sentinels before its first comparison. */
module KotlinInt {

  /** `Int.MAX_VALUE`, 2^31 - 1. */
  const MaxValue: int := 0x7fff_ffff

  /** `Int.MIN_VALUE`, -2^31. */
  const MinValue: int := -0x8000_0000
}
