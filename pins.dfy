// Pin and port numbering shared by the variant headers: the core's
// NOT_A_PIN marker, the port numbers PA..PG, and the build option that
// takes one TCB away from PWM when it drives millis().

module Pins {
  /** The core's marker for "no such pin" (and "no such channel"). */
  const NOT_A_PIN: int := 255

  /** Port numbers as the core numbers them. */
  const PA: int := 0
  const PB: int := 1
  const PC: int := 2
  const PD: int := 3
  const PE: int := 4
  const PF: int := 5
  const PG: int := 6

  /** The macros take 8-bit pin and channel numbers. */
  type U8 = x: int | 0 <= x < 256

  /** Which timer drives millis(): one of the TCBs, or something else (TCA, TCD, RTC or none). */
  datatype MillisTimer = MillisB0 | MillisB1 | MillisB2 | MillisB3 | MillisB4 | MillisOther

  /** PINn_bm for each bit position n: 1 << n. */
  const BIT_MASKS: seq<int> := [1, 2, 4, 8, 16, 32, 64, 128]
}
