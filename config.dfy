/** Compile-time configuration of the dark-activated switch firmware and the
    16-bit machine arithmetic its registers and counters live in. */
module Config {

  /** A 16-bit unsigned value: registers such as TAR/TACCRx, the ADC result, the tick counter. */
  type U16 = x: int | 0 <= x < 0x1_0000

  /** Range of the 16-bit signed `int` of the target. */
  const Int16Min: int := -0x8000
  const Int16Max: int := 0x7FFF

  /** Hysteresis band of the photodiode sample: below the low threshold it is dark,
      above the high threshold it is light. */
  const DarknessThresholdL: U16 := 0x090
  const DarknessThresholdH: U16 := 0x0a0

  /** Fade length: 30 seconds of 15 timer overflows each. */
  const LightupTimeSec: nat := 30
  const OverflowsPerSecond: nat := 15
  const LightupTimeInt: nat := LightupTimeSec * OverflowsPerSecond

  /** PWM period in timer ticks and the number of ticks per duty percent. */
  const DutyCycleTicks: nat := 1000
  const DutyCyclePresc: nat := DutyCycleTicks / 100

  /** On-time in timer ticks of a duty of `percent`, `percent * DutyCyclePresc`.
      The multiplier is written out so that the arithmetic stays linear. */
  function OnTicks(percent: int): int
  {
    percent * 10
  }

  /** Shortest on-time, in timer ticks, for which two compare interrupts can still be serviced. */
  const MinServiceTicks: nat := 20

  /** Value of the activation counter that means "no fade running". */
  const Sentinel: U16 := 0xFFFF

  /** Result of unsigned 16-bit arithmetic (`unsigned int` on MSP430): the value
      that the hardware keeps of `x`. */
  function Wrap16(x: int): (r: U16)
    ensures (x - r) % 0x1_0000 == 0
    ensures 0 <= x < 0x1_0000 ==> r == x
  {
    x % 0x1_0000
  }

  /** The PWM period is a whole number of percent steps, as the configuration demands. */
  lemma PeriodIsWholePercents(percent: int)
    ensures DutyCyclePresc * 100 == DutyCycleTicks
    ensures OnTicks(percent) == percent * DutyCyclePresc
    ensures DarknessThresholdL < DarknessThresholdH
    ensures 0 < LightupTimeInt && 100 * LightupTimeInt < 0x1_0000
  {
  }
}
