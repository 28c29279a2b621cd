# Dark-activated LED switch: light-sensing state machine and software PWM

A model of the firmware of an MSP430 dark-activated LED switch (`main.c`).
A photodiode is sampled once per timer overflow (about 15 times a second).
A sample below the low threshold starts a 30-second fade of the LEDs from 100 %
to 0 % duty (state SEQUENCE), after which the switch settles in DARK. A sample
above the high threshold returns it to LIGHT. Duties strictly between the steady
levels are produced in software: the MCLK is switched from the slow clock to the
DCO, and two Timer_A compare interrupts switch the LEDs off (CCR0) and back on
(CCR1) once per 1000-tick period.

Files and modules:

- `config.dfy`, module `Config`: the compile-time constants (thresholds 0x090 and
  0x0a0, fade length 30 × 15 overflows, period 1000 ticks, 10 ticks per percent,
  the 20-tick service minimum, the sentinel 0xFFFF), the 16-bit word type and
  16-bit wrap-around.
- `classifier.dfy`, module `Classifier`: the hysteresis classification of one ADC
  sample.
- `fade.dfy`, module `Fade`: the fade law `100 - (100*t)/450`.
- `switch.dfy`, module `DarkSwitch`: the firmware's globals and the registers it
  drives as one value (`Machine`); one function per handler giving the state the
  handler leaves, with the sample handler's transition table in its contract;
  the invariants.
- `properties.dfy`, module `SwitchProperties`: setter idempotence, compare-register arithmetic, fade monotonicity between ticks, and
  the invariants over every sequence of interrupts from power-on.
- `firmware.dfy`, module `Firmware`: class `Controller`, whose fields are the
  globals and registers and whose methods are the interrupt handlers, written
  imperatively like the C and proved to leave exactly the state the `DarkSwitch`
  functions give.

Each interrupt handler is one atomic method: on this MCU handlers run to
completion and never interleave. The values the handlers read from hardware are
parameters: the ADC result `ADC10MEM` (`raw`) and the free-running timer `TAR`
(`tar`). `P1OUT`'s LED bits are the boolean `ledsOn`. The `SELM_3` bits of
`BCSCTL2` are the boolean `fastClock`, true when they are cleared, i.e. when MCLK
runs from the DCO. `TACCR0`/`CCR0` and `TACCR1`/`CCR1` are 16-bit fields, and
additions to them wrap modulo 2^16. `time_since_activation` is a 16-bit
unsigned field. It is only incremented when it is not 0xFFFF, so it never wraps.
In the fade expression `100*t` is at most 45000 for `t <= 450`, so unbounded
integers give the same value as the 16-bit unsigned C arithmetic. The setter's
`percent` is a 16-bit signed C `int`, so the setter requires that
`percent * 10` does not overflow. Its only caller passes values in [0, 100].

Two points of the code that its names and comments do not make obvious; the
model follows the code:

- A fade does not end on the tick where the counter equals `LIGHTUP_TIME_INT`,
  the fade length (main.c:76), even though the duty is already 0 there.
  At `t == 450` the duty computed is 0 and the counter moves on to 451. The
  switch to DARK happens on the next tick, when `t > 450`. So a fade's counter
  reaches 451, and `FadeEndsInDark` allows `LightupTimeInt + 2` overflows.
- A light sample during a fade only changes the state. The LEDs and the PWM
  are switched off by the next timer overflow, which calls the setter with 0 in
  LIGHT. The comment at main.c:206-208 says the next "ADC conversion finished
  interrupt" puts the diodes off, but it is the overflow handler (main.c:251-254)
  that does so.

## Model

| member | source | states |
|---|---|---|
| `Config.Wrap16` | main.c:157-158 | the value a 16-bit register keeps of a sum: congruent to it modulo 2^16, and equal to it when it already fits |
| `Config.PeriodIsWholePercents` | main.c:71-76 | the PWM period is a whole number of percent steps (10 ticks each), the low threshold lies below the high one, and the fade length is positive with `100 * 450` inside 16 bits |
| `Classifier.Classify` | main.c:171-190 | a sample is dark iff below 0x090 and light iff above 0x0a0, and gives no verdict iff it lies in [0x090, 0x0a0] |
| `Fade.FadeDuty` | main.c:264-265 | the fade duty lies in [0, 100], is 100 at t = 0 and 0 at t = 450, and `100 - d` is the floor of `100*t/450` |
| `Fade.FadeMonotone` | main.c:264-265 | the fade duty never increases as the counter grows |
| `Fade.FadeStepAtMostOne` | main.c:264-265 | one more tick lowers the fade duty by 0 or 1 percent |
| `DarkSwitch.Init` | main.c:79-84 | the globals start in LIGHT with the counter at the sentinel, PWM off and MCLK on the slow clock |
| `DarkSwitch.SetDutyStep` | main.c:133-161 | a percent whose on-time is under 20 ticks, or 0, gives PWM off and LEDs off. 100 gives PWM off and LEDs on. Any other percent gives PWM on with duty = percent, CCR0 = TAR + 10·percent and CCR1 = TAR + 1000 (mod 2^16). The LEDs are forced on and the clock sped up only if PWM was off. With PWM off the clock is slowed only if PWM was on. The ambient state and the counter are untouched, and "fast clock iff PWM on" is preserved |
| `DarkSwitch.SampleStep` | main.c:170-217 | a dark sample moves LIGHT to SEQUENCE with counter 0 and changes nothing else; in DARK and SEQUENCE it changes nothing. A light sample moves DARK and SEQUENCE to LIGHT with the counter at 0xFFFF and changes nothing else; in LIGHT it changes nothing. A sample inside [0x090, 0x0a0] changes nothing at all |
| `DarkSwitch.TickDuty` | main.c:250-273 | the percent an overflow hands to the setter is `FadeDuty(t)` in SEQUENCE with t <= 450, and 0 in LIGHT, in DARK and in SEQUENCE past the fade length |
| `DarkSwitch.TickStep` | main.c:245-281 | an overflow either advances the counter by one or leaves it at the sentinel, and a parked counter stays parked. In LIGHT and DARK it keeps the state and ends with PWM off and LEDs off. In SEQUENCE with t > 450 it moves to DARK, parks the counter, stops PWM and darkens the LEDs. In SEQUENCE with t <= 450 it stays in SEQUENCE with t + 1. As a whole state: in SEQUENCE with t <= 450 it is the setter applied with `FadeDuty(t)` followed by t + 1; in SEQUENCE with t > 450 it is the setter applied with 0, then DARK with the counter parked; in LIGHT and DARK it is the setter applied with 0, plus t + 1 if the counter was not parked |
| `DarkSwitch.FallingEdgeStep` | main.c:226-233 | with PWM on, the CCR0 event switches the LEDs off, moves CCR0 one 1000-tick period later (mod 2^16) and changes nothing else. With PWM off it changes nothing |
| `DarkSwitch.RisingEdgeStep` | main.c:283-290 | with PWM on, the CCR1 event switches the LEDs on, moves CCR1 one 1000-tick period later (mod 2^16) and changes nothing else. With PWM off it changes nothing |
| `SwitchProperties.TinyPercentActsAsZero` | main.c:134-136 | any percent with `percent*10 < 20` has exactly the effect of 0 |
| `SwitchProperties.SetDutyIdempotent` | main.c:138-160 | setting the same percent twice at the same TAR leaves the same state as setting it once |
| `SwitchProperties.SetDutyKeepsInv` | main.c:133-161 | a percent in [0, 100] preserves the counter, clock-coupling and serviceable-duty invariants |
| `SwitchProperties.SetDutyOffTicks` | main.c:157-158 | after a toggling duty is set, the rising edge is scheduled exactly `1000 - 10·percent` ticks after the falling edge (mod 2^16), whatever TAR was |
| `SwitchProperties.EdgesIdleWhenOff` | main.c:227-230 | with PWM off, neither compare event changes anything |
| `SwitchProperties.FullPeriodKeepsOffTicks` | main.c:226-290 | one CCR0 event followed by one CCR1 event keeps the distance between the two compare registers (mod 2^16), so the off-time does not drift |
| `SwitchProperties.ConsecutiveTicksDim` | main.c:262-279 | during a fade, the duty a tick hands to the setter is never above the previous tick's. While the fade continues it is at most one percent below |
| `SwitchProperties.DarknessLightsFully` | main.c:176-180 | a dark sample in LIGHT followed by an overflow leaves SEQUENCE with counter 1, the LEDs steadily on and PWM off |
| `SwitchProperties.StepKeepsInv` | main.c:170-290 | every handler preserves the invariant: counter at the sentinel outside SEQUENCE and at most 451 inside it, fast clock iff PWM on, and PWM on only with a duty in [2, 99] |
| `SwitchProperties.RunKeepsInv` | main.c:170-290 | any sequence of handler runs preserves that invariant |
| `SwitchProperties.ReachableInv` | main.c:79-84 | from the power-on state, every sequence of interrupts ends in a state satisfying the invariant |
| `SwitchProperties.FadeEndsInDark` | main.c:262-279 | with no sample in between, a fade reaches DARK after at most 452 overflows, however the compare events interleave, and DARK then persists |
| `Firmware.Controller.constructor` | main.c:78-85 | the controller starts in the power-on state, which satisfies the invariant |
| `Firmware.Controller.SetDutyOnP16` | main.c:133-161 | leaves exactly the state `SetDutyStep` gives, preserves "fast clock iff PWM on", and for a percent in [0, 100] (all its caller passes) preserves the whole invariant |
| `Firmware.Controller.Adc10Isr` | main.c:170-217 | leaves exactly the state `SampleStep` gives (the transition table above) and preserves the invariant |
| `Firmware.Controller.TimerA0Isr` | main.c:226-233 | with PWM on, switches the LEDs off and advances CCR0 by 1000 (mod 2^16). Otherwise it changes nothing. Preserves the invariant |
| `Firmware.Controller.TimerA1Overflow` | main.c:245-281 | leaves exactly the state `TickStep` gives, with the fade duty computed inline as in the C, and preserves the invariant |
| `Firmware.Controller.TimerA1Ccr1` | main.c:283-290 | with PWM on, switches the LEDs on and advances CCR1 by 1000 (mod 2^16). Otherwise it changes nothing. Preserves the invariant |

## Left out

- `main()`'s peripheral setup (watchdog, clock select, ADC, pin direction, timer mode) and its low-power idle loop: register I/O without logic. Only the resulting values enter the model: slow clock, compare registers at 0, PWM off.
- The LED output level at reset is not set by the firmware. It is a parameter of `Init` and of the constructor.
- Starting a conversion in the overflow handler and the `__bic_SR_register_on_exit(CPUOFF)` wake-ups: hardware side effects with no modelled state.
- Interrupt dispatch, priorities, latency and the `TAIV` vector read. Each handler is one atomic call, and which handler runs next is left open: runs are arbitrary sequences of events.
- The bits of `P1OUT` and `BCSCTL2` other than the LED mask and `SELM_3`: the firmware does not touch them.
- Time and voltage: the 15 Hz overflow rate and the physical meaning of the thresholds are kept only as constants.
- The `duty` global is written by the setter and never read by the firmware. It is modelled as stored.
- DarkSwitch.SetDutyStep: `TAR` is read twice in the C (for CCR0 and for CCR1). The timer may advance between the two reads, but the model gives both reads the same value `tar`. `SetDutyOffTicks` therefore states the exact off-time, while the hardware can add the few ticks between the reads.
