/** The light-sensing state machine and the software-PWM duty engine, as values:
    one snapshot of the firmware's globals and of the registers it touches, and
    one function per interrupt handler giving the snapshot the handler leaves. */
module DarkSwitch {
  import opened Config
  import opened Classifier
  import opened Fade

  /** The ambient light state (`currentState`). */
  datatype AmbientState = Light | Dark | Sequence

  /** Whether sub-cycle toggling of the LEDs is scheduled (`pwmState`). */
  datatype PwmState = PwmOff | PwmOn

  /** The firmware's global state and the hardware bits it drives:
      `ledsOn` stands for the LEDS_MASK bits of P1OUT, `fastClock` for MCLK
      running from the DCO (the SELM_3 bits of BCSCTL2 cleared), and
      `taccr0`/`taccr1` for the two compare registers of Timer_A. */
  datatype Machine = Machine(
    currentState: AmbientState,
    timeSinceActivation: U16,
    pwmState: PwmState,
    duty: int,
    ledsOn: bool,
    fastClock: bool,
    taccr0: U16,
    taccr1: U16)

  /** State once `main` has configured the peripherals: LIGHT, no fade, PWM off,
      MCLK on the slow clock, compare registers at their reset value. The LED
      output level after reset is not fixed by the firmware, so it is a parameter. */
  function Init(ledsAtReset: bool): (m: Machine)
    ensures m.currentState == Light && m.timeSinceActivation == Sentinel
    ensures m.pwmState == PwmOff && !m.fastClock
  {
    Machine(Light, Sentinel, PwmOff, 0, ledsAtReset, false, 0, 0)
  }

  // ---------------------------------------------------------------------------
  // Invariants

  /** The activation counter runs only during a fade, and a fade is at most one
      tick past its end. */
  predicate CounterConsistent(m: Machine)
  {
    (m.currentState != Sequence ==> m.timeSinceActivation == Sentinel) &&
    (m.currentState == Sequence ==> m.timeSinceActivation <= LightupTimeInt + 1)
  }

  /** The fast clock runs exactly while the PWM toggling is active. */
  predicate ClockCoupled(m: Machine)
  {
    m.fastClock <==> m.pwmState == PwmOn
  }

  /** While toggling, the stored duty is one whose on-time can be serviced and
      which is not a steady level. */
  predicate DutyServiceable(m: Machine)
  {
    m.pwmState == PwmOn ==> MinServiceTicks <= OnTicks(m.duty) && m.duty < 100
  }

  predicate Inv(m: Machine)
  {
    CounterConsistent(m) && ClockCoupled(m) && DutyServiceable(m)
  }

  // ---------------------------------------------------------------------------
  // _setDutyOnP16

  /** A percent is representable by the setter when its on-time
      `percent * DutyCyclePresc` does not overflow the target's 16-bit signed `int`. */
  predicate PercentInRange(percent: int)
  {
    Int16Min <= OnTicks(percent) <= Int16Max
  }

  /** The percent the setter acts on: too short an on-time counts as zero. */
  function EffectivePercent(percent: int): int
  {
    if OnTicks(percent) < MinServiceTicks then 0 else percent
  }

  /** `_setDutyOnP16(percent)` with the timer reading `tar`. Zero and 100 are
      steady levels (PWM stopped, MCLK slowed if it was running fast); any other
      percent starts toggling if needed and schedules the falling edge
      `percent` steps and the rising edge one period after `tar`. */
  function SetDutyStep(m: Machine, percent: int, tar: U16): (r: Machine)
    requires PercentInRange(percent)
    ensures r.currentState == m.currentState && r.timeSinceActivation == m.timeSinceActivation
    ensures OnTicks(percent) < MinServiceTicks || percent == 0 ==>
      r.pwmState == PwmOff && !r.ledsOn
    ensures percent == 100 ==> r.pwmState == PwmOff && r.ledsOn
    ensures MinServiceTicks <= OnTicks(percent) && percent != 100 ==>
      r.pwmState == PwmOn && r.duty == percent &&
      (r.fastClock <==> m.fastClock || m.pwmState == PwmOff) &&
      (r.taccr0 - tar) % 0x1_0000 == OnTicks(percent) &&
      (r.taccr1 - tar) % 0x1_0000 == DutyCycleTicks &&
      (r.ledsOn <==> m.pwmState == PwmOff || m.ledsOn)
    ensures r.pwmState == PwmOff ==>
      r.duty == m.duty && r.taccr0 == m.taccr0 && r.taccr1 == m.taccr1 &&
      (r.fastClock <==> m.fastClock && m.pwmState == PwmOff)
    ensures ClockCoupled(m) ==> ClockCoupled(r)
  {
    var p := EffectivePercent(percent);
    if p == 0 || p == 100 then
      m.(pwmState := PwmOff,
         fastClock := m.fastClock && m.pwmState != PwmOn,
         ledsOn := p == 100)
    else
      m.(pwmState := PwmOn,
         fastClock := m.fastClock || m.pwmState == PwmOff,
         ledsOn := m.ledsOn || m.pwmState == PwmOff,
         taccr0 := Wrap16(tar + OnTicks(p)),
         taccr1 := Wrap16(tar + DutyCycleTicks),
         duty := p)
  }

  // ---------------------------------------------------------------------------
  // ADC10_ISR

  /** The sample handler: a dark verdict starts a fade from LIGHT, a light
      verdict cancels a fade or a settled darkness, no verdict changes nothing. */
  function SampleStep(m: Machine, raw: U16): (r: Machine)
    ensures raw < DarknessThresholdL && m.currentState == Light ==>
      r == m.(currentState := Sequence, timeSinceActivation := 0)
    ensures raw > DarknessThresholdH && m.currentState != Light ==>
      r == m.(currentState := Light, timeSinceActivation := Sentinel)
    ensures raw < DarknessThresholdL && m.currentState != Light ==> r == m
    ensures raw > DarknessThresholdH && m.currentState == Light ==> r == m
    ensures DarknessThresholdL <= raw <= DarknessThresholdH ==> r == m
  {
    match Classify(raw)
    case DarkVerdict =>
      if m.currentState == Light then m.(timeSinceActivation := 0, currentState := Sequence) else m
    case LightVerdict =>
      if m.currentState != Light then m.(timeSinceActivation := Sentinel, currentState := Light) else m
    case NoVerdict => m
  }

  // ---------------------------------------------------------------------------
  // Overflow branch of TIMERA1_ISR

  /** The percent the overflow handler hands to the setter: the fade law while a
      fade is within its length, zero otherwise. */
  function TickDuty(state: AmbientState, t: U16): (d: int)
    ensures 0 <= d <= 100
    ensures state != Sequence || t > LightupTimeInt ==> d == 0
    ensures state == Sequence && t <= LightupTimeInt ==> d == FadeDuty(t)
  {
    match state
    case Sequence => if t <= LightupTimeInt then FadeDuty(t) else 0
    case _ => 0
  }

  /** The overflow handler with the timer reading `tar`: applies the tick's duty,
      ends an expired fade in DARK, then advances a running counter. */
  function TickStep(m: Machine, tar: U16): (r: Machine)
    ensures r.timeSinceActivation == Sentinel || r.timeSinceActivation == m.timeSinceActivation + 1
    ensures m.timeSinceActivation == Sentinel ==> r.timeSinceActivation == Sentinel
    ensures m.currentState != Sequence ==>
      r.currentState == m.currentState && r.pwmState == PwmOff && !r.ledsOn
    ensures m.currentState == Sequence && m.timeSinceActivation > LightupTimeInt ==>
      r.currentState == Dark && r.timeSinceActivation == Sentinel && r.pwmState == PwmOff && !r.ledsOn
    ensures m.currentState == Sequence && m.timeSinceActivation <= LightupTimeInt ==>
      r.currentState == Sequence && r.timeSinceActivation == m.timeSinceActivation + 1
    ensures m.currentState == Sequence && m.timeSinceActivation <= LightupTimeInt ==>
      r == SetDutyStep(m, FadeDuty(m.timeSinceActivation), tar).(timeSinceActivation := m.timeSinceActivation + 1)
    ensures m.currentState == Sequence && m.timeSinceActivation > LightupTimeInt ==>
      r == SetDutyStep(m, 0, tar).(currentState := Dark, timeSinceActivation := Sentinel)
    ensures m.currentState != Sequence && m.timeSinceActivation == Sentinel ==>
      r == SetDutyStep(m, 0, tar)
    ensures m.currentState != Sequence && m.timeSinceActivation != Sentinel ==>
      r == SetDutyStep(m, 0, tar).(timeSinceActivation := m.timeSinceActivation + 1)
  {
    var m1 := SetDutyStep(m, TickDuty(m.currentState, m.timeSinceActivation), tar);
    var m2 :=
      if m.currentState == Sequence && m.timeSinceActivation > LightupTimeInt
      then m1.(timeSinceActivation := Sentinel, currentState := Dark)
      else m1;
    if m2.timeSinceActivation != Sentinel
    then m2.(timeSinceActivation := m2.timeSinceActivation + 1)
    else m2
  }

  // ---------------------------------------------------------------------------
  // Timer_A0 and the TACCR1 branch of TIMERA1_ISR

  /** CCR0 compare event: the end of the on-time of the current period. */
  function FallingEdgeStep(m: Machine): (r: Machine)
    ensures m.pwmState == PwmOn ==>
      !r.ledsOn && (r.taccr0 - m.taccr0) % 0x1_0000 == DutyCycleTicks &&
      r == m.(ledsOn := r.ledsOn, taccr0 := r.taccr0)
    ensures m.pwmState == PwmOff ==> r == m
  {
    if m.pwmState == PwmOn
    then m.(ledsOn := false, taccr0 := Wrap16(m.taccr0 + DutyCycleTicks))
    else m
  }

  /** CCR1 compare event: the start of the next period. */
  function RisingEdgeStep(m: Machine): (r: Machine)
    ensures m.pwmState == PwmOn ==>
      r.ledsOn && (r.taccr1 - m.taccr1) % 0x1_0000 == DutyCycleTicks &&
      r == m.(ledsOn := r.ledsOn, taccr1 := r.taccr1)
    ensures m.pwmState == PwmOff ==> r == m
  {
    if m.pwmState == PwmOn
    then m.(ledsOn := true, taccr1 := Wrap16(m.taccr1 + DutyCycleTicks))
    else m
  }

  /** Ticks from the scheduled falling edge to the scheduled rising edge, as the
      16-bit timer counts them: the LED-off part of the PWM period. */
  function OffTicks(m: Machine): U16
  {
    Wrap16(m.taccr1 - m.taccr0)
  }
}
