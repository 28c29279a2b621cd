/** What the handlers of the dark-activated switch promise, alone and over any
    sequence of interrupts delivered from the power-on state. */
module SwitchProperties {
  import opened Config
  import opened Fade
  import opened DarkSwitch

  // ---------------------------------------------------------------------------
  // The duty setter

  /** A percent whose on-time is below the serviceable minimum acts exactly as 0. */
  lemma TinyPercentActsAsZero(m: Machine, percent: int, tar: U16)
    requires PercentInRange(percent) && OnTicks(percent) < MinServiceTicks
    ensures SetDutyStep(m, percent, tar) == SetDutyStep(m, 0, tar)
  {
  }

  /** Setting the same duty twice at the same timer reading is the same as
      setting it once: the clock is not switched a second time and the LEDs are
      not forced again. */
  lemma SetDutyIdempotent(m: Machine, percent: int, tar: U16)
    requires PercentInRange(percent)
    ensures SetDutyStep(SetDutyStep(m, percent, tar), percent, tar) == SetDutyStep(m, percent, tar)
  {
  }

  /** A percent within [0, 100] keeps every invariant. */
  lemma SetDutyKeepsInv(m: Machine, percent: int, tar: U16)
    requires Inv(m) && 0 <= percent <= 100
    ensures Inv(SetDutyStep(m, percent, tar))
  {
  }

  /** `(a - b) mod 2^16` only depends on `a` and `b` modulo 2^16. */
  lemma {:induction false} WrapOfDifference(a: int, b: int)
    ensures Wrap16(Wrap16(a) - Wrap16(b)) == Wrap16(a - b)
  {
    var qa, qb := a / 0x1_0000, b / 0x1_0000;
    assert Wrap16(a) == a - qa * 0x1_0000;
    assert Wrap16(b) == b - qb * 0x1_0000;
    assert Wrap16(a) - Wrap16(b) == (a - b) + (qb - qa) * 0x1_0000;
    ShiftByModulus(a - b, qb - qa);
  }

  /** Adding whole multiples of 2^16 does not change a 16-bit value. */
  lemma ShiftByModulus(x: int, k: int)
    ensures Wrap16(x + k * 0x1_0000) == Wrap16(x)
  {
  }

  /** A serviceable, non-steady duty leaves the rising edge `100 - percent`
      steps after the falling edge, whatever the timer read. */
  lemma SetDutyOffTicks(m: Machine, percent: int, tar: U16)
    requires PercentInRange(percent)
    requires MinServiceTicks <= OnTicks(percent) && percent < 100
    ensures OffTicks(SetDutyStep(m, percent, tar)) == DutyCycleTicks - OnTicks(percent)
  {
    var on := OnTicks(percent);
    var r := SetDutyStep(m, percent, tar);
    assert EffectivePercent(percent) == percent;
    assert r.taccr0 == Wrap16(tar + on) && r.taccr1 == Wrap16(tar + DutyCycleTicks);
    WrapOfDifference(tar + DutyCycleTicks, tar + on);
    assert (tar + DutyCycleTicks) - (tar + on) == DutyCycleTicks - on;
  }

  // ---------------------------------------------------------------------------
  // The edge handlers

  /** With toggling stopped, neither compare event changes anything. */
  lemma EdgesIdleWhenOff(m: Machine)
    requires m.pwmState == PwmOff
    ensures FallingEdgeStep(m) == m && RisingEdgeStep(m) == m
  {
  }

  /** One falling and one rising edge advance both compare registers by a full
      period, so the off-time scheduled by the setter does not drift. */
  lemma FullPeriodKeepsOffTicks(m: Machine)
    ensures OffTicks(RisingEdgeStep(FallingEdgeStep(m))) == OffTicks(m)
  {
    var r := RisingEdgeStep(FallingEdgeStep(m));
    if m.pwmState == PwmOn {
      assert OffTicks(r) == Wrap16(Wrap16(m.taccr1 + DutyCycleTicks) - Wrap16(m.taccr0 + DutyCycleTicks));
      WrapOfDifference(m.taccr1 + DutyCycleTicks, m.taccr0 + DutyCycleTicks);
    }
  }

  // ---------------------------------------------------------------------------
  // The overflow handler

  /** While a fade runs, a tick never hands a higher duty to the setter than the
      tick before it, and at most one percent lower. */
  lemma ConsecutiveTicksDim(m: Machine, tar: U16)
    requires CounterConsistent(m) && m.currentState == Sequence
    ensures var r := TickStep(m, tar);
      TickDuty(r.currentState, r.timeSinceActivation) <= TickDuty(m.currentState, m.timeSinceActivation)
    ensures var r := TickStep(m, tar);
      r.currentState == Sequence ==>
        TickDuty(m.currentState, m.timeSinceActivation) - 1 <= TickDuty(r.currentState, r.timeSinceActivation)
  {
    var t := m.timeSinceActivation;
    if t < LightupTimeInt {
      FadeStepAtMostOne(t);
    }
  }

  /** Darkness falling on a lit scene: the next tick drives the LEDs steadily on
      at full duty, without toggling, and the fade clock has started. */
  lemma DarknessLightsFully(m: Machine, raw: U16, tar: U16)
    requires m.currentState == Light && raw < DarknessThresholdL
    ensures var r := TickStep(SampleStep(m, raw), tar);
      r.currentState == Sequence && r.timeSinceActivation == 1 &&
      r.ledsOn && r.pwmState == PwmOff
  {
  }

  // ---------------------------------------------------------------------------
  // Runs of interrupts

  /** One interrupt: a finished conversion, a timer overflow, or a compare event. */
  datatype Event = Sample(raw: U16) | Overflow(tar: U16) | Compare0 | Compare1

  function Step(m: Machine, e: Event): Machine
  {
    match e
    case Sample(raw) => SampleStep(m, raw)
    case Overflow(tar) => TickStep(m, tar)
    case Compare0 => FallingEdgeStep(m)
    case Compare1 => RisingEdgeStep(m)
  }

  /** The state after the handlers ran one after another, each to completion. */
  function Run(m: Machine, es: seq<Event>): Machine
    decreases |es|
  {
    if es == [] then m else Run(Step(m, es[0]), es[1..])
  }

  /** Every handler keeps the invariant. */
  lemma StepKeepsInv(m: Machine, e: Event)
    requires Inv(m)
    ensures Inv(Step(m, e))
  {
  }

  lemma {:induction false} RunKeepsInv(m: Machine, es: seq<Event>)
    requires Inv(m)
    ensures Inv(Run(m, es))
    decreases |es|
  {
    if es != [] {
      StepKeepsInv(m, es[0]);
      RunKeepsInv(Step(m, es[0]), es[1..]);
    }
  }

  /** From power-on, whatever interrupts arrive: the counter is parked outside a
      fade and bounded inside one, the fast clock runs exactly while toggling,
      and toggling only ever holds a serviceable, non-steady duty. */
  lemma ReachableInv(ledsAtReset: bool, es: seq<Event>)
    ensures Inv(Run(Init(ledsAtReset), es))
  {
    RunKeepsInv(Init(ledsAtReset), es);
  }

  predicate NoSample(es: seq<Event>)
  {
    forall i :: 0 <= i < |es| ==> !es[i].Sample?
  }

  /** How many timer overflows a run contains. */
  function Overflows(es: seq<Event>): nat
    decreases |es|
  {
    if es == [] then 0 else (if es[0].Overflow? then 1 else 0) + Overflows(es[1..])
  }

  /** Without a sample in between, a running fade reaches DARK after at most
      `LightupTimeInt + 2` overflows, however the compare events interleave. */
  lemma {:induction false} FadeEndsInDark(m: Machine, es: seq<Event>)
    requires CounterConsistent(m) && m.currentState != Light && NoSample(es)
    requires m.currentState == Sequence ==>
      LightupTimeInt + 2 - m.timeSinceActivation <= Overflows(es)
    ensures Run(m, es).currentState == Dark
    decreases |es|
  {
    if es != [] {
      var rest := es[1..];
      assert NoSample(rest) by {
        forall i | 0 <= i < |rest| ensures !rest[i].Sample? {
          assert rest[i] == es[i + 1];
        }
      }
      FadeEndsInDark(Step(m, es[0]), rest);
    }
  }
}
