/** The firmware itself: its globals and the registers it drives as the fields of
    one controller, and each interrupt handler as a method that runs to
    completion and updates those fields in place. */
module Firmware {
  import opened Config
  import opened DarkSwitch
  import SwitchProperties

  class Controller {
    var currentState: AmbientState
    var timeSinceActivation: U16
    var pwmState: PwmState
    var duty: int
    /** The LEDS_MASK bits of P1OUT. */
    var ledsOn: bool
    /** MCLK taken from the DCO rather than the slow clock (SELM_3 of BCSCTL2 cleared). */
    var fastClock: bool
    /** TACCR0 (alias CCR0): the scheduled falling edge. */
    var taccr0: U16
    /** TACCR1 (alias CCR1): the scheduled rising edge. */
    var taccr1: U16

    /** The controller's state as a value. */
    function Snapshot(): Machine
      reads this
    {
      Machine(currentState, timeSinceActivation, pwmState, duty, ledsOn, fastClock, taccr0, taccr1)
    }

    ghost predicate Valid()
      reads this
    {
      Inv(Snapshot())
    }

    /** The globals' initial values and the registers as `main` leaves them
        before it goes idle. */
    constructor (ledsAtReset: bool)
      ensures Snapshot() == Init(ledsAtReset)
      ensures Valid()
    {
      currentState := Light;
      timeSinceActivation := Sentinel;
      pwmState := PwmOff;
      duty := 0;
      ledsOn := ledsAtReset;
      fastClock := false;
      taccr0 := 0;
      taccr1 := 0;
    }

    /** `_setDutyOnP16(percent)`, with `tar` the value of the free-running timer. */
    method SetDutyOnP16(percent: int, tar: U16)
      requires PercentInRange(percent)
      modifies this
      ensures Snapshot() == SetDutyStep(old(Snapshot()), percent, tar)
      ensures old(ClockCoupled(Snapshot())) ==> ClockCoupled(Snapshot())
      ensures old(Valid()) && 0 <= percent <= 100 ==> Valid()
    {
      var p := percent;
      if OnTicks(p) < MinServiceTicks {
        p := 0;
      }
      if p == 0 {
        if pwmState == PwmOn {
          pwmState := PwmOff;
          fastClock := false;
        }
        ledsOn := false;
      } else if p == 100 {
        if pwmState == PwmOn {
          pwmState := PwmOff;
          fastClock := false;
        }
        ledsOn := true;
      } else {
        if pwmState == PwmOff {
          fastClock := true;
          ledsOn := true;
          pwmState := PwmOn;
        }
        taccr0 := Wrap16(tar + OnTicks(p));
        taccr1 := Wrap16(tar + DutyCycleTicks);
        duty := p;
      }
      if old(Valid()) && 0 <= percent <= 100 {
        SwitchProperties.SetDutyKeepsInv(old(Snapshot()), percent, tar);
      }
    }

    /** `ADC10_ISR`, with `raw` the conversion result ADC10MEM. */
    method Adc10Isr(raw: U16)
      modifies this
      ensures Snapshot() == SampleStep(old(Snapshot()), raw)
      ensures old(Valid()) ==> Valid()
    {
      if raw < DarknessThresholdL {
        match currentState
        case Dark =>
        case Light =>
          timeSinceActivation := 0;
          currentState := Sequence;
        case Sequence =>
      } else if raw > DarknessThresholdH {
        match currentState
        case Dark =>
          timeSinceActivation := Sentinel;
          currentState := Light;
        case Light =>
        case Sequence =>
          timeSinceActivation := Sentinel;
          currentState := Light;
      }
      if old(Valid()) {
        SwitchProperties.StepKeepsInv(old(Snapshot()), SwitchProperties.Sample(raw));
      }
    }

    /** `Timer_A0`: the CCR0 compare event. */
    method TimerA0Isr()
      modifies this
      ensures Snapshot() == FallingEdgeStep(old(Snapshot()))
      ensures old(Valid()) ==> Valid()
    {
      if pwmState == PwmOn {
        ledsOn := false;
        taccr0 := Wrap16(taccr0 + DutyCycleTicks);
      }
    }

    /** The timer-overflow branch of `TIMERA1_ISR`, with `tar` the timer value
        the duty setter reads. */
    method TimerA1Overflow(tar: U16)
      modifies this
      ensures Snapshot() == TickStep(old(Snapshot()), tar)
      ensures old(Valid()) ==> Valid()
    {
      match currentState {
        case Light =>
          SetDutyOnP16(0, tar);
        case Dark =>
          SetDutyOnP16(0, tar);
        case Sequence =>
          if timeSinceActivation <= LightupTimeInt {
            SetDutyOnP16(100 - (100 * timeSinceActivation) / LightupTimeInt, tar);
          } else {
            SetDutyOnP16(0, tar);
            timeSinceActivation := Sentinel;
            currentState := Dark;
          }
      }
      if timeSinceActivation != Sentinel {
        timeSinceActivation := timeSinceActivation + 1;
      }
      if old(Valid()) {
        SwitchProperties.StepKeepsInv(old(Snapshot()), SwitchProperties.Overflow(tar));
      }
    }

    /** The TACCR1 branch of `TIMERA1_ISR`: the CCR1 compare event. */
    method TimerA1Ccr1()
      modifies this
      ensures Snapshot() == RisingEdgeStep(old(Snapshot()))
      ensures old(Valid()) ==> Valid()
    {
      if pwmState == PwmOn {
        ledsOn := true;
        taccr1 := Wrap16(taccr1 + DutyCycleTicks);
      }
    }
  }
}
