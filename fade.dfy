/** The linear fade law applied while a dimming sequence runs. */
module Fade {
  import opened Config

  /** Duty percent `t` overflows after darkness fell: `100 - (100*t)/LightupTimeInt`.
      In the firmware the arithmetic is 16-bit unsigned; for `t <= LightupTimeInt`
      the product is at most 45000, so nothing wraps and plain integers are exact.
      The contract characterises the integer division: `100 - d` is the number of
      whole fade steps of `LightupTimeInt` ticks contained in `100 * t`. */
  function FadeDuty(t: nat): (d: nat)
    requires t <= LightupTimeInt
    ensures d <= 100
    ensures LightupTimeInt * (100 - d) <= 100 * t < LightupTimeInt * (101 - d)
    ensures t == 0 ==> d == 100
    ensures t == LightupTimeInt ==> d == 0
  {
    100 - (100 * t) / LightupTimeInt
  }

  /** The fade never brightens: a later tick never gives a higher duty. */
  lemma FadeMonotone(t1: nat, t2: nat)
    requires t1 <= t2 <= LightupTimeInt
    ensures FadeDuty(t2) <= FadeDuty(t1)
  {
  }

  /** The fade is smooth: one tick lowers the duty by at most one percent. */
  lemma FadeStepAtMostOne(t: nat)
    requires t < LightupTimeInt
    ensures FadeDuty(t) - 1 <= FadeDuty(t + 1) <= FadeDuty(t)
  {
  }
}
