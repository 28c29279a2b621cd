/** Turning one raw photodiode sample into a light/dark judgement with hysteresis. */
module Classifier {
  import opened Config

  /** What one sample says about the ambient light. */
  datatype Verdict = DarkVerdict | LightVerdict | NoVerdict

  /** Compares the raw ADC result against the hysteresis band; a sample inside
      the band (both thresholds included) gives no verdict at all. */
  function Classify(raw: U16): (v: Verdict)
    ensures v == DarkVerdict <==> raw < DarknessThresholdL
    ensures v == LightVerdict <==> raw > DarknessThresholdH
    ensures v == NoVerdict <==> DarknessThresholdL <= raw <= DarknessThresholdH
  {
    if raw < DarknessThresholdL then DarkVerdict
    else if raw > DarknessThresholdH then LightVerdict
    else NoVerdict
  }
}
