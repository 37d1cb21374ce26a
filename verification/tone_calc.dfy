/**
 * Tone selection: which of the two aural tones (or none) the pilot hears
 * for a given angle of attack, and at what pulse rate.
 */
module ToneCalc {
  import opened Numeric

  datatype ToneType = None | Low | High

  /** Per-flap AOA thresholds: L/Dmax, on-speed fast edge, on-speed slow edge, stall warning. */
  datatype ToneThresholds = ToneThresholds(ldMax: real, onSpeedFast: real, onSpeedSlow: real, stallWarn: real)

  /** pulseFreq 0 means a solid tone, otherwise pulses per second. */
  datatype ToneResult = ToneResult(tone: ToneType, pulseFreq: real)

  const HIGH_TONE_STALL_PPS: real := 20.0
  const HIGH_TONE_PPS_MIN: real := 1.5
  const HIGH_TONE_PPS_MAX: real := 6.2
  const LOW_TONE_PPS_MIN: real := 1.5
  const LOW_TONE_PPS_MAX: real := 8.2

  const Silent: ToneResult := ToneResult(None, 0.0)
  const StallWarning: ToneResult := ToneResult(High, HIGH_TONE_STALL_PPS)

  // The five AOA regions, each stated on its own (not as "first match
  // wins"): together they partition the AOA axis for any thresholds.

  predicate InStallRegion(aoa: real, th: ToneThresholds) {
    aoa >= th.stallWarn
  }

  predicate InPulsedHighRegion(aoa: real, th: ToneThresholds) {
    th.onSpeedSlow < aoa < th.stallWarn
  }

  predicate InSolidLowRegion(aoa: real, th: ToneThresholds) {
    th.onSpeedFast <= aoa <= th.onSpeedSlow && aoa < th.stallWarn
  }

  predicate InPulsedLowRegion(aoa: real, th: ToneThresholds) {
    th.ldMax <= aoa < th.onSpeedFast && aoa <= th.onSpeedSlow && aoa < th.stallWarn
  }

  predicate InSilentRegion(aoa: real, th: ToneThresholds) {
    aoa < th.stallWarn && aoa <= th.onSpeedSlow && aoa < th.onSpeedFast && aoa < th.ldMax
  }

  /** The tone for an AOA, checked from the stall warning downwards. */
  function CalculateTone(aoa: real, th: ToneThresholds): (r: ToneResult)
    ensures InStallRegion(aoa, th) ==> r == StallWarning
    ensures InPulsedHighRegion(aoa, th) ==>
      && r == ToneResult(High, MapFloat(aoa, th.onSpeedSlow, th.stallWarn, HIGH_TONE_PPS_MIN, HIGH_TONE_PPS_MAX))
      && HIGH_TONE_PPS_MIN <= r.pulseFreq < HIGH_TONE_PPS_MAX
    ensures InSolidLowRegion(aoa, th) ==> r == ToneResult(Low, 0.0)
    ensures InPulsedLowRegion(aoa, th) ==>
      && r == ToneResult(Low, MapFloat(aoa, th.ldMax, th.onSpeedFast, LOW_TONE_PPS_MIN, LOW_TONE_PPS_MAX))
      && LOW_TONE_PPS_MIN <= r.pulseFreq < LOW_TONE_PPS_MAX
    ensures InSilentRegion(aoa, th) ==> r == Silent
  {
    if aoa >= th.stallWarn then
      StallWarning
    else if aoa > th.onSpeedSlow then
      MapFloatRange(aoa, th.onSpeedSlow, th.stallWarn, HIGH_TONE_PPS_MIN, HIGH_TONE_PPS_MAX);
      ToneResult(High, MapFloat(aoa, th.onSpeedSlow, th.stallWarn, HIGH_TONE_PPS_MIN, HIGH_TONE_PPS_MAX))
    else if aoa >= th.onSpeedFast then
      ToneResult(Low, 0.0)
    else if aoa >= th.ldMax && th.ldMax < th.onSpeedFast then
      MapFloatRange(aoa, th.ldMax, th.onSpeedFast, LOW_TONE_PPS_MIN, LOW_TONE_PPS_MAX);
      ToneResult(Low, MapFloat(aoa, th.ldMax, th.onSpeedFast, LOW_TONE_PPS_MIN, LOW_TONE_PPS_MAX))
    else
      Silent
  }

  /** Exactly one region holds for every AOA and every set of thresholds. */
  lemma RegionsPartition(aoa: real, th: ToneThresholds)
    ensures InStallRegion(aoa, th) || InPulsedHighRegion(aoa, th) || InSolidLowRegion(aoa, th)
         || InPulsedLowRegion(aoa, th) || InSilentRegion(aoa, th)
    ensures InStallRegion(aoa, th) ==>
      !InPulsedHighRegion(aoa, th) && !InSolidLowRegion(aoa, th) && !InPulsedLowRegion(aoa, th) && !InSilentRegion(aoa, th)
    ensures InPulsedHighRegion(aoa, th) ==>
      !InSolidLowRegion(aoa, th) && !InPulsedLowRegion(aoa, th) && !InSilentRegion(aoa, th)
    ensures InSolidLowRegion(aoa, th) ==> !InPulsedLowRegion(aoa, th) && !InSilentRegion(aoa, th)
    ensures InPulsedLowRegion(aoa, th) ==> !InSilentRegion(aoa, th)
  {
  }

  /** The tone and its pulse rate determine the region, in both directions. */
  lemma ToneIdentifiesRegion(aoa: real, th: ToneThresholds)
    ensures CalculateTone(aoa, th) == StallWarning <==> InStallRegion(aoa, th)
    ensures CalculateTone(aoa, th).tone == High <==> InStallRegion(aoa, th) || InPulsedHighRegion(aoa, th)
    ensures CalculateTone(aoa, th).tone == Low <==> InSolidLowRegion(aoa, th) || InPulsedLowRegion(aoa, th)
    ensures CalculateTone(aoa, th).tone == None <==> InSilentRegion(aoa, th)
    ensures CalculateTone(aoa, th) == ToneResult(Low, 0.0) <==> InSolidLowRegion(aoa, th)
  {
    RegionsPartition(aoa, th);
  }

  /** The pulsed bands start at their minimum rate and reach the mid rate half way through the band. */
  lemma PulseRateAtBandPoints(th: ToneThresholds)
    ensures th.onSpeedSlow < th.stallWarn ==>
      CalculateTone((th.onSpeedSlow + th.stallWarn) / 2.0, th)
        == ToneResult(High, (HIGH_TONE_PPS_MIN + HIGH_TONE_PPS_MAX) / 2.0)
    ensures th.ldMax < th.onSpeedFast <= th.onSpeedSlow && th.onSpeedFast < th.stallWarn ==>
      CalculateTone(th.ldMax, th) == ToneResult(Low, LOW_TONE_PPS_MIN)
    ensures th.ldMax < th.onSpeedFast <= th.onSpeedSlow && th.onSpeedFast < th.stallWarn ==>
      CalculateTone((th.ldMax + th.onSpeedFast) / 2.0, th)
        == ToneResult(Low, (LOW_TONE_PPS_MIN + LOW_TONE_PPS_MAX) / 2.0)
  {
    if th.onSpeedSlow < th.stallWarn {
      MapFloatEndpoints(th.onSpeedSlow, th.stallWarn, HIGH_TONE_PPS_MIN, HIGH_TONE_PPS_MAX);
    }
    if th.ldMax < th.onSpeedFast {
      MapFloatEndpoints(th.ldMax, th.onSpeedFast, LOW_TONE_PPS_MIN, LOW_TONE_PPS_MAX);
    }
  }

  /** The pulse rate rises with AOA inside each pulsed band. */
  lemma PulseRateMonotone(a1: real, a2: real, th: ToneThresholds)
    requires a1 <= a2
    requires (InPulsedHighRegion(a1, th) && InPulsedHighRegion(a2, th))
          || (InPulsedLowRegion(a1, th) && InPulsedLowRegion(a2, th))
    ensures CalculateTone(a1, th).pulseFreq <= CalculateTone(a2, th).pulseFreq
  {
    if InPulsedHighRegion(a1, th) {
      MonotoneStep(a1, a2, th.onSpeedSlow, th.stallWarn, HIGH_TONE_PPS_MIN, HIGH_TONE_PPS_MAX);
    } else {
      MonotoneStep(a1, a2, th.ldMax, th.onSpeedFast, LOW_TONE_PPS_MIN, LOW_TONE_PPS_MAX);
    }
  }

  lemma MonotoneStep(a1: real, a2: real, lo: real, hi: real, outLo: real, outHi: real)
    requires a1 <= a2 && lo < hi && outLo < outHi
    ensures MapFloat(a1, lo, hi, outLo, outHi) <= MapFloat(a2, lo, hi, outLo, outHi)
  {
    assert (a1 - lo) * (outHi - outLo) <= (a2 - lo) * (outHi - outLo);
  }

  /** With L/Dmax at or above the fast edge the pulsed low band is empty: below the fast edge there is no tone. */
  lemma NoPulsedLowWhenLdMaxNotBelowFast(aoa: real, th: ToneThresholds)
    requires th.ldMax >= th.onSpeedFast
    requires aoa < th.onSpeedFast && aoa <= th.onSpeedSlow && aoa < th.stallWarn
    ensures CalculateTone(aoa, th) == Silent
  {
  }

  /**
   * Audio disabled by the pilot: only the stall warning can sound, and only
   * above the mute airspeed.
   */
  function CalculateToneMuted(aoa: real, ias: real, stallWarn: real, muteUnderIas: int): (r: ToneResult)
    ensures r == StallWarning <==> aoa >= stallWarn && ias > muteUnderIas as real
    ensures r == StallWarning || r == Silent
  {
    if aoa >= stallWarn && ias > muteUnderIas as real then StallWarning else Silent
  }

  /** Muting never adds a tone: whenever the muted variant sounds, the normal one gives the same stall warning. */
  lemma MutedImpliesUnmuted(aoa: real, ias: real, th: ToneThresholds, muteUnderIas: int)
    ensures CalculateToneMuted(aoa, ias, th.stallWarn, muteUnderIas) != Silent ==>
      CalculateToneMuted(aoa, ias, th.stallWarn, muteUnderIas) == CalculateTone(aoa, th)
  {
  }

  /** Clean-flap thresholds of the reference configuration, and the regions at sample AOAs. */
  lemma CleanConfigurationExamples()
    ensures var th := ToneThresholds(8.03, 11.25, 13.84, 16.48);
      && CalculateTone(5.0, th) == Silent
      && CalculateTone(8.03, th) == ToneResult(Low, LOW_TONE_PPS_MIN)
      && CalculateTone(12.0, th) == ToneResult(Low, 0.0)
      && CalculateTone(15.16, th) == ToneResult(High, (HIGH_TONE_PPS_MIN + HIGH_TONE_PPS_MAX) / 2.0)
      && CalculateTone(16.48, th) == StallWarning
  {
  }
}
