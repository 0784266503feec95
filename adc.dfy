/** The ADC conversions of `stm/src/utils/adc.rs`: a raw sample to millivolts against the
    sampled internal reference (1230 mV, from section 6.3.4 "Embedded reference voltage"
    of the STM32F031 datasheet), and the sense voltage to milliamps through the
    amplifier gain 10 and the shunt constant 33, all with checked arithmetic. The ADC
    reads themselves are input samples here. */
module Adc {
  import opened Wrappers
  import opened Ints

  const VREFINT_MV: u32 := 1230
  const GAIN: u16 := 10
  const R_SHUNT: u16 := 33

  /** `sample_to_mv` */
  function SampleToMv(sample: u16, vref: u16): Option<u16> {
    match CheckedMulU32(sample, VREFINT_MV)
    case None => None
    case Some(scaled) =>
      match CheckedDivU32(scaled, vref)
      case None => None
      case Some(q) => U16TryFrom(q)
  }

  /** `mv_to_ma` */
  function MvToMa(mv: u16): Option<u16> {
    match CheckedMulU16(mv, GAIN)
    case None => None
    case Some(amplified) => CheckedDivU16(amplified, R_SHUNT)
  }

  /** `get_current`, on the two samples it reads: the reference first, then the sense pin. */
  function GetCurrent(vrefSample: u16, raw: u16): Option<u16> {
    match SampleToMv(raw, vrefSample)
    case None => None
    case Some(mv) => MvToMa(mv)
  }

  /** `sample_to_mv(s, v)` is `s * 1230 / v` whenever that is defined, and it is undefined
      exactly when `v` is zero or the quotient does not fit a `u16`; the `u32` product
      itself never overflows. */
  lemma SampleToMvValue(sample: u16, vref: u16)
    ensures CheckedMulU32(sample, VREFINT_MV) == Some(sample * 1230)
    ensures SampleToMv(sample, vref).None? <==> vref == 0 || sample * 1230 / vref > U16_MAX
    ensures SampleToMv(sample, vref).Some? ==> SampleToMv(sample, vref).value == sample * 1230 / vref
  {
    assert sample * 1230 <= U16_MAX * 1230;
  }

  lemma MulLtCancel(x: int, y: int, d: int)
    requires d > 0 && x * d < y * d
    ensures x < y
  {
  }

  lemma DivMonotone(a: nat, b: nat, d: nat)
    requires a <= b && d > 0
    ensures a / d <= b / d
  {
    assert (a / d) * d <= a;
    assert b < (b / d + 1) * d;
    MulLtCancel(a / d, b / d + 1, d);
  }

  /** For a fixed nonzero reference, a larger sample never converts to fewer millivolts;
      and a sample that converts makes every smaller one convert too. */
  lemma SampleToMvMonotone(s1: u16, s2: u16, vref: u16)
    requires s1 <= s2 && vref != 0
    ensures SampleToMv(s2, vref).Some? ==> SampleToMv(s1, vref).Some?
    ensures SampleToMv(s1, vref).Some? && SampleToMv(s2, vref).Some? ==> SampleToMv(s1, vref).value <= SampleToMv(s2, vref).value
  {
    SampleToMvValue(s1, vref);
    SampleToMvValue(s2, vref);
    DivMonotone(s1 * 1230, s2 * 1230, vref);
  }

  /** `mv_to_ma(mv)` is `mv * 10 / 33`, and it is undefined exactly when `mv * 10`
      overflows a `u16`, that is above 6553 mV. */
  lemma MvToMaValue(mv: u16)
    ensures MvToMa(mv).None? <==> mv > 6553
    ensures MvToMa(mv).Some? ==> MvToMa(mv).value == mv * 10 / 33
  {
  }

  /** `get_current` fails exactly when one of the two stages fails, and otherwise is their
      composition. */
  lemma GetCurrentComposes(vrefSample: u16, raw: u16)
    ensures GetCurrent(vrefSample, raw).None? <==>
              SampleToMv(raw, vrefSample).None? || MvToMa(SampleToMv(raw, vrefSample).value).None?
    ensures GetCurrent(vrefSample, raw).Some? ==>
              GetCurrent(vrefSample, raw).value == raw * 1230 / vrefSample * 10 / 33
  {
    SampleToMvValue(raw, vrefSample);
    if SampleToMv(raw, vrefSample).Some? {
      MvToMaValue(SampleToMv(raw, vrefSample).value);
    }
  }
}
