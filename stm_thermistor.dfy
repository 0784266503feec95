/** The firmware's own copy of the thermistor table, `stm/src/utils/thermistor.rs`, which
    has only the degrees-to-sample direction. It feeds `ABS_MAX_TEMP` of
    `stm/src/limits.rs`; the regulator's limits use the shared table of `Thermistor`. */
module StmThermistor {
  import opened Ints
  import Thermistor

  /** ADC sample at 0, 5, ..., 95 °C. */
  const LUT: seq<u16> := [111, 144, 186, 236, 298, 372, 459, 559, 675, 804, 948, 1104,
                          1271, 1446, 1626, 1809, 1991, 2170, 2344, 2511]

  /** The firmware's table is entry for entry the shared one, so it is strictly
      increasing too. */
  lemma LutIncreasing()
    ensures LUT == Thermistor.LUT
    ensures Thermistor.StrictlyIncreasing(LUT)
  {
    Thermistor.LutIncreasing();
  }

  /** `celsius_to_sample`: the table index `celsius / 5` must be below 20. */
  function CelsiusToSample(celsius: u8): (s: u16)
    requires celsius < 100
    ensures s in LUT && s == LUT[celsius / 5]
  {
    LUT[celsius / 5]
  }

  /** The lookup agrees with the shared one, never decreases with temperature, and spans
      111 at 0 °C to 2511 at 95 °C. */
  lemma CelsiusToSampleMonotone(c1: u8, c2: u8)
    requires c1 <= c2 < 100
    ensures CelsiusToSample(c1) == Thermistor.CelsiusToSample(c1)
    ensures CelsiusToSample(c1) <= CelsiusToSample(c2)
  {
    LutIncreasing();
    Thermistor.CelsiusToSampleMonotone(c1, c2);
  }

  lemma CelsiusToSampleEnds()
    ensures CelsiusToSample(0) == 111 && CelsiusToSample(95) == 2511
  {
  }
}
