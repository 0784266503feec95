/** The thermistor table of `common/src/utils/thermistor.rs`: twenty precomputed ADC
    samples, one per 5 °C from 0 °C to 95 °C, a lookup from degrees to a sample, and the
    inverse by binary search and linear interpolation between neighbouring entries. */
module Thermistor {
  import opened Ints
  import Adc

  /** ADC sample at 0, 5, ..., 95 °C. */
  const LUT: seq<u16> := [111, 144, 186, 236, 298, 372, 459, 559, 675, 804, 948, 1104,
                          1271, 1446, 1626, 1809, 1991, 2170, 2344, 2511]

  ghost predicate StrictlyIncreasing(t: seq<u16>) {
    forall i, j :: 0 <= i < j < |t| ==> t[i] < t[j]
  }

  /** The table has twenty entries and rises strictly from 111 at 0 °C to 2511 at 95 °C. */
  lemma LutIncreasing()
    ensures |LUT| == 20 && LUT[0] == 111 && LUT[19] == 2511
    ensures StrictlyIncreasing(LUT)
  {
    forall i, j | 0 <= i < j < |LUT|
      ensures LUT[i] < LUT[j]
    {
      AdjacentChain(i, j);
    }
  }

  lemma {:induction false} AdjacentChain(i: nat, j: nat)
    requires i < j < |LUT|
    ensures LUT[i] < LUT[j]
    decreases j - i
  {
    assert forall k :: 0 <= k < |LUT| - 1 ==> LUT[k] < LUT[k + 1];
    if j > i + 1 {
      AdjacentChain(i + 1, j);
    }
  }

  /** `celsius_to_sample`: the entry of the 5 °C band the temperature falls in; the index
      must be inside the table, so the temperature must be below 100 °C. */
  function CelsiusToSample(celsius: u8): (s: u16)
    requires celsius < 100
    ensures s in LUT && s == LUT[celsius / 5]
  {
    LUT[celsius / 5]
  }

  /** The lookup is constant within each 5 °C band and never decreases with temperature. */
  lemma CelsiusToSampleMonotone(c1: u8, c2: u8)
    requires c1 <= c2 < 100
    ensures c1 / 5 == c2 / 5 ==> CelsiusToSample(c1) == CelsiusToSample(c2)
    ensures CelsiusToSample(c1) <= CelsiusToSample(c2)
  {
    LutIncreasing();
    assert c1 / 5 <= c2 / 5;
  }

  /** What `[u16]::binary_search` reports on a strictly increasing slice: the index of an
      equal entry, or the number of entries below the sought value. */
  datatype Search = Found(index: nat) | Insert(index: nat)

  /** Binary search on the half-open window `[lo, hi)`, everything left of which is
      below the sought value and everything from `hi` on above it. */
  function BinarySearchIn(t: seq<u16>, x: u16, lo: nat, hi: nat): (r: Search)
    requires StrictlyIncreasing(t)
    requires lo <= hi <= |t|
    requires forall k :: 0 <= k < lo ==> t[k] < x
    requires forall k :: hi <= k < |t| ==> x < t[k]
    ensures r.Found? ==> r.index < |t| && t[r.index] == x
    ensures r.Insert? ==> r.index <= |t| && (forall k :: 0 <= k < r.index ==> t[k] < x)
                          && (forall k :: r.index <= k < |t| ==> x < t[k])
    decreases hi - lo
  {
    if lo == hi then Insert(lo)
    else
      var mid := lo + (hi - lo) / 2;
      if t[mid] == x then Found(mid)
      else if t[mid] < x then BinarySearchIn(t, x, mid + 1, hi)
      else BinarySearchIn(t, x, lo, mid)
  }

  function BinarySearch(t: seq<u16>, x: u16): (r: Search)
    requires StrictlyIncreasing(t)
    ensures r.Found? ==> r.index < |t| && t[r.index] == x
    ensures r.Insert? ==> r.index <= |t| && (forall k :: 0 <= k < r.index ==> t[k] < x)
                          && (forall k :: r.index <= k < |t| ==> x < t[k])
  {
    BinarySearchIn(t, x, 0, |t|)
  }

  /** The interpolation step between two neighbouring entries `lower < upper`: a sample
      strictly between them moves the result less than one 5 °C band. */
  function Interpolate(sample: u16, lower: u16, upper: u16): (q: nat)
    requires lower < sample < upper
    ensures q < 5
  {
    InterpolationBound(sample - lower, upper - lower);
    5 * (sample - lower) / (upper - lower)
  }

  lemma InterpolationBound(a: nat, d: nat)
    requires 0 < a < d
    ensures 5 * a / d < 5
  {
    assert 5 * a < 5 * d;
    assert (5 * a / d) * d <= 5 * a;
    Adc.MulLtCancel(5 * a / d, 5, d);
  }

  /** `sample_to_celsius`. A sample above the last entry makes the search report index
      20, and reading `LUT[20]` panics, so such samples are outside the domain. The two
      `unwrap`s cannot fail: the index is below 20 and the result below 100. */
  function SampleToCelsius(sample: u16): (c: u8)
    requires sample <= 2511
    ensures c < 100
  {
    LutIncreasing();
    match BinarySearch(LUT, sample)
    case Found(i) => i * 5
    case Insert(i) =>
      if i == 0 then 0
      else
        assert i < 20;
        Interpolate(sample, LUT[i - 1], LUT[i]) + 5 * (i - 1)
  }

  lemma SearchFindsEntry(i: nat)
    requires i < 20
    ensures BinarySearch(LUT, LUT[i]) == Found(i)
  {
    LutIncreasing();
    SearchFinds(LUT, i);
  }

  /** On a strictly increasing table an entry is found at its own index. */
  lemma SearchFinds(t: seq<u16>, i: nat)
    requires StrictlyIncreasing(t) && i < |t|
    ensures BinarySearch(t, t[i]) == Found(i)
  {
    var r := BinarySearch(t, t[i]);
  }

  /** An exact table entry at index `i` converts to `5 * i` °C. */
  lemma SampleToCelsiusAtEntry(i: nat)
    requires i < 20
    ensures SampleToCelsius(LUT[i]) == 5 * i
  {
    SearchFindsEntry(i);
  }

  /** Anything colder than the first entry reads as 0 °C. */
  lemma SampleToCelsiusBelowTable(sample: u16)
    requires sample < 111
    ensures SampleToCelsius(sample) == 0
  {
    LutIncreasing();
    var r := BinarySearch(LUT, sample);
  }

  /** Strictly between entries `i - 1` and `i` the result is the linear interpolation
      `5 * (s - lower) / (upper - lower) + 5 * (i - 1)`, which lies in the band
      `[5 * (i - 1), 5 * i)`. */
  lemma SampleToCelsiusBetween(i: nat, sample: u16)
    requires 1 <= i < 20 && LUT[i - 1] < sample < LUT[i]
    ensures SampleToCelsius(sample) ==
              5 * (sample - LUT[i - 1]) / (LUT[i] - LUT[i - 1]) + 5 * (i - 1)
    ensures 5 * (i - 1) <= SampleToCelsius(sample) < 5 * i
  {
    SearchBetween(i, sample);
  }

  lemma SearchBetween(i: nat, sample: u16)
    requires 1 <= i < 20 && LUT[i - 1] < sample < LUT[i]
    ensures BinarySearch(LUT, sample) == Insert(i)
  {
    LutIncreasing();
    SearchInserts(LUT, sample, i);
  }

  /** On a strictly increasing table a value strictly between entries `i - 1` and `i` is
      reported as insertion point `i`. */
  lemma SearchInserts(t: seq<u16>, x: u16, i: nat)
    requires StrictlyIncreasing(t)
    requires 1 <= i < |t| && t[i - 1] < x < t[i]
    ensures BinarySearch(t, x) == Insert(i)
  {
    var r := BinarySearch(t, x);
  }

  /** Converting a multiple of 5 °C up to 95 °C to a sample and back is the identity. */
  lemma CelsiusRoundTrip(c: u8)
    requires c <= 95 && c % 5 == 0
    ensures SampleToCelsius(CelsiusToSample(c)) == c
  {
    SampleToCelsiusAtEntry(c / 5);
  }
}
