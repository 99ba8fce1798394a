/** The integer signal pipeline of m4/flowmeter/flow_calc.cpp: the vortex
    frequency from a window of 16-bit ADC samples (a 5-tap moving average,
    then a count of rising crossings of mid-scale) and the die temperature
    from the internal sensor reading. */
module FlowCalc {
  import opened Bytes

  /** Samples on either side of the centre of the moving average. */
  const LP_WIN: nat := 2
  /** Mid-scale of the 16-bit ADC range. */
  const CROSS_VAL: nat := 0x8000
  /** Samples per second: one every 100 us. */
  const SAMPLE_RATE: nat := 10000
  const VORTEX_INPUT_SIZE: nat := 1000
  const V_TEMP25: nat := 716
  const M: nat := 1620

  // ---------------------------------------------------------------------
  // Temperature
  // ---------------------------------------------------------------------

  /** `calc_temp` and `convert_temp`: `25 - ((v - V_TEMP25) / M)` with every
      operand `unsigned int`, the result stored in an `int`. */
  function Temperature(v: u32): int
  {
    Int32(Wrap32(25 - Wrap32(v - V_TEMP25) / M))
  }

  /** The unsigned arithmetic amounts to 25 minus the wrapped difference
      over the slope: the final subtraction never leaves the `int` range. */
  lemma TemperatureValue(v: u32)
    ensures Temperature(v) == 25 - Wrap32(v - V_TEMP25) / M
    ensures v >= V_TEMP25 ==> Temperature(v) == 25 - (v - V_TEMP25) / M
    ensures v < V_TEMP25 ==> Temperature(v) == 25 - (v + 0x1_0000_0000 - V_TEMP25) / M
    ensures v < V_TEMP25 ==> Temperature(v) < -2_651_000
  {
    var q := Wrap32(v - V_TEMP25) / M;
    assert q <= 2_651_260;
  }

  /** 716 reads as 25 degrees, and above 716 a larger reading never gives a
      higher temperature. */
  lemma TemperatureMonotone(v: u32, w: u32)
    requires V_TEMP25 <= v <= w
    ensures Temperature(V_TEMP25) == 25
    ensures Temperature(w) <= Temperature(v)
  {
    TemperatureValue(V_TEMP25);
    TemperatureValue(v);
    TemperatureValue(w);
  }

  // ---------------------------------------------------------------------
  // Moving average
  // ---------------------------------------------------------------------

  /** The first `m` samples of the window centred on `i`. */
  function WindowPartial(vals: seq<u16>, i: nat, m: nat): nat
    requires LP_WIN <= i && i + LP_WIN < |vals| && m <= 2 * LP_WIN + 1
  {
    if m == 0 then 0 else WindowPartial(vals, i, m - 1) + vals[i - LP_WIN + m - 1]
  }

  /** The 5-sample window sum around `i`. */
  function WindowSum(vals: seq<u16>, i: nat): nat
    requires LP_WIN <= i && i + LP_WIN < |vals|
  {
    vals[i - 2] as int + vals[i - 1] + vals[i] + vals[i + 1] + vals[i + 2]
  }

  /** The inner loop's running sum ends at the window sum. */
  lemma WindowPartialComplete(vals: seq<u16>, i: nat)
    requires LP_WIN <= i && i + LP_WIN < |vals|
    ensures WindowPartial(vals, i, 2 * LP_WIN + 1) == WindowSum(vals, i)
  {
    assert WindowPartial(vals, i, 1) == vals[i - 2];
    assert WindowPartial(vals, i, 2) == vals[i - 2] as int + vals[i - 1];
    assert WindowPartial(vals, i, 3) == vals[i - 2] as int + vals[i - 1] + vals[i];
    assert WindowPartial(vals, i, 4) == vals[i - 2] as int + vals[i - 1] + vals[i] + vals[i + 1];
  }

  /** `lp[i]`: the window average, by integer division. */
  function Lowpass(vals: seq<u16>, i: nat): nat
    requires LP_WIN <= i && i + LP_WIN < |vals|
  {
    WindowSum(vals, i) / (2 * LP_WIN + 1)
  }

  /** The sum fits the `unsigned int` of `lp[]` and the average is again a
      16-bit value, bounded by the window's extremes. */
  lemma LowpassBounds(vals: seq<u16>, i: nat)
    requires LP_WIN <= i && i + LP_WIN < |vals|
    ensures WindowSum(vals, i) <= 5 * 0xFFFF < 0x1_0000_0000
    ensures Lowpass(vals, i) <= 0xFFFF
    ensures forall j :: i - 2 <= j <= i + 2 && (forall k :: i - 2 <= k <= i + 2 ==> vals[k] <= vals[j])
              ==> Lowpass(vals, i) <= vals[j]
  {
  }

  /** A constant window averages to its value. */
  lemma LowpassConstant(vals: seq<u16>, i: nat, c: u16)
    requires LP_WIN <= i && i + LP_WIN < |vals|
    requires forall k :: i - 2 <= k <= i + 2 ==> vals[k] == c
    ensures Lowpass(vals, i) == c
  {
  }

  /** The filtered values `lp[2] .. lp[n-3]` the detector walks. */
  function Filtered(vals: seq<u16>, n: nat): (f: seq<int>)
    requires n <= |vals|
    ensures |f| == if n >= 2 * LP_WIN then n - 2 * LP_WIN else 0
    ensures forall k :: 0 <= k < |f| ==> f[k] == Lowpass(vals, k + LP_WIN)
  {
    if n < 2 * LP_WIN then []
    else
      seq(n - 2 * LP_WIN, (k: int) requires 0 <= k < n - 2 * LP_WIN => Lowpass(vals, k + LP_WIN))
  }

  // ---------------------------------------------------------------------
  // Crossing detector
  // ---------------------------------------------------------------------

  /** `crossings` and `cur_sign` of the detector loop. */
  datatype Detector = Detector(crossings: nat, curSign: int)

  /** One step of the detector: a value above mid-scale while the sign is
      not positive is a counted (rising) crossing; a value below mid-scale
      while the sign is not negative makes it negative. */
  function DetectStep(d: Detector, x: int): Detector
  {
    if x > CROSS_VAL && d.curSign <= 0 then Detector(d.crossings + 1, 1)
    else if x < CROSS_VAL && d.curSign >= 0 then Detector(d.crossings, -1)
    else d
  }

  /** The detector after the values `s`, from `crossings = 0, cur_sign = 0`. */
  function Detect(s: seq<int>): Detector
  {
    if s == [] then Detector(0, 0) else DetectStep(Detect(s[..|s| - 1]), s[|s| - 1])
  }

  /** `calc_freq`'s result: crossings per second of sampling. */
  function Frequency(vals: seq<u16>, n: nat): int
    requires 0 < n <= |vals|
  {
    (SAMPLE_RATE * Detect(Filtered(vals, n)).crossings) / n
  }

  /** The step rules: only a value strictly above mid-scale met with a
      non-positive sign counts; mid-scale itself changes nothing; and the first
      value above mid-scale counts, since the sign starts at 0. */
  lemma DetectStepRules(d: Detector, x: int)
    ensures DetectStep(d, x).crossings == d.crossings + (if x > CROSS_VAL && d.curSign <= 0 then 1 else 0)
    ensures x == CROSS_VAL ==> DetectStep(d, x) == d
    ensures x > CROSS_VAL ==> DetectStep(d, x).curSign >= 1
    ensures x < CROSS_VAL ==> DetectStep(d, x).curSign <= -1
    ensures x > CROSS_VAL ==> Detect([x]).crossings == 1
  {
    assert [x][..0] == [];
  }

  /** The sign is always -1, 0 or 1, and 0 only before any value off
      mid-scale. */
  lemma {:induction false} DetectSign(s: seq<int>)
    ensures -1 <= Detect(s).curSign <= 1
    ensures Detect(s).curSign == 0 <==> forall k :: 0 <= k < |s| ==> s[k] == CROSS_VAL
  {
    if s != [] {
      var init := s[..|s| - 1];
      DetectSign(init);
      assert forall k :: 0 <= k < |init| ==> init[k] == s[k];
    }
  }

  /** At most one crossing per filtered value, so no more than n-4 for n
      samples. */
  lemma {:induction false} CrossingsBound(s: seq<int>)
    ensures Detect(s).crossings <= |s|
  {
    if s != [] {
      CrossingsBound(s[..|s| - 1]);
    }
  }

  /** A window whose filtered values never go above mid-scale has no
      crossing, hence frequency 0. */
  lemma {:induction false} NoCrossingsWhenLow(s: seq<int>)
    requires forall k :: 0 <= k < |s| ==> s[k] <= CROSS_VAL
    ensures Detect(s).crossings == 0
  {
    if s != [] {
      NoCrossingsWhenLow(s[..|s| - 1]);
    }
  }

  lemma FrequencyZeroWhenLow(vals: seq<u16>, n: nat)
    requires 0 < n <= |vals|
    requires forall i :: LP_WIN <= i && i + LP_WIN < n ==> Lowpass(vals, i) <= CROSS_VAL
    ensures Frequency(vals, n) == 0
  {
    var f := Filtered(vals, n);
    assert forall k :: 0 <= k < |f| ==> f[k] == Lowpass(vals, k + LP_WIN);
    NoCrossingsWhenLow(f);
  }

  /** Once the sign is positive it stays so until a value below mid-scale. */
  lemma {:induction false} StaysPositive(s: seq<int>, i: nat, j: nat)
    requires i <= j <= |s|
    requires Detect(s[..i]).curSign == 1
    requires forall k :: i <= k < j ==> s[k] >= CROSS_VAL
    ensures Detect(s[..j]).curSign == 1
    ensures Detect(s[..j]).crossings == Detect(s[..i]).crossings
    decreases j
  {
    if j > i {
      StaysPositive(s, i, j - 1);
      assert s[..j][..j - 1] == s[..j - 1];
    }
  }

  /** Two counted crossings, at positions i < j, always have a value below
      mid-scale between them. */
  lemma CrossingsSeparated(s: seq<int>, i: nat, j: nat)
    requires i < j < |s|
    requires Detect(s[..i + 1]).crossings > Detect(s[..i]).crossings
    requires Detect(s[..j + 1]).crossings > Detect(s[..j]).crossings
    ensures exists k :: i < k < j && s[k] < CROSS_VAL
  {
    assert s[..i + 1][..i] == s[..i];
    assert s[..j + 1][..j] == s[..j];
    if forall k :: i < k < j ==> s[k] >= CROSS_VAL {
      StaysPositive(s, i + 1, j);
    }
  }

  /** The crossing count times the sample rate fits a 32-bit `int` for
      every window of at most 214,752 samples. */
  lemma FrequencyFitsInt(vals: seq<u16>, n: nat)
    requires 0 < n <= |vals| && n <= 214_752
    ensures SAMPLE_RATE * Detect(Filtered(vals, n)).crossings < 0x8000_0000
    ensures 0 <= Frequency(vals, n) <= SAMPLE_RATE
  {
    var f := Filtered(vals, n);
    CrossingsBound(f);
    var c := Detect(f).crossings;
    assert c <= 214_748;
    ScaledBound(c, 214_748);
    ScaledRatio(c, n);
  }

  /** `SAMPLE_RATE * c` grows with `c`. */
  lemma ScaledBound(c: nat, m: nat)
    requires c <= m
    ensures SAMPLE_RATE * c <= SAMPLE_RATE * m
  {
  }

  /** At most one crossing per sample gives at most `SAMPLE_RATE`. */
  lemma ScaledRatio(c: nat, n: nat)
    requires 0 < n && c <= n
    ensures 0 <= (SAMPLE_RATE * c) / n <= SAMPLE_RATE
  {
    var a := SAMPLE_RATE * c;
    var q := a / n;
    ScaledBound(c, n);
    assert q * n + a % n == a;
  }

  // ---------------------------------------------------------------------
  // The built-in test vector
  // ---------------------------------------------------------------------

  /** One period of `adc_test_data`: it is 100 repetitions of these ten
      samples, a 1000 Hz sine sampled every 100 us. */
  const TEST_PERIOD: seq<u16> := [0x7FFF, 0xCB3B, 0xF9BB, 0xF9BB, 0xCB3B, 0x7FFF, 0x34C3, 0x0643, 0x0643, 0x34C3]

  /** `adc_test_data` */
  function AdcTestData(): (d: seq<u16>)
    ensures |d| == VORTEX_INPUT_SIZE
    ensures forall i :: 0 <= i < |d| ==> d[i] == TEST_PERIOD[i % 10]
  {
    seq(VORTEX_INPUT_SIZE, i requires 0 <= i < VORTEX_INPUT_SIZE => TEST_PERIOD[i % 10])
  }

  /** The filtered values of one period, by the phase of their centre. */
  const TEST_LOWPASS: seq<int> := [32767, 45232, 52936, 52936, 45232, 32767, 20301, 12597, 12597, 20301]

  lemma TestDataAt(j: nat, q: nat, r: nat)
    requires j == 10 * q + r && r < 10 && j < VORTEX_INPUT_SIZE
    ensures AdcTestData()[j] == TEST_PERIOD[r]
  {
  }

  /** The phase of position `k` of a period, for `k` at most one period
      away from it. */
  function Phase(k: int): (r: nat)
    requires -10 <= k < 20
    ensures r < 10 && (r - k) % 10 == 0
  {
    if k < 0 then k + 10 else if k >= 10 then k - 10 else k
  }

  /** Sample `i + d` of the test vector, for a centre `i` of phase `p`. */
  lemma TestSample(i: nat, q: nat, p: nat, d: int)
    requires i == 10 * q + p && p < 10 && -2 <= d <= 2 && 0 <= i + d < VORTEX_INPUT_SIZE
    ensures AdcTestData()[i + d] == TEST_PERIOD[Phase(p + d)]
  {
    if p + d < 0 {
      TestDataAt(i + d, q - 1, p + d + 10);
    } else if p + d >= 10 {
      TestDataAt(i + d, q + 1, p + d - 10);
    } else {
      TestDataAt(i + d, q, p + d);
    }
  }

  /** The average of a window whose five samples are known. */
  lemma LowpassOfSamples(vals: seq<u16>, i: nat, a: int, b: int, c: int, d: int, e: int)
    requires LP_WIN <= i && i + LP_WIN < |vals|
    requires vals[i - 2] == a && vals[i - 1] == b && vals[i] == c && vals[i + 1] == d && vals[i + 2] == e
    ensures Lowpass(vals, i) == (a + b + c + d + e) / 5
  {
  }

  /** The averages of one period, by phase. */
  lemma PeriodLowpass(p: nat)
    requires p < 10
    ensures (TEST_PERIOD[Phase(p - 2)] as int + TEST_PERIOD[Phase(p - 1)] + TEST_PERIOD[p]
             + TEST_PERIOD[Phase(p + 1)] + TEST_PERIOD[Phase(p + 2)]) / 5 == TEST_LOWPASS[p]
  {
  }

  lemma TestLowpass(i: nat)
    requires LP_WIN <= i && i + LP_WIN < VORTEX_INPUT_SIZE
    ensures Lowpass(AdcTestData(), i) == TEST_LOWPASS[i % 10]
  {
    var q, p := i / 10, i % 10;
    TestSample(i, q, p, -2);
    TestSample(i, q, p, -1);
    TestSample(i, q, p, 0);
    TestSample(i, q, p, 1);
    TestSample(i, q, p, 2);
    LowpassOfSamples(AdcTestData(), i, TEST_PERIOD[Phase(p - 2)], TEST_PERIOD[Phase(p - 1)],
      TEST_PERIOD[p], TEST_PERIOD[Phase(p + 1)], TEST_PERIOD[Phase(p + 2)]);
    PeriodLowpass(p);
  }

  /** The detector state after the first `l` filtered test values: one
      crossing for the first value (above mid-scale, sign 0) and one more
      each time the centre's phase comes round to 1; the sign is positive
      while the last centre's phase is 1 .. 4. */
  function TestDetector(l: nat): Detector
  {
    var ph := (l + 1) % 10;
    Detector(1 + l / 10, if 1 <= ph <= 4 then 1 else -1)
  }

  /** Value number l of the filtered test vector (centre l + 1) moves the
      detector from its state after l - 1 values to its state after l. */
  lemma TestDetectorStep(l: nat)
    requires l >= 2
    ensures DetectStep(TestDetector(l - 1), TEST_LOWPASS[(l + 1) % 10]) == TestDetector(l)
  {
    var q, r := l / 10, l % 10;
    assert l == 10 * q + r;
    if r == 0 {
      assert (l - 1) / 10 == q - 1 && l % 10 == 0 && (l + 1) % 10 == 1;
    } else {
      assert (l - 1) / 10 == q && l % 10 == r;
      assert (l + 1) % 10 == (r + 1) % 10;
    }
  }

  /** Filtered value `k` of the test vector, centred on sample `k + 2`. */
  lemma FilteredTestAt(k: nat)
    requires k < VORTEX_INPUT_SIZE - 2 * LP_WIN
    ensures |Filtered(AdcTestData(), VORTEX_INPUT_SIZE)| == VORTEX_INPUT_SIZE - 2 * LP_WIN
    ensures Filtered(AdcTestData(), VORTEX_INPUT_SIZE)[k] == TEST_LOWPASS[(k + 2) % 10]
  {
    TestLowpass(k + 2);
  }

  lemma {:induction false} TestDetect(l: nat)
    requires 1 <= l <= VORTEX_INPUT_SIZE - 2 * LP_WIN
    ensures Detect(Filtered(AdcTestData(), VORTEX_INPUT_SIZE)[..l]) == TestDetector(l)
  {
    var f := Filtered(AdcTestData(), VORTEX_INPUT_SIZE);
    var g := f[..l];
    FilteredTestAt(l - 1);
    assert g[l - 1] == TEST_LOWPASS[(l + 1) % 10];
    if l == 1 {
      assert g[..0] == [];
    } else {
      TestDetect(l - 1);
      assert g[..l - 1] == f[..l - 1];
      TestDetectorStep(l);
    }
  }

  /** The documented behaviour of the test vector: `calc_freq(adc_test_data,
      1000)` is 1000 (Hz). */
  lemma TestVectorIs1000Hz()
    ensures Frequency(AdcTestData(), VORTEX_INPUT_SIZE) == 1000
  {
    var f := Filtered(AdcTestData(), VORTEX_INPUT_SIZE);
    assert |f| == 996;
    TestDetect(996);
    assert f[..996] == f;
    assert TestDetector(996).crossings == 100;
  }

  // ---------------------------------------------------------------------
  // The routines
  // ---------------------------------------------------------------------

  /** The globals `temp` and `freq` of flow_calc.cpp. */
  class FlowCalc {
    var temp: int
    var freq: int

    constructor ()
      ensures temp == 0 && freq == 0
    {
      temp, freq := 0, 0;
    }

    /** `calc_temp`: the temperature, also stored in `temp`. */
    method CalcTemp(vTemp: u32) returns (t: int)
      modifies this`temp
      ensures t == Temperature(vTemp) && temp == t
    {
      temp := Int32(Wrap32(25 - Wrap32(vTemp - V_TEMP25) / M));
      t := temp;
    }

    /** `calc_freq`: fills `lp[]` with the moving average, runs the crossing
        detector over it and stores the frequency in `freq`.  The caller
        passes at least one sample (the result divides by the count). */
    method CalcFreq(vals: seq<u16>, sampleCount: nat) returns (f: int)
      requires 0 < sampleCount <= |vals|
      modifies this`freq
      ensures f == Frequency(vals, sampleCount) && freq == f
    {
      var lp := new nat[sampleCount];
      var i := LP_WIN;
      while i + LP_WIN < sampleCount
        invariant LP_WIN <= i && (i <= sampleCount - LP_WIN || i == LP_WIN)
        invariant forall k :: LP_WIN <= k < i ==> lp[k] == Lowpass(vals, k)
      {
        lp[i] := 0;
        var j: int := -(LP_WIN as int);
        while j <= LP_WIN
          invariant -(LP_WIN as int) <= j <= LP_WIN + 1
          invariant lp[i] == WindowPartial(vals, i, j + LP_WIN)
          invariant forall k :: LP_WIN <= k < i ==> lp[k] == Lowpass(vals, k)
        {
          lp[i] := lp[i] + vals[i + j];
          j := j + 1;
        }
        WindowPartialComplete(vals, i);
        lp[i] := lp[i] / (2 * LP_WIN + 1);
        i := i + 1;
      }

      ghost var s := Filtered(vals, sampleCount);
      var crossings := 0;
      var curSign := 0;
      i := LP_WIN;
      while i + LP_WIN < sampleCount
        invariant LP_WIN <= i && (i <= sampleCount - LP_WIN || i == LP_WIN)
        invariant i - LP_WIN <= |s|
        invariant Detector(crossings, curSign) == Detect(s[..i - LP_WIN])
      {
        assert s[..i - LP_WIN + 1][..i - LP_WIN] == s[..i - LP_WIN];
        if lp[i] > CROSS_VAL && curSign <= 0 {
          curSign := 1;
          crossings := crossings + 1;
        } else if lp[i] < CROSS_VAL && curSign >= 0 {
          curSign := -1;
        }
        i := i + 1;
      }
      assert s[..i - LP_WIN] == s;
      freq := (SAMPLE_RATE * crossings) / sampleCount;
      f := freq;
    }
  }
}
