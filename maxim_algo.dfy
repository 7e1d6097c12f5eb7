/** The integer part of maxim_heart_rate_and_oxygen_saturation
    (dcp_algorithm/maxim_algo.c): the uint32 DC means, the no-finger floor,
    the max - min AC amplitudes and the threshold peak counter. The
    floating-point R ratio, SpO2 polynomial and heart-rate division are
    parameters of the model. */
module MaximAlgo {
  /** ALGO_BUFFER_SIZE in maxim_algo.h: the longest buffer a caller passes. */
  const ALGO_BUFFER_SIZE: nat := 400
  /** An IR mean below this means no finger on the sensor. */
  const NO_FINGER_FLOOR: nat := 10000
  /** The value reported for an invalid SpO2 or heart rate. */
  const INVALID: int := -999
  const U32_MODULUS: nat := 0x1_0000_0000
  const U32_MAX: nat := 0xFFFF_FFFF
  /** The sensor's ADC delivers 18-bit samples. */
  const SAMPLE_BOUND: nat := 0x4_0000

  type U32 = x: int | 0 <= x < 0x1_0000_0000
  type I32 = x: int | -0x8000_0000 <= x < 0x8000_0000

  /** The mathematical sum of the samples. */
  function Sum(xs: seq<U32>): nat {
    if xs == [] then 0 else Sum(xs[..|xs| - 1]) + xs[|xs| - 1]
  }

  /** What a uint32 accumulator holds after adding the samples. */
  function WrappedSum(xs: seq<U32>): U32 {
    Sum(xs) % U32_MODULUS
  }

  /** The first n samples, none when n is not positive. */
  function Window(xs: seq<U32>, n: I32): seq<U32>
    requires n <= |xs|
  {
    if n > 0 then xs[..n] else []
  }

  /** An int32 converted to uint32. */
  function AsU32(n: I32): U32 {
    if n >= 0 then n else n + U32_MODULUS
  }

  /** un_mean /= n: an unsigned division, so a negative int32 length is
      converted to uint32 first. */
  function Mean(xs: seq<U32>, n: I32): U32
    requires n != 0 && n <= |xs|
  {
    UDiv(WrappedSum(Window(xs, n)), AsU32(n))
  }

  /** uint32 division. */
  function UDiv(a: U32, d: U32): (q: U32)
    requires d > 0
    ensures q <= a
  {
    DivLe(a, d);
    a / d
  }

  /** ir_max after the scan: the running maximum started at 0. */
  function Largest(xs: seq<U32>): (m: U32)
    ensures forall k :: 0 <= k < |xs| ==> xs[k] <= m
    ensures xs != [] ==> m in xs
  {
    if xs == [] then 0
    else
      var m := Largest(xs[..|xs| - 1]);
      if xs[|xs| - 1] > m then xs[|xs| - 1] else m
  }

  /** ir_min after the scan: the running minimum started at 0xFFFFFFFF. */
  function Smallest(xs: seq<U32>): (m: U32)
    ensures forall k :: 0 <= k < |xs| ==> m <= xs[k]
    ensures xs != [] ==> m in xs
  {
    if xs == [] then U32_MAX
    else
      var m := Smallest(xs[..|xs| - 1]);
      if xs[|xs| - 1] < m then xs[|xs| - 1] else m
  }

  /** The peak counter's state: peaks counted so far and the `above` flag. */
  datatype Scan = Scan(peaks: nat, above: bool)

  /** One sample: counted when strictly above the threshold while not
      already above; strictly below clears the flag; equal changes nothing. */
  function ScanStep(s: Scan, x: U32, threshold: int): Scan {
    if x > threshold && !s.above then Scan(s.peaks + 1, true)
    else if x < threshold then Scan(s.peaks, false)
    else s
  }

  function PeakScan(xs: seq<U32>, threshold: int): Scan {
    if xs == [] then Scan(0, false)
    else ScanStep(PeakScan(xs[..|xs| - 1], threshold), xs[|xs| - 1], threshold)
  }

  /** The integer quantities the floating-point part works from. */
  datatype Features = Features(irMean: U32, redMean: U32, acIr: int, acRed: int, peaks: nat)

  /** The AC amplitudes and the peak count of the windows. */
  function FeaturesOf(irs: seq<U32>, reds: seq<U32>, irMean: U32, redMean: U32): Features {
    Features(irMean, redMean, Largest(irs) - Smallest(irs), Largest(reds) - Smallest(reds), PeakScan(irs, irMean).peaks)
  }

  /** The four outputs: SpO2, its valid flag, heart rate, its valid flag. */
  datatype Vitals = Vitals(spo2: int, spo2Valid: int, heartRate: int, hrValid: int)

  /** The estimator on the first n samples of each channel. spo2Of stands
      for the R ratio, polynomial, clamp and truncation; hrOf for the
      duration and heart-rate conversion of the peak count. */
  function Estimate(ir: seq<U32>, red: seq<U32>, n: I32, spo2Of: Features -> int, hrOf: (nat, I32) -> int): Vitals
    requires n != 0 && n <= |ir| && n <= |red|
  {
    var irMean := Mean(ir, n);
    var redMean := Mean(red, n);
    if irMean < NO_FINGER_FLOOR then Vitals(INVALID, 0, INVALID, 0)
    else
      var f := FeaturesOf(Window(ir, n), Window(red, n), irMean, redMean);
      Vitals(spo2Of(f), 1, hrOf(f.peaks, n), 1)
  }

  /** The no-finger path: both flags are 0 and both values -999 exactly when
      the IR mean is below the floor; otherwise both flags are 1, whatever
      the peak count. A negative length always takes the no-finger path. */
  lemma ValidityFlags(ir: seq<U32>, red: seq<U32>, n: I32, spo2Of: Features -> int, hrOf: (nat, I32) -> int)
    requires n != 0 && n <= |ir| && n <= |red|
    ensures var v := Estimate(ir, red, n, spo2Of, hrOf);
      && (v.spo2Valid == 0 <==> Mean(ir, n) < NO_FINGER_FLOOR)
      && (v.hrValid == 0 <==> Mean(ir, n) < NO_FINGER_FLOOR)
      && (v.spo2Valid == 0 ==> v.spo2 == INVALID && v.heartRate == INVALID)
      && (v.spo2Valid != 0 ==> v.spo2Valid == 1 && v.hrValid == 1 && n > 0)
    ensures n < 0 ==> Estimate(ir, red, n, spo2Of, hrOf) == Vitals(INVALID, 0, INVALID, 0)
  {
  }

  /** A mean at or above the floor needs a positive length: for a negative
      one nothing is summed. */
  lemma PositiveWhenAboveFloor(xs: seq<U32>, n: I32)
    requires n != 0 && n <= |xs| && Mean(xs, n) >= NO_FINGER_FLOOR
    ensures n > 0
  {
  }

  lemma DivBounds(a: nat, d: nat)
    requires d > 0
    ensures (a / d) * d <= a < (a / d + 1) * d
  {
    assert a == (a / d) * d + a % d;
  }

  lemma DivLe(a: nat, d: nat)
    requires d > 0
    ensures a / d <= a
  {
    var q := a / d;
    DivBounds(a, d);
    MulLe(1, d, q);
    assert q <= d * q;
    assert d * q == q * d;
  }

  lemma MulLe(a: nat, b: nat, n: nat)
    requires a <= b
    ensures a * n <= b * n
  {
  }

  /** Sums of 18-bit samples: each term below the bound keeps the sum below
      the count times the bound. */
  lemma {:induction false} SumBound(xs: seq<U32>, bound: nat)
    requires forall k :: 0 <= k < |xs| ==> xs[k] < bound
    ensures Sum(xs) <= |xs| * bound
    ensures xs != [] ==> Sum(xs) < |xs| * bound
  {
    if xs != [] {
      SumBound(xs[..|xs| - 1], bound);
    }
  }

  /** With 18-bit samples and at most ALGO_BUFFER_SIZE of them the uint32
      sum cannot wrap, so the mean is the true truncated mean and is itself
      an 18-bit value. */
  lemma NoWrap(xs: seq<U32>, n: I32)
    requires 0 < n <= |xs| && n <= ALGO_BUFFER_SIZE
    requires forall k :: 0 <= k < n ==> xs[k] < SAMPLE_BOUND
    ensures Sum(xs[..n]) < U32_MODULUS && WrappedSum(xs[..n]) == Sum(xs[..n])
    ensures Mean(xs, n) * n <= Sum(xs[..n]) < (Mean(xs, n) + 1) * n
    ensures Mean(xs, n) < SAMPLE_BOUND
  {
    var w := xs[..n];
    SumBound(w, SAMPLE_BOUND);
    MulLe(n, ALGO_BUFFER_SIZE, SAMPLE_BOUND);
    assert Window(xs, n) == w;
    var m := Sum(w) / n;
    assert Mean(xs, n) == m;
    DivBounds(Sum(w), n);
    if m >= SAMPLE_BOUND {
      MulLe(SAMPLE_BOUND, m, n);
    }
  }

  /** The AC amplitudes are never negative, and are the spread of the
      window: zero exactly when all its samples are equal. */
  lemma {:induction false} SpreadNonNegative(xs: seq<U32>)
    requires xs != []
    ensures 0 <= Largest(xs) - Smallest(xs)
    ensures Largest(xs) - Smallest(xs) == 0 <==> forall k :: 0 <= k < |xs| ==> xs[k] == xs[0]
  {
    if forall k :: 0 <= k < |xs| ==> xs[k] == xs[0] {
      assert Largest(xs) == xs[0] && Smallest(xs) == xs[0];
    }
  }

  /** Two counted peaks need a sample strictly below the threshold between
      them, so at most ceil(n / 2) peaks are counted; the flag is set only
      after a counted peak. */
  lemma {:induction false} PeakBound(xs: seq<U32>, threshold: int)
    ensures var s := PeakScan(xs, threshold);
      && 2 * s.peaks <= |xs| + (if s.above then 1 else 0)
      && (s.above ==> s.peaks >= 1)
    ensures PeakScan(xs, threshold).peaks <= (|xs| + 1) / 2
  {
    if xs != [] {
      PeakBound(xs[..|xs| - 1], threshold);
    }
  }

  /** At least one peak is counted exactly when some sample is strictly
      above the threshold. */
  lemma {:induction false} SomePeakIff(xs: seq<U32>, threshold: int)
    ensures PeakScan(xs, threshold).peaks >= 1 <==> exists k :: 0 <= k < |xs| && xs[k] > threshold
  {
    if xs != [] {
      var init := xs[..|xs| - 1];
      SomePeakIff(init, threshold);
      PeakBound(init, threshold);
      if exists k :: 0 <= k < |init| && init[k] > threshold {
        var k :| 0 <= k < |init| && init[k] > threshold;
        assert xs[k] > threshold;
      }
      if exists k :: 0 <= k < |xs| && xs[k] > threshold {
        var k :| 0 <= k < |xs| && xs[k] > threshold;
        if k < |init| {
          assert init[k] > threshold;
        }
      }
    }
  }

  /** The mean of a flat 18-bit window is its level. */
  lemma FlatMean(xs: seq<U32>, n: I32)
    requires 0 < n <= |xs| && n <= ALGO_BUFFER_SIZE
    requires forall k :: 0 <= k < n ==> xs[k] == xs[0]
    requires xs[0] < SAMPLE_BOUND
    ensures Mean(xs, n) == xs[0]
  {
    NoWrap(xs, n);
    ConstantSum(xs[..n], xs[0]);
    var m := Mean(xs, n);
    assert m * n <= xs[0] * n < (m + 1) * n;
    if m < xs[0] {
      MulLe(m + 1, xs[0], n);
    } else if m > xs[0] {
      MulLe(xs[0] + 1, m, n);
    }
  }

  /** The integer features handed to the floating-point part: both AC
      amplitudes are non-negative and the peak count is at most ceil(n / 2). */
  lemma FeatureBounds(irs: seq<U32>, reds: seq<U32>, irMean: U32, redMean: U32)
    requires irs != [] && reds != []
    ensures var f := FeaturesOf(irs, reds, irMean, redMean);
      f.acIr >= 0 && f.acRed >= 0 && f.peaks <= (|irs| + 1) / 2
  {
    SpreadNonNegative(irs);
    SpreadNonNegative(reds);
    PeakBound(irs, irMean);
  }

  /** A flat signal above the floor still reports valid SpO2 and heart rate,
      from zero peaks and zero IR amplitude. */
  lemma FlatSignalStillValid(ir: seq<U32>, red: seq<U32>, n: I32, spo2Of: Features -> int, hrOf: (nat, I32) -> int)
    requires 0 < n <= |ir| && n <= |red| && n <= ALGO_BUFFER_SIZE
    requires forall k :: 0 <= k < n ==> ir[k] == ir[0]
    requires NO_FINGER_FLOOR <= ir[0] < SAMPLE_BOUND
    ensures var v := Estimate(ir, red, n, spo2Of, hrOf);
      v.spo2Valid == 1 && v.hrValid == 1 && v.heartRate == hrOf(0, n)
  {
    var w := ir[..n];
    FlatMean(ir, n);
    SomePeakIff(w, ir[0]);
    assert Window(ir, n) == w;
  }

  lemma {:induction false} ConstantSum(xs: seq<U32>, c: U32)
    requires forall k :: 0 <= k < |xs| ==> xs[k] == c
    ensures Sum(xs) == |xs| * c
  {
    if xs != [] {
      ConstantSum(xs[..|xs| - 1], c);
    }
  }

  lemma ModStep(a: nat, x: U32)
    ensures (a % U32_MODULUS + x) % U32_MODULUS == (a + x) % U32_MODULUS
  {
    var q := a / U32_MODULUS;
    assert a == q * U32_MODULUS + a % U32_MODULUS;
  }

  /** The first loop: both channels accumulated in uint32. */
  method SumChannels(ir: array<U32>, red: array<U32>, n: I32) returns (irSum: U32, redSum: U32)
    requires n <= ir.Length && n <= red.Length
    ensures irSum == WrappedSum(Window(ir[..], n)) && redSum == WrappedSum(Window(red[..], n))
  {
    irSum, redSum := 0, 0;
    var count: nat := if n > 0 then n else 0;
    var i: nat := 0;
    while i < count
      invariant i <= count
      invariant irSum == WrappedSum(ir[..i]) && redSum == WrappedSum(red[..i])
    {
      assert ir[..i + 1][..i] == ir[..i] && red[..i + 1][..i] == red[..i];
      ModStep(Sum(ir[..i]), ir[i]);
      ModStep(Sum(red[..i]), red[i]);
      irSum := (irSum + ir[i]) % U32_MODULUS;
      redSum := (redSum + red[i]) % U32_MODULUS;
      i := i + 1;
    }
    assert Window(ir[..], n) == ir[..count] && Window(red[..], n) == red[..count];
  }

  /** The second loop: running maxima and minima of both channels. */
  method Extremes(ir: array<U32>, red: array<U32>, n: I32) returns (irMax: U32, irMin: U32, redMax: U32, redMin: U32)
    requires 0 < n <= ir.Length && n <= red.Length
    ensures irMax == Largest(ir[..n]) && irMin == Smallest(ir[..n])
    ensures redMax == Largest(red[..n]) && redMin == Smallest(red[..n])
  {
    irMax, irMin, redMax, redMin := 0, U32_MAX, 0, U32_MAX;
    var i: I32 := 0;
    while i < n
      invariant 0 <= i <= n
      invariant irMax == Largest(ir[..i]) && irMin == Smallest(ir[..i])
      invariant redMax == Largest(red[..i]) && redMin == Smallest(red[..i])
    {
      assert ir[..i + 1][..i] == ir[..i] && red[..i + 1][..i] == red[..i];
      if ir[i] > irMax { irMax := ir[i]; }
      if ir[i] < irMin { irMin := ir[i]; }
      if red[i] > redMax { redMax := red[i]; }
      if red[i] < redMin { redMin := red[i]; }
      i := i + 1;
    }
  }

  /** The third loop: the peak counter against the IR mean. The int32
      threshold compares with the uint32 samples after conversion back to
      uint32, so it acts as the mean itself. */
  method CountPeaks(ir: array<U32>, n: I32, threshold: U32) returns (peaks: nat)
    requires 0 < n <= ir.Length
    ensures peaks == PeakScan(ir[..n], threshold).peaks
  {
    peaks := 0;
    var above := false;
    var i: I32 := 0;
    while i < n
      invariant 0 <= i <= n
      invariant Scan(peaks, above) == PeakScan(ir[..i], threshold)
    {
      assert ir[..i + 1][..i] == ir[..i];
      if ir[i] > threshold && !above {
        above := true;
        peaks := peaks + 1;
      } else if ir[i] < threshold {
        above := false;
      }
      i := i + 1;
    }
  }

  /** maxim_heart_rate_and_oxygen_saturation. n == 0 divides by zero in the
      source and is excluded. */
  method HeartRateAndSpO2(ir: array<U32>, n: I32, red: array<U32>, spo2Of: Features -> int, hrOf: (nat, I32) -> int)
    returns (v: Vitals)
    requires n != 0 && n <= ir.Length && n <= red.Length
    ensures v == Estimate(ir[..], red[..], n, spo2Of, hrOf)
  {
    var irSum, redSum := SumChannels(ir, red, n);
    var irMean := UDiv(irSum, AsU32(n));
    var redMean := UDiv(redSum, AsU32(n));
    if irMean < NO_FINGER_FLOOR {
      return Vitals(INVALID, 0, INVALID, 0);
    }
    PositiveWhenAboveFloor(ir[..], n);
    var irMax, irMin, redMax, redMin := Extremes(ir, red, n);
    var peaks := CountPeaks(ir, n, irMean);
    EstimateAboveFloor(ir[..], red[..], n, spo2Of, hrOf);
    var f := Features(irMean, redMean, irMax - irMin, redMax - redMin, peaks);
    assert ir[..][..n] == ir[..n] && red[..][..n] == red[..n];
    assert f == FeaturesOf(ir[..n], red[..n], irMean, redMean);
    v := Vitals(spo2Of(f), 1, hrOf(peaks, n), 1);
  }

  /** Estimate on the path past the floor check, spelled out on the first
      n samples. */
  lemma EstimateAboveFloor(ir: seq<U32>, red: seq<U32>, n: I32, spo2Of: Features -> int, hrOf: (nat, I32) -> int)
    requires 0 < n <= |ir| && n <= |red| && Mean(ir, n) >= NO_FINGER_FLOOR
    ensures var f := FeaturesOf(ir[..n], red[..n], Mean(ir, n), Mean(red, n));
      Estimate(ir, red, n, spo2Of, hrOf) == Vitals(spo2Of(f), 1, hrOf(f.peaks, n), 1)
  {
    assert Window(ir, n) == ir[..n];
    assert Window(red, n) == red[..n];
  }
}
