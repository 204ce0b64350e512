/**
 * Autocorrelation pitch detector (PitchDetector.cpp).
 *
 * The detector looks at the first at most 8192 samples of a mono buffer,
 * computes the normalised autocorrelation for every lag in
 * [MinPeriod, MaxPeriod) that is also below half the analysed length, keeps
 * the first lag with the largest correlation and turns it into a frequency.
 * Zero means "no confident pitch".
 */
module PitchDetector {
  import opened Numerics

  const MinPeriod: int := 20
  const MaxPeriod: int := 2000
  /** Upper bound on the number of samples analysed (about 185 ms at 44.1 kHz). */
  const AnalysisLimit: int := 8192
  /** Smallest best correlation accepted as a pitch. */
  const ConfidenceThreshold: real := 0.3

  /** Sum of `s[i] * s[i + lag]` for `i` in `[0, k)`. */
  function Dot(s: seq<real>, lag: nat, k: nat): real
    requires k == 0 || k + lag <= |s|
  {
    if k == 0 then 0.0 else Dot(s, lag, k - 1) + s[k - 1] * s[k - 1 + lag]
  }

  /** Sum of `s[from + i]^2` for `i` in `[0, k)`: the energy of a stretch of `s`. */
  function Energy(s: seq<real>, from: nat, k: nat): (e: real)
    requires k == 0 || from + k <= |s|
    ensures e >= 0.0
  {
    if k == 0 then 0.0 else Energy(s, from, k - 1) + s[from + k - 1] * s[from + k - 1]
  }

  /** Number of products summed for `lag` over a window of `length` samples. */
  function Overlap(length: nat, lag: nat): nat
  {
    if lag < length then length - lag else 0
  }

  /**
   * Normalised autocorrelation of `w` at `lag`; zero when the normalisation
   * term is not positive.
   */
  function Correlation(w: seq<real>, lag: nat, m: MathLib): real
  {
    var n := Overlap(|w|, lag);
    NormalizedSum(Dot(w, lag, n), Energy(w, 0, n), Energy(w, lag, n), m)
  }

  /** `sum / sqrt(norm1 * norm2)`, or zero when that square root is not positive. */
  function NormalizedSum(sum: real, norm1: real, norm2: real, m: MathLib): real
  {
    var normalization := Sqrt(m, norm1 * norm2);
    if normalization > 0.0 then sum / normalization else 0.0
  }

  /** Exclusive upper bound of the lags tried on a window of `length` samples. */
  function LagBound(length: nat): int
  {
    if MaxPeriod < length / 2 then MaxPeriod else length / 2
  }

  /**
   * The running-maximum search from `lag` (inclusive) to `hi` (exclusive),
   * starting from the best lag and correlation found so far. A later lag
   * replaces the best one only when its correlation is strictly larger.
   */
  function Search(w: seq<real>, lag: nat, hi: int, bestLag: int, maxCorrelation: real, m: MathLib): (int, real)
    decreases hi - lag
  {
    if lag >= hi then (bestLag, maxCorrelation)
    else
      var c := Correlation(w, lag, m);
      if c > maxCorrelation then Search(w, lag + 1, hi, lag, c, m)
      else Search(w, lag + 1, hi, bestLag, maxCorrelation, m)
  }

  /** The best lag and its correlation over a whole analysis window. */
  function BestLag(w: seq<real>, m: MathLib): (int, real)
  {
    Search(w, MinPeriod, LagBound(|w|), 0, -1.0, m)
  }

  /** The analysed prefix of a buffer. */
  function Window(s: seq<real>): seq<real>
  {
    if |s| < AnalysisLimit then s else s[..AnalysisLimit]
  }

  /** The frequency the detector reports for buffer `s` sampled at `sampleRate`. */
  function DetectedFrequency(s: seq<real>, sampleRate: real, m: MathLib): real
  {
    if |s| < MaxPeriod * 2 then 0.0
    else
      var (bestLag, maxCorrelation) := BestLag(Window(s), m);
      if maxCorrelation < ConfidenceThreshold || bestLag == 0 then 0.0
      else sampleRate / bestLag as real
  }

  /**
   * `autocorrelate(data, length, lag)`: accumulates the cross product and the
   * two energies over `[0, length - lag)`, reading only indices below `length`.
   */
  method Autocorrelate(data: array<real>, length: nat, lag: nat, m: MathLib) returns (r: real)
    requires length <= data.Length
    ensures r == Correlation(data[..length], lag, m)
  {
    ghost var w := data[..length];
    var sum, norm1, norm2 := 0.0, 0.0, 0.0;
    var i := 0;
    while i < length - lag
      invariant 0 <= i <= Overlap(length, lag)
      invariant sum == Dot(w, lag, i)
      invariant norm1 == Energy(w, 0, i)
      invariant norm2 == Energy(w, lag, i)
    {
      var x, y := data[i], data[i + lag];
      DotStep(w, lag, i, x, y);
      EnergyStep(w, 0, i, x);
      EnergyStep(w, lag, i, y);
      sum := sum + x * y;
      norm1 := norm1 + x * x;
      norm2 := norm2 + y * y;
      i := i + 1;
    }
    assert i == Overlap(|w|, lag);
    assert sum == Dot(w, lag, Overlap(|w|, lag));
    assert norm1 == Energy(w, 0, Overlap(|w|, lag));
    assert norm2 == Energy(w, lag, Overlap(|w|, lag));
    // Normalisation: sum / sqrt(norm1 * norm2), or zero.
    r := NormalizedSum(sum, norm1, norm2, m);
  }

  /** One more term of the cross product summed by `Autocorrelate`. */
  lemma DotStep(w: seq<real>, lag: nat, i: nat, x: real, y: real)
    requires i + lag < |w| && x == w[i] && y == w[i + lag]
    ensures Dot(w, lag, i + 1) == Dot(w, lag, i) + x * y
  {
  }

  /** One more term of an energy summed by `Autocorrelate`. */
  lemma EnergyStep(w: seq<real>, from: nat, i: nat, x: real)
    requires from + i < |w| && x == w[from + i]
    ensures Energy(w, from, i + 1) == Energy(w, from, i) + x * x
  {
  }

  /** `PitchDetector::detectPitch`: the detected fundamental in Hz, or zero. */
  method DetectPitch(data: array<real>, sampleRate: real, m: MathLib) returns (frequency: real)
    ensures frequency == DetectedFrequency(data[..], sampleRate, m)
  {
    if data.Length < MaxPeriod * 2 {
      return 0.0;
    }
    var length := if data.Length < AnalysisLimit then data.Length else AnalysisLimit;
    assert Window(data[..]) == data[..length];
    var bestLag, maxCorrelation := FindBestLag(data, length, m);
    if maxCorrelation < ConfidenceThreshold || bestLag == 0 {
      return 0.0;
    }
    frequency := sampleRate / bestLag as real;
  }

  /** The lag loop of `detectPitch`: the running maximum over the candidate lags. */
  method FindBestLag(data: array<real>, length: nat, m: MathLib) returns (bestLag: int, maxCorrelation: real)
    requires length <= data.Length
    ensures (bestLag, maxCorrelation) == BestLag(data[..length], m)
  {
    ghost var w := data[..length];
    maxCorrelation := -1.0;
    bestLag := 0;
    var lag := MinPeriod;
    while lag < MaxPeriod && lag < length / 2
      invariant MinPeriod <= lag
      invariant lag <= LagBound(length) || lag == MinPeriod
      invariant Search(w, lag, LagBound(length), bestLag, maxCorrelation, m) == BestLag(w, m)
    {
      var correlation := Autocorrelate(data, length, lag, m);
      if correlation > maxCorrelation {
        maxCorrelation := correlation;
        bestLag := lag;
      }
      lag := lag + 1;
    }
  }

  /**
   * The search returns either its starting state, when no lag in `[lag, hi)`
   * beats it, or the FIRST lag in that range whose correlation is the
   * maximum; in both cases no lag in the range exceeds the returned value.
   */
  lemma {:induction false} SearchFindsFirstMaximum(w: seq<real>, lag: nat, hi: int, bestLag: int, maxCorrelation: real, m: MathLib)
    ensures var (b, c) := Search(w, lag, hi, bestLag, maxCorrelation, m);
      && c >= maxCorrelation
      && (forall l: nat :: lag <= l < hi ==> Correlation(w, l, m) <= c)
      && ((b == bestLag && c == maxCorrelation)
          || (lag <= b < hi && b >= 0 && Correlation(w, b, m) == c && c > maxCorrelation
              && forall l: nat :: lag <= l < b ==> Correlation(w, l, m) < c))
    decreases hi - lag
  {
    if lag < hi {
      var c := Correlation(w, lag, m);
      if c > maxCorrelation {
        SearchFindsFirstMaximum(w, lag + 1, hi, lag, c, m);
      } else {
        SearchFindsFirstMaximum(w, lag + 1, hi, bestLag, maxCorrelation, m);
      }
    }
  }

  /**
   * Over a whole window: a non-zero best lag lies in `[MinPeriod, MaxPeriod)`
   * and below half the window, attains the maximum correlation, and every
   * earlier candidate lag has a strictly smaller correlation (ties keep the
   * earlier lag). A zero best lag means no candidate rose above -1.
   */
  lemma BestLagIsFirstMaximum(w: seq<real>, m: MathLib)
    ensures var (b, c) := BestLag(w, m);
      && (forall l: nat :: MinPeriod <= l < LagBound(|w|) ==> Correlation(w, l, m) <= c)
      && (b == 0 ==> c == -1.0)
      && (b != 0 ==>
            && MinPeriod <= b < MaxPeriod && b < |w| / 2
            && Correlation(w, b, m) == c
            && forall l: nat :: MinPeriod <= l < b ==> Correlation(w, l, m) < c)
  {
    SearchFindsFirstMaximum(w, MinPeriod, LagBound(|w|), 0, -1.0, m);
  }

  /**
   * What the detector reports: zero for buffers shorter than twice the
   * maximum period, otherwise either zero or `sampleRate / lag` for a lag in
   * the candidate range whose correlation reaches the confidence threshold;
   * conversely, a long enough buffer whose best lag is non-zero and reaches
   * the threshold reports `sampleRate / lag`.
   */
  lemma DetectedFrequencyIsZeroOrLagFrequency(s: seq<real>, sampleRate: real, m: MathLib)
    ensures |s| < 2 * MaxPeriod ==> DetectedFrequency(s, sampleRate, m) == 0.0
    ensures var (b, c) := BestLag(Window(s), m);
      DetectedFrequency(s, sampleRate, m) == 0.0
      || (&& MinPeriod <= b < MaxPeriod
          && b < |Window(s)| / 2
          && |Window(s)| <= AnalysisLimit
          && c >= ConfidenceThreshold
          && Correlation(Window(s), b, m) == c
          && DetectedFrequency(s, sampleRate, m) == sampleRate / b as real)
    ensures var (b, c) := BestLag(Window(s), m);
      |s| >= 2 * MaxPeriod && c >= ConfidenceThreshold && b != 0 ==>
        DetectedFrequency(s, sampleRate, m) == sampleRate / b as real
  {
    BestLagIsFirstMaximum(Window(s), m);
  }

  /**
   * When the product of the two energies is not positive — which, energies
   * being sums of squares, means one side of the overlap is silent — the
   * correlation is zero.
   */
  lemma SilentOverlapHasZeroCorrelation(w: seq<real>, lag: nat, m: MathLib)
    requires Lawful(m)
    requires Energy(w, 0, Overlap(|w|, lag)) * Energy(w, lag, Overlap(|w|, lag)) <= 0.0
    ensures Correlation(w, lag, m) == 0.0
  {
    var n := Overlap(|w|, lag);
    ProductOfEnergies(Energy(w, 0, n), Energy(w, lag, n));
  }

  lemma ProductOfEnergies(x: real, y: real)
    requires x >= 0.0 && y >= 0.0 && x * y <= 0.0
    ensures x * y == 0.0
  {
  }

  /**
   * Only the first 8192 samples are analysed: appending samples to a buffer
   * that already fills the analysis window leaves the detected frequency
   * unchanged.
   */
  lemma DetectionIgnoresSamplesPastWindow(s: seq<real>, tail: seq<real>, sampleRate: real, m: MathLib)
    requires |s| >= AnalysisLimit
    ensures DetectedFrequency(s + tail, sampleRate, m) == DetectedFrequency(s, sampleRate, m)
  {
    assert Window(s + tail) == Window(s);
  }
}
