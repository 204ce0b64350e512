/**
 * The analysis steps the sampler engine runs on a freshly decoded buffer
 * (SamplerEngine.cpp): mono downmix, silence trimming, peak normalisation,
 * frequency-to-MIDI conversion and loop-point search.
 *
 * In the source these are private members of `AISamplerEngine`; none of them
 * reads or writes a field of the engine, so they are module-level methods
 * here. Each method is proved against a specification function, and the
 * lemmas state what the source promises about those functions.
 */
module SampleAnalysis {
  import opened Numerics
  import PitchDetector

  /** A sample is audible when its magnitude exceeds this (about -60 dB). */
  const SilenceThreshold: real := 0.001
  /** Root note used when no pitch is detected. */
  const DefaultRootNote: int := 60
  /** How far past `length / 4` the loop search looks for a zero crossing. */
  const LoopSearchSpan: int := 1000

  predicate Loud(x: real)
  {
    Abs(x) > SilenceThreshold
  }

  // ---------------------------------------------------------------------------
  // Mono downmix

  function Sum(s: seq<real>): real
  {
    if |s| == 0 then 0.0 else Sum(s[..|s| - 1]) + s[|s| - 1]
  }

  /** The average of one frame (one sample from every channel). */
  function Mean(frame: seq<real>): real
    requires |frame| > 0
  {
    Sum(frame) / |frame| as real
  }

  /** The samples of every channel at index `i`. */
  ghost function Frame(buffer: array2<real>, i: nat): (frame: seq<real>)
    reads buffer
    requires i < buffer.Length1
    ensures |frame| == buffer.Length0
    ensures forall c :: 0 <= c < buffer.Length0 ==> frame[c] == buffer[c, i]
  {
    seq(buffer.Length0, c requires 0 <= c < buffer.Length0 reads buffer => buffer[c, i])
  }

  lemma MeanOfSingleChannel(frame: seq<real>)
    requires |frame| == 1
    ensures Mean(frame) == frame[0]
  {
    assert frame[..0] == [];
    assert Sum(frame) == frame[0];
  }

  /**
   * Stereo-to-mono conversion after decoding: when there is more than one
   * channel, channel 0 receives, at every index, the average of all channels
   * at that index, and the buffer is cut down to that one channel. Channels
   * other than 0 are never written.
   */
  method DownmixToMono(buffer: array2<real>) returns (mono: seq<real>)
    requires buffer.Length0 >= 1
    modifies buffer
    ensures |mono| == buffer.Length1
    ensures forall i :: 0 <= i < |mono| ==> mono[i] == Mean(old(Frame(buffer, i)))
    ensures forall i :: 0 <= i < |mono| ==> buffer[0, i] == mono[i]
    ensures forall c, i :: 1 <= c < buffer.Length0 && 0 <= i < buffer.Length1 ==> buffer[c, i] == old(buffer[c, i])
  {
    var n := buffer.Length1;
    var channels := buffer.Length0;
    if channels > 1 {
      var i := 0;
      while i < n
        invariant 0 <= i <= n
        invariant forall j :: 0 <= j < i ==> buffer[0, j] == Mean(old(Frame(buffer, j)))
        invariant forall c, j :: 0 <= c < channels && 0 <= j < n && (c > 0 || j >= i) ==> buffer[c, j] == old(buffer[c, j])
      {
        ghost var frame := old(Frame(buffer, i));
        var sum := 0.0;
        var ch := 0;
        while ch < channels
          invariant 0 <= ch <= channels
          invariant sum == Sum(frame[..ch])
        {
          assert frame[..ch + 1][..ch] == frame[..ch];
          sum := sum + buffer[ch, i];
          ch := ch + 1;
        }
        assert frame[..channels] == frame;
        buffer[0, i] := sum / channels as real;
        i := i + 1;
      }
    } else {
      forall i | 0 <= i < n
        ensures buffer[0, i] == Mean(old(Frame(buffer, i)))
      {
        MeanOfSingleChannel(old(Frame(buffer, i)));
      }
    }
    mono := seq(n, i requires 0 <= i < n reads buffer => buffer[0, i]);
  }

  // ---------------------------------------------------------------------------
  // Silence trimming

  /** The first index at or after `i` holding a loud sample, or `|s|` if none. */
  function FirstLoud(s: seq<real>, i: nat): (r: nat)
    requires i <= |s|
    ensures i <= r <= |s|
    ensures r < |s| ==> Loud(s[r])
    ensures forall j :: i <= j < r ==> !Loud(s[j])
    decreases |s| - i
  {
    if i == |s| then |s| else if Loud(s[i]) then i else FirstLoud(s, i + 1)
  }

  /** The last index at or before `i` holding a loud sample, or -1 if none. */
  function LastLoud(s: seq<real>, i: int): (r: int)
    requires -1 <= i < |s|
    ensures -1 <= r <= i
    ensures r >= 0 ==> Loud(s[r])
    ensures forall j :: r < j <= i ==> !Loud(s[j])
    decreases i + 1
  {
    if i < 0 then -1 else if Loud(s[i]) then i else LastLoud(s, i - 1)
  }

  /** `startSample` of trimSilence: the first loud index, defaulting to 0. */
  function TrimStart(s: seq<real>): int
  {
    var f := FirstLoud(s, 0);
    if f < |s| then f else 0
  }

  /** `endSample` of trimSilence: the last loud index, defaulting to `|s| - 1`. */
  function TrimEnd(s: seq<real>): int
  {
    var l := LastLoud(s, |s| - 1);
    if l >= 0 then l else |s| - 1
  }

  /** The buffer trimSilence leaves behind. */
  function Trimmed(s: seq<real>): seq<real>
  {
    var a, b := TrimStart(s), TrimEnd(s);
    if b > a then s[a..b + 1] else s
  }

  /** No loud sample of `s` lies outside `[a, b)`. */
  ghost predicate QuietOutside(s: seq<real>, a: int, b: int)
  {
    forall i :: 0 <= i < |s| && !(a <= i < b) ==> !Loud(s[i])
  }

  /**
   * `trimSilence`: scans forward for the first loud sample and backward for
   * the last one and, when the last lies after the first, replaces the buffer
   * by a fresh copy of that span.
   */
  method TrimSilence(buffer: array<real>) returns (trimmed: array<real>)
    ensures trimmed[..] == Trimmed(buffer[..])
    ensures trimmed == buffer || fresh(trimmed)
  {
    var startSample := ScanForward(buffer);
    var endSample := ScanBackward(buffer);
    if endSample > startSample {
      trimmed := CopySpan(buffer, startSample, endSample + 1);
    } else {
      trimmed := buffer;
    }
  }

  /** The forward scan of trimSilence: the first loud index, or 0. */
  method ScanForward(buffer: array<real>) returns (startSample: int)
    ensures startSample == TrimStart(buffer[..])
  {
    ghost var s := buffer[..];
    startSample := 0;
    var i := 0;
    while i < buffer.Length
      invariant 0 <= i <= buffer.Length
      invariant FirstLoud(s, i) == FirstLoud(s, 0)
    {
      if Abs(buffer[i]) > SilenceThreshold {
        startSample := i;
        break;
      }
      i := i + 1;
    }
  }

  /** The backward scan of trimSilence: the last loud index, or `length - 1`. */
  method ScanBackward(buffer: array<real>) returns (endSample: int)
    ensures endSample == TrimEnd(buffer[..])
  {
    ghost var s := buffer[..];
    endSample := buffer.Length - 1;
    var k := buffer.Length - 1;
    while k >= 0
      invariant -1 <= k <= buffer.Length - 1
      invariant LastLoud(s, k) == LastLoud(s, buffer.Length - 1)
    {
      if Abs(buffer[k]) > SilenceThreshold {
        endSample := k;
        break;
      }
      k := k - 1;
    }
  }

  /** A fresh buffer holding `buffer[from..to]`. */
  method CopySpan(buffer: array<real>, from: int, to: int) returns (copy: array<real>)
    requires 0 <= from <= to <= buffer.Length
    ensures fresh(copy)
    ensures copy[..] == buffer[from..to]
  {
    copy := new real[to - from];
    var j := 0;
    while j < to - from
      invariant 0 <= j <= to - from
      invariant forall q :: 0 <= q < j ==> copy[q] == buffer[from + q]
    {
      copy[j] := buffer[from + j];
      j := j + 1;
    }
  }

  /**
   * When at least two samples are loud, trimming keeps exactly the span from
   * the first to the last loud sample: the kept span starts and ends loud, and
   * nothing loud lies outside it.
   */
  lemma TrimmedSpansFirstToLastLoud(s: seq<real>, i: nat, j: nat)
    requires i < j < |s| && Loud(s[i]) && Loud(s[j])
    ensures var a, b := FirstLoud(s, 0), LastLoud(s, |s| - 1);
      && a <= i && j <= b
      && Trimmed(s) == s[a..b + 1]
      && QuietOutside(s, a, b + 1)
    ensures |Trimmed(s)| >= 2 && Loud(Trimmed(s)[0]) && Loud(Trimmed(s)[|Trimmed(s)| - 1])
  {
    var a, b := FirstLoud(s, 0), LastLoud(s, |s| - 1);
    LoudSampleLiesInsideTrim(s, i);
    LoudSampleLiesInsideTrim(s, j);
    QuietOutsideTrim(s);
    var t := s[a..b + 1];
    assert Trimmed(s) == t;
    assert |t| == b - a + 1;
    assert t[0] == s[a];
    assert t[b - a] == s[b];
  }

  lemma LoudSampleLiesInsideTrim(s: seq<real>, i: nat)
    requires i < |s| && Loud(s[i])
    ensures FirstLoud(s, 0) <= i <= LastLoud(s, |s| - 1)
  {
  }

  lemma QuietOutsideTrim(s: seq<real>)
    ensures QuietOutside(s, FirstLoud(s, 0), LastLoud(s, |s| - 1) + 1)
  {
  }

  /** With at most one loud sample the buffer is left exactly as it was. */
  lemma TrimKeepsBufferWithAtMostOneLoudSample(s: seq<real>)
    requires forall i, j :: 0 <= i < j < |s| && Loud(s[i]) ==> !Loud(s[j])
    ensures Trimmed(s) == s
  {
    var a, b := FirstLoud(s, 0), LastLoud(s, |s| - 1);
    if a < |s| && b >= 0 && a != b {
      assert false;
    }
  }

  /** Trimming an already trimmed buffer gives the same buffer back. */
  lemma TrimIsIdempotent(s: seq<real>)
    ensures Trimmed(Trimmed(s)) == Trimmed(s)
  {
    var a, b := FirstLoud(s, 0), LastLoud(s, |s| - 1);
    if a < |s| && b >= 0 && a < b {
      TrimmedSpansFirstToLastLoud(s, a, b);
      var t := Trimmed(s);
      assert FirstLoud(t, 0) == 0;
      assert LastLoud(t, |t| - 1) == |t| - 1;
      assert t[0..|t|] == t;
    } else {
      TrimKeepsBufferWithAtMostOneLoudSample(s);
    }
  }

  // ---------------------------------------------------------------------------
  // Normalisation

  /** The magnitude of every sample. */
  function Magnitudes(s: seq<real>): (r: seq<real>)
    ensures |r| == |s|
    ensures forall i :: 0 <= i < |s| ==> r[i] == Abs(s[i])
  {
    seq(|s|, i requires 0 <= i < |s| => Abs(s[i]))
  }

  /**
   * The running maximum of `m[..k]`, starting from 0 and replaced only by a
   * strictly larger value, as in the peak loop of normalize.
   */
  function Largest(m: seq<real>, k: nat): real
    requires k <= |m|
  {
    if k == 0 then 0.0
    else
      var p := Largest(m, k - 1);
      if m[k - 1] > p then m[k - 1] else p
  }

  function LargestOf(m: seq<real>): real
  {
    Largest(m, |m|)
  }

  /** The largest magnitude in `s`, or 0 for an empty or silent buffer. */
  function Peak(s: seq<real>): real
  {
    LargestOf(Magnitudes(s))
  }

  /** `t` is `s` with every sample multiplied by `gain`. */
  ghost predicate ScaledBy(t: seq<real>, s: seq<real>, gain: real)
  {
    |t| == |s| && forall i :: 0 <= i < |s| ==> t[i] == s[i] * gain
  }

  /** Every sample of `s` multiplied by `gain`. */
  function Scale(s: seq<real>, gain: real): (r: seq<real>)
    ensures ScaledBy(r, s, gain)
  {
    seq(|s|, i requires 0 <= i < |s| => s[i] * gain)
  }

  /** The buffer normalize leaves behind, for a target peak of `targetLinear`. */
  function Normalized(s: seq<real>, targetLinear: real): seq<real>
  {
    var peak := Peak(s);
    if peak > 0.0 then Scale(s, targetLinear / peak) else s
  }

  /** `AudioBuffer::applyGain`: multiplies every sample, in place, by `gain`. */
  method ApplyGain(buffer: array<real>, gain: real)
    modifies buffer
    ensures buffer[..] == Scale(old(buffer[..]), gain)
  {
    var i := 0;
    while i < buffer.Length
      invariant 0 <= i <= buffer.Length
      invariant forall j :: 0 <= j < i ==> buffer[j] == old(buffer[j]) * gain
      invariant forall j :: i <= j < buffer.Length ==> buffer[j] == old(buffer[j])
    {
      buffer[i] := buffer[i] * gain;
      i := i + 1;
    }
    assert forall j :: 0 <= j < buffer.Length ==> buffer[..][j] == Scale(old(buffer[..]), gain)[j];
  }

  /**
   * `normalize`: finds the peak magnitude and, when it is positive, applies
   * the gain `decibelsToGain(targetDb) / peak` to the whole buffer.
   */
  method Normalize(buffer: array<real>, targetDb: real, m: MathLib)
    modifies buffer
    ensures buffer[..] == Normalized(old(buffer[..]), DecibelsToGain(m, targetDb))
  {
    ghost var magnitudes := Magnitudes(buffer[..]);
    var peak := 0.0;
    var i := 0;
    while i < buffer.Length
      invariant 0 <= i <= buffer.Length
      invariant peak == Largest(magnitudes, i)
    {
      var sample := Abs(buffer[i]);
      if sample > peak {
        peak := sample;
      }
      i := i + 1;
    }
    if peak > 0.0 {
      var targetLinear := DecibelsToGain(m, targetDb);
      var gain := targetLinear / peak;
      ApplyGain(buffer, gain);
    }
  }

  /**
   * The running maximum bounds every value it has seen and, unless it is
   * still 0, equals one of them.
   */
  lemma {:induction false} LargestIsMaximum(m: seq<real>, k: nat)
    requires k <= |m|
    ensures Largest(m, k) >= 0.0
    ensures forall i :: 0 <= i < k ==> m[i] <= Largest(m, k)
    ensures Largest(m, k) == 0.0 || exists i :: 0 <= i < k && m[i] == Largest(m, k)
  {
    if k > 0 {
      LargestIsMaximum(m, k - 1);
    }
  }

  /**
   * The peak bounds the magnitude of every sample and, unless it is zero, is
   * the magnitude of some sample.
   */
  lemma PeakIsLargestMagnitude(s: seq<real>)
    ensures Peak(s) >= 0.0
    ensures forall i :: 0 <= i < |s| ==> Abs(s[i]) <= Peak(s)
    ensures Peak(s) == 0.0 || exists i :: 0 <= i < |s| && Abs(s[i]) == Peak(s)
  {
    var m := Magnitudes(s);
    LargestIsMaximum(m, |m|);
    if Peak(s) != 0.0 {
      var i :| 0 <= i < |m| && m[i] == Largest(m, |m|);
      assert Abs(s[i]) == Peak(s);
    }
  }

  /** Scaling by a non-negative gain scales the running maximum by that gain. */
  lemma {:induction false} LargestOfScaled(m: seq<real>, t: seq<real>, gain: real, k: nat)
    requires gain >= 0.0 && k <= |m| && ScaledBy(t, m, gain)
    ensures Largest(t, k) == Largest(m, k) * gain
  {
    if k > 0 {
      assert t[k - 1] == m[k - 1] * gain;
      LargestOfScaled(m, t, gain, k - 1);
      MaxOfScaled(t[k - 1], Largest(t, k - 1), m[k - 1], Largest(m, k - 1), gain);
    }
  }

  lemma MaxOfScaled(at: real, bt: real, a: real, b: real, gain: real)
    requires gain >= 0.0 && at == a * gain && bt == b * gain
    ensures (if at > bt then at else bt) == (if a > b then a else b) * gain
  {
    if gain > 0.0 {
      assert a > b <==> a * gain > b * gain;
    }
  }

  lemma LargestOfAllScaled(m: seq<real>, t: seq<real>, gain: real)
    requires gain >= 0.0 && ScaledBy(t, m, gain)
    ensures LargestOf(t) == LargestOf(m) * gain
  {
    LargestOfScaled(m, t, gain, |m|);
  }

  lemma AbsOfScaled(y: real, x: real, gain: real)
    requires gain >= 0.0 && y == x * gain
    ensures Abs(y) == Abs(x) * gain
  {
  }

  lemma MagnitudesOfScaled(s: seq<real>, t: seq<real>, gain: real)
    requires gain >= 0.0 && ScaledBy(t, s, gain)
    ensures ScaledBy(Magnitudes(t), Magnitudes(s), gain)
  {
    forall i | 0 <= i < |s|
      ensures Magnitudes(t)[i] == Magnitudes(s)[i] * gain
    {
      AbsOfScaled(t[i], s[i], gain);
    }
  }

  /** Scaling a buffer by a non-negative gain scales its peak by that gain. */
  lemma PeakOfScaled(s: seq<real>, t: seq<real>, gain: real)
    requires gain >= 0.0 && ScaledBy(t, s, gain)
    ensures Peak(t) == Peak(s) * gain
  {
    MagnitudesOfScaled(s, t, gain);
    LargestOfAllScaled(Magnitudes(s), Magnitudes(t), gain);
  }

  lemma QuotientTimesDivisor(t: real, p: real, gain: real)
    requires p > 0.0 && gain == t / p
    ensures p * gain == t
  {
  }

  lemma ScaledTimesDivisor(y: real, x: real, t: real, p: real, gain: real)
    requires p > 0.0 && gain == t / p && y == x * gain
    ensures y * p == x * t
  {
    QuotientTimesDivisor(t, p, gain);
    assert y * p == x * (p * gain);
  }

  /**
   * After normalisation to a non-negative target the peak is exactly the
   * target, every sample having been multiplied by the same factor
   * `target / peak`; a silent buffer (peak 0) is left untouched.
   */
  lemma NormalizeReachesTarget(s: seq<real>, targetLinear: real)
    requires targetLinear >= 0.0
    ensures |Normalized(s, targetLinear)| == |s|
    ensures Peak(s) == 0.0 ==> Normalized(s, targetLinear) == s
    ensures Peak(s) > 0.0 ==> Peak(Normalized(s, targetLinear)) == targetLinear
    ensures Peak(s) > 0.0 ==> forall i :: 0 <= i < |s| ==> Normalized(s, targetLinear)[i] * Peak(s) == s[i] * targetLinear
  {
    var p := Peak(s);
    if p > 0.0 {
      var gain := targetLinear / p;
      var r := Scale(s, gain);
      assert Normalized(s, targetLinear) == r;
      PeakOfScaled(s, r, gain);
      QuotientTimesDivisor(targetLinear, p, gain);
      forall i | 0 <= i < |s|
        ensures r[i] * p == s[i] * targetLinear
      {
        ScaledTimesDivisor(r[i], s[i], targetLinear, p, gain);
      }
    }
  }

  // ---------------------------------------------------------------------------
  // Frequency to MIDI note

  /**
   * The root note for a detected frequency: `69 + (int)(12 * log2(f / 440))`,
   * truncated toward zero (not rounded) and clamped to [0, 127]; 60 when the
   * detector found no pitch.
   */
  function MidiNoteForFrequency(frequency: real, m: MathLib): (note: int)
    ensures 0 <= note <= 127
    ensures frequency <= 0.0 ==> note == DefaultRootNote
  {
    if frequency > 0.0 then Clamp(0, 127, 69 + Trunc(12.0 * Log2(m, frequency / 440.0)))
    else DefaultRootNote
  }

  /**
   * The unclamped note moves from 69 toward the exact semitone distance and
   * stops at the last whole semitone before it: a frequency a fraction of a
   * semitone below A4 still yields 69.
   */
  lemma MidiNoteTruncatesTowardA4(frequency: real, m: MathLib)
    requires frequency > 0.0
    ensures var x := 12.0 * Log2(m, frequency / 440.0);
      var offset := Trunc(x);
      && MidiNoteForFrequency(frequency, m) == Clamp(0, 127, 69 + offset)
      && (x >= 0.0 ==> 0 <= offset && offset as real <= x < offset as real + 1.0)
      && (x < 0.0 ==> offset <= 0 && offset as real - 1.0 < x <= offset as real)
  {
  }

  /** A4 (440 Hz) maps to note 69 and A5 (880 Hz) to note 81. */
  lemma ConcertPitchNotes(m: MathLib)
    requires Lawful(m)
    ensures MidiNoteForFrequency(440.0, m) == 69
    ensures MidiNoteForFrequency(880.0, m) == 81
  {
    assert 880.0 / 440.0 == 2.0;
  }

  lemma TruncIsMonotone(x: real, y: real)
    requires x <= y
    ensures Trunc(x) <= Trunc(y)
  {
    if x < 0.0 && y >= 0.0 {
    } else if x >= 0.0 {
      assert x.Floor <= y.Floor;
    } else {
      assert (-y).Floor <= (-x).Floor;
    }
  }

  /** A higher frequency never yields a lower root note, given a monotone `log2`. */
  lemma MidiNoteIsMonotone(f1: real, f2: real, m: MathLib)
    requires 0.0 < f1 <= f2
    requires Log2(m, f1 / 440.0) <= Log2(m, f2 / 440.0)
    ensures MidiNoteForFrequency(f1, m) <= MidiNoteForFrequency(f2, m)
  {
    TruncIsMonotone(12.0 * Log2(m, f1 / 440.0), 12.0 * Log2(m, f2 / 440.0));
  }

  /**
   * The engine's `detectPitch`: runs the autocorrelation detector and maps
   * its frequency to a MIDI note.
   */
  method DetectPitch(buffer: array<real>, sampleRate: real, m: MathLib) returns (note: int)
    ensures note == MidiNoteForFrequency(PitchDetector.DetectedFrequency(buffer[..], sampleRate, m), m)
    ensures 0 <= note <= 127
  {
    var frequency := PitchDetector.DetectPitch(buffer, sampleRate, m);
    note := MidiNoteForFrequency(frequency, m);
  }

  // ---------------------------------------------------------------------------
  // Loop points

  predicate ZeroCrossingAt(s: seq<real>, i: int)
    requires 0 <= i < |s| - 1
  {
    s[i] * s[i + 1] <= 0.0
  }

  /** Exclusive end of the zero-crossing search window for a buffer of `length` samples. */
  function SearchEnd(length: int): int
  {
    if length / 4 + LoopSearchSpan < length - 1 then length / 4 + LoopSearchSpan else length - 1
  }

  /** The first zero crossing in `[i, hi)`, or -1 when there is none. */
  function FirstCrossing(s: seq<real>, i: nat, hi: int): (r: int)
    requires hi <= |s| - 1
    ensures r == -1 || (i <= r < hi && ZeroCrossingAt(s, r))
    ensures forall j :: i <= j < hi && (r == -1 || j < r) ==> !ZeroCrossingAt(s, j)
    decreases hi - i
  {
    if i >= hi then -1
    else if ZeroCrossingAt(s, i) then i
    else FirstCrossing(s, i + 1, hi)
  }

  /** The loop start findLoopPoints settles on. */
  function LoopStartFor(s: seq<real>): int
  {
    var c := FirstCrossing(s, |s| / 4, SearchEnd(|s|));
    if c == -1 then |s| / 4 else c
  }

  /**
   * `findLoopPoints`: the loop end is the buffer end; the loop start is
   * `length / 4`, moved forward to the first zero crossing within the next
   * 1000 samples when there is one.
   */
  method FindLoopPoints(buffer: array<real>) returns (loopStart: int, loopEnd: int)
    ensures loopEnd == buffer.Length
    ensures loopStart == LoopStartFor(buffer[..])
  {
    ghost var s := buffer[..];
    var totalLength := buffer.Length;
    loopStart := totalLength / 4;
    loopEnd := totalLength;
    var i := loopStart;
    while i < loopStart + LoopSearchSpan && i < totalLength - 1
      invariant loopStart == totalLength / 4 <= i
      invariant i <= SearchEnd(totalLength) || i == totalLength / 4
      invariant FirstCrossing(s, i, SearchEnd(totalLength)) == FirstCrossing(s, totalLength / 4, SearchEnd(totalLength))
    {
      if buffer[i] * buffer[i + 1] <= 0.0 {
        loopStart := i;
        break;
      }
      i := i + 1;
    }
  }

  /**
   * The loop start is `length / 4` or the first zero crossing in
   * `[length / 4, min(length / 4 + 1000, length - 1))`, with no crossing
   * before it in that window; hence `0 <= loopStart <= length`, and strictly
   * below `length` for a non-empty buffer.
   */
  lemma LoopStartIsFirstCrossing(s: seq<real>)
    ensures var ls := LoopStartFor(s);
      && 0 <= |s| / 4 <= ls <= |s|
      && (|s| > 0 ==> ls < |s|)
      && (ls == |s| / 4 || (ls < SearchEnd(|s|) && ZeroCrossingAt(s, ls)))
      && (forall j :: |s| / 4 <= j < SearchEnd(|s|) && j < ls ==> !ZeroCrossingAt(s, j))
      && (ls == |s| / 4 && |s| / 4 < SearchEnd(|s|) ==> ZeroCrossingAt(s, ls) || forall j :: |s| / 4 <= j < SearchEnd(|s|) ==> !ZeroCrossingAt(s, j))
  {
  }
}
