/**
 * The sampler engine (`AISamplerEngine`): a synthesiser with a fixed bank of
 * voices that turns a decoded or generated buffer into the one sound they
 * play. Loading runs the analysis chain in order — trim the silence,
 * normalise to -0.5 dB, detect the root note, pick the loop points — and
 * installs a fresh sound built from the result.
 */
module Engine {
  import opened Numerics
  import opened SampleAnalysis
  import opened Sound
  import opened Voice
  import PitchDetector

  /** The number of voices the engine adds when it is built. */
  const MaxVoices: nat := 16

  /** The peak level, in decibels, that loading normalises to. */
  const DefaultNormalizeDb: real := -0.5

  /** The sample rate assumed for a buffer handed over without one. */
  const AssumedSampleRate: real := 44100.0

  /**
   * The summary of the last load: root note, length in samples, sample rate
   * and loop bounds (the text the engine formats from them is not modelled).
   */
  datatype SampleInfo =
    | NoInfo
    | Info(rootNote: int, numSamples: nat, sampleRate: real, loopStart: int, loopEnd: int)

  /** The samples a loaded sound holds: the input trimmed, then normalised. */
  function Analysed(s: seq<real>, m: MathLib): seq<real>
  {
    Normalized(Trimmed(s), DecibelsToGain(m, DefaultNormalizeDb))
  }

  /** What a voice reads from a loaded sound holding `d`. */
  function LoadedSource(d: seq<real>): Source
  {
    Source(d, LoopStartFor(d), |d|)
  }

  class SamplerEngine {
    /** The numeric library every analysis step uses. */
    const math: MathLib
    /** The voices, added once when the engine is built. */
    const voices: seq<SamplerVoice>
    var sampleLoaded: bool
    var sampleInfo: SampleInfo
    /** The synthesiser's sound list, which holds at most one sound. */
    var sound: SamplerSound?

    /**
     * A sample is loaded exactly when the sound list holds a sound, and the
     * recorded summary describes that sound: its root note, length, sample
     * rate and loop bounds.
     */
    ghost predicate Valid()
      reads this, sound
    {
      && (sampleLoaded <==> sound != null)
      && (sound == null ==> sampleInfo == NoInfo)
      && (sound != null ==>
            sampleInfo == Info(sound.rootNote, |sound.audioData|, sound.sourceSampleRate, sound.loopStart, sound.loopEnd))
    }

    /** Builds `MaxVoices` fresh, idle voices and no sound. */
    constructor (m: MathLib)
      ensures math == m
      ensures |voices| == MaxVoices
      ensures forall i :: 0 <= i < |voices| ==> fresh(voices[i]) && fresh(voices[i].adsr)
      ensures forall i, j :: 0 <= i < j < |voices| ==> voices[i] != voices[j]
      ensures forall i :: 0 <= i < |voices| ==> voices[i].current == null && voices[i].adsr.Valid()
      ensures !sampleLoaded && sampleInfo == NoInfo && sound == null
      ensures Valid()
    {
      math := m;
      var bank: seq<SamplerVoice> := [];
      var i := 0;
      while i < MaxVoices
        invariant 0 <= i <= MaxVoices && |bank| == i
        invariant forall k :: 0 <= k < i ==> fresh(bank[k]) && fresh(bank[k].adsr)
        invariant forall k, j :: 0 <= k < j < i ==> bank[k] != bank[j]
        invariant forall k :: 0 <= k < i ==> bank[k].current == null && bank[k].adsr.Valid()
      {
        var v := new SamplerVoice();
        bank := bank + [v];
        i := i + 1;
      }
      voices := bank;
      sampleLoaded := false;
      sampleInfo := NoInfo;
      sound := null;
    }

    /** `hasSampleLoaded`: whether a load has installed a sound. */
    function HasSampleLoaded(): (loaded: bool)
      requires Valid()
      reads this, sound
      ensures loaded <==> sound != null
    {
      sampleLoaded
    }

    /** `getLoadedSampleInfo`: the summary of the installed sound, if any. */
    function LoadedSampleInfo(): (info: SampleInfo)
      requires Valid()
      reads this, sound
      ensures info.NoInfo? <==> sound == null
      ensures sound != null ==>
        && info.rootNote == sound.rootNote && info.numSamples == sound.Length()
        && info.sampleRate == sound.sourceSampleRate
        && info.loopStart == sound.loopStart && info.loopEnd == sound.loopEnd
    {
      sampleInfo
    }

    /**
     * `processLoadedBuffer`: trims and normalises the buffer, detects its root
     * note and loop points, replaces the sound list by a new sound holding the
     * result with those loop points, and records the load. Returns the
     * processed buffer, which is `buffer` itself unless trimming replaced it.
     */
    method ProcessLoadedBuffer(buffer: array<real>, sampleRate: real) returns (processed: array<real>)
      modifies this`sound, this`sampleLoaded, this`sampleInfo, buffer
      ensures processed == buffer || fresh(processed)
      ensures processed[..] == Analysed(old(buffer[..]), math)
      ensures sound != null && fresh(sound) && LoadedFrom(sound, processed[..], sampleRate, math)
      ensures sampleLoaded
      ensures sampleInfo == Info(sound.rootNote, |sound.audioData|, sampleRate, sound.loopStart, sound.loopEnd)
      ensures Valid()
    {
      var rootNote, loopStart, loopEnd;
      processed, rootNote, loopStart, loopEnd := AnalyseBuffer(buffer, sampleRate, math);
      ghost var d := processed[..];
      var loaded := new SamplerSound("Generated", processed, rootNote, sampleRate);
      loaded.SetLoopPoints(loopStart, loopEnd);
      assert LoadedFrom(loaded, d, sampleRate, math);
      sound := loaded;
      sampleLoaded := true;
      sampleInfo := Info(rootNote, processed.Length, sampleRate, loopStart, loopEnd);
    }

    /**
     * `loadSampleFromBuffer`: processes the buffer as if recorded at 44.1 kHz.
     * The root note passed in is not used; the detected one is.
     */
    method LoadSampleFromBuffer(buffer: array<real>, rootNote: int) returns (processed: array<real>)
      modifies this`sound, this`sampleLoaded, this`sampleInfo, buffer
      ensures processed == buffer || fresh(processed)
      ensures processed[..] == Analysed(old(buffer[..]), math)
      ensures sound != null && fresh(sound) && LoadedFrom(sound, processed[..], AssumedSampleRate, math)
      ensures sampleLoaded
      ensures sampleInfo == Info(sound.rootNote, |sound.audioData|, AssumedSampleRate, sound.loopStart, sound.loopEnd)
      ensures Valid()
    {
      processed := ProcessLoadedBuffer(buffer, AssumedSampleRate);
    }

    /**
     * The part of `loadSampleFromFile` after decoding: averages the channels
     * into channel 0 when there are several, and processes that channel at
     * the file's sample rate.
     */
    method LoadDecodedBuffer(decoded: array2<real>, sampleRate: real) returns (processed: array<real>)
      requires decoded.Length0 >= 1
      modifies this`sound, this`sampleLoaded, this`sampleInfo, decoded
      ensures fresh(processed)
      ensures processed[..] == Analysed(old(MonoOf(decoded)), math)
      ensures sound != null && fresh(sound) && LoadedFrom(sound, processed[..], sampleRate, math)
      ensures sampleLoaded
      ensures sampleInfo == Info(sound.rootNote, |sound.audioData|, sampleRate, sound.loopStart, sound.loopEnd)
      ensures Valid()
    {
      ghost var average := MonoOf(decoded);
      var mono := DownmixToMono(decoded);
      assert forall i :: 0 <= i < |mono| ==> mono[i] == average[i];
      assert mono == average;
      var channel := new real[|mono|](i requires 0 <= i < |mono| => mono[i]);
      assert channel[..] == mono;
      processed := ProcessLoadedBuffer(channel, sampleRate);
    }
  }

  /**
   * Steps 1 to 4 of `processLoadedBuffer`: trim, normalise to -0.5 dB, detect
   * the root note and find the loop points of the result.
   */
  method AnalyseBuffer(buffer: array<real>, sampleRate: real, m: MathLib)
    returns (processed: array<real>, rootNote: int, loopStart: int, loopEnd: int)
    modifies buffer
    ensures processed == buffer || fresh(processed)
    ensures processed[..] == Analysed(old(buffer[..]), m)
    ensures rootNote == MidiNoteForFrequency(PitchDetector.DetectedFrequency(processed[..], sampleRate, m), m)
    ensures loopStart == LoopStartFor(processed[..]) && loopEnd == processed.Length
  {
    processed := TrimSilence(buffer);
    Normalize(processed, DefaultNormalizeDb, m);
    rootNote := DetectPitch(processed, sampleRate, m);
    loopStart, loopEnd := FindLoopPoints(processed);
  }

  /**
   * `s` is the sound loading installs for the processed samples `d`: holding
   * `d`, rooted at the note detected in `d`, recorded at
   * `sampleRate`, and looping from the loop start found in `d` to its end.
   */
  predicate LoadedFrom(s: SamplerSound, d: seq<real>, sampleRate: real, m: MathLib)
    reads s
  {
    && s.audioData == d
    && s.rootNote == MidiNoteForFrequency(PitchDetector.DetectedFrequency(d, sampleRate, m), m)
    && s.sourceSampleRate == sampleRate
    && SourceOf(s) == LoadedSource(d)
  }

  /** The mono signal a decoded buffer downmixes to: the per-index channel average. */
  ghost function MonoOf(decoded: array2<real>): (mono: seq<real>)
    requires decoded.Length0 >= 1
    reads decoded
    ensures |mono| == decoded.Length1
  {
    seq(decoded.Length1, i requires 0 <= i < decoded.Length1 reads decoded => Mean(Frame(decoded, i)))
  }

  // ---------------------------------------------------------------------------
  // Properties of a loaded sound

  /**
   * A loaded sound loops exactly when it holds samples; its loop starts
   * inside it, and every ratio from 0 up to the loop's length — in
   * particular every ratio up to 1, the root note and below — is one render
   * accepts.
   */
  lemma LoadedSoundLoopsIffNonEmpty(d: seq<real>, ratio: real)
    ensures Looping(LoadedSource(d)) <==> |d| > 0
    ensures 0 <= LoopStartFor(d) && (|d| > 0 ==> LoopStartFor(d) < |d|)
    ensures RatioFits(LoadedSource(d), ratio) <==> 0.0 <= ratio && (|d| > 0 ==> ratio <= (|d| - LoopStartFor(d)) as real)
    ensures 0.0 <= ratio <= 1.0 ==> RatioFits(LoadedSource(d), ratio)
  {
    LoopStartIsFirstCrossing(d);
  }

  /**
   * Every note at or below the root note plays at a ratio render accepts on
   * a loaded sound, given that `2^x` does not exceed 1 for `x <= 0`.
   */
  lemma LoadedSoundPlaysNotesUpToRoot(d: seq<real>, m: MathLib, midiNote: int, rootNote: int)
    requires Lawful(m) && midiNote <= rootNote
    ensures RatioFits(LoadedSource(d), PitchRatio(m, midiNote, rootNote))
  {
    PitchRatioAtRootAndOctave(m, rootNote, midiNote);
    LoadedSoundLoopsIffNonEmpty(d, PitchRatio(m, midiNote, rootNote));
  }

  /**
   * A voice on a loaded sound never stalls: a non-empty sound loops, so each
   * step either plays or ends the note, and an empty one ends the note at
   * its first step.
   */
  lemma LoadedSoundNeverStalls(d: seq<real>, active: bool, position: real)
    requires PositionInBounds(LoadedSource(d), position)
    ensures StepAt(LoadedSource(d), active, position) != Stop(false)
    ensures |d| == 0 ==> StepAt(LoadedSource(d), active, position) == Stop(true)
  {
    LoadedSoundLoopsIffNonEmpty(d, 0.0);
    StepAtIsSafe(LoadedSource(d), active, position);
  }

  /**
   * Loading is insensitive to leading and trailing silence: a buffer that is
   * already trimmed loads to the same samples as the untrimmed one.
   */
  lemma AnalysisIgnoresSurroundingSilence(s: seq<real>, m: MathLib)
    ensures Analysed(Trimmed(s), m) == Analysed(s, m)
  {
    TrimIsIdempotent(s);
  }

  /**
   * A loaded sound that holds a sample louder than the silence threshold
   * peaks exactly at the -0.5 dB target, given a positive target gain.
   */
  lemma LoadedSoundPeaksAtTarget(s: seq<real>, m: MathLib, i: nat)
    requires i < |s| && Loud(s[i])
    requires DecibelsToGain(m, DefaultNormalizeDb) > 0.0
    ensures Peak(Analysed(s, m)) == DecibelsToGain(m, DefaultNormalizeDb)
  {
    LoudSampleLiesInsideTrim(s, i);
    var t := Trimmed(s);
    var k := if TrimEnd(s) > TrimStart(s) then i - TrimStart(s) else i;
    assert 0 <= k < |t| && t[k] == s[i];
    PeakIsLargestMagnitude(t);
    NormalizeReachesTarget(Trimmed(s), DecibelsToGain(m, DefaultNormalizeDb));
  }
}
