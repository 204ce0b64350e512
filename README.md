# aiGenVST sampler core in Dafny

This project models the sampler at the heart of the aiGenVST plug-in. It
covers three parts:

- **Analysis.** A loaded buffer is downmixed to mono when it comes from a
  file. It is then trimmed of leading and trailing silence and normalised
  to a -0.5 dB peak. Its root note is detected by autocorrelation, and loop
  points are chosen at a zero crossing near a quarter of its length.
- **The sound.** `AISamplerSound` holds a private copy of the processed
  samples, the root note, the sample rate and the loop bounds.
- **The voice.** `AISamplerVoice` plays a sound at a pitch ratio of
  2^(semitones/12). It reads with linear interpolation, wraps once into the
  loop, scales by an ADSR envelope and the note velocity, and adds the result
  to every output channel.

Modules, one file each:

- `Numerics` (`numerics.dfy`). It holds `real` arithmetic, the C++ `(int)`
  cast as truncation toward zero, and `jlimit`. `log2`, `pow`, `sqrt` and
  `Decibels::decibelsToGain` are values of a `MathLib` datatype. They are
  constrained only by the laws in `Lawful`.
- `PitchDetector` (`pitch_detector.dfy`). The autocorrelation lag search.
- `SampleAnalysis` (`sample_analysis.dfy`). Downmix, trim, normalise,
  frequency to MIDI note, and loop points.
- `Envelope` (`envelope.dfy`). An abstract stand-in for `juce::ADSR`: a stage
  machine whose level stays in [0, 1].
- `Sound` (`sound.dfy`). `AISamplerSound`.
- `Voice` (`voice.dfy`). `AISamplerVoice`.
  - The function `Render` is the reference definition of one block:
    - the samples it emits;
    - the final position and envelope;
    - whether it released the note.
  - The method `RenderNextBlock` is proved to do exactly what `Render` says
    to the voice's fields and to the output buffer.
- `Engine` (`engine.dfy`). `AISamplerEngine`: its 16 voices and the three
  ways of loading a sample.

Render demands these things of its state, which the code does not check
(`ReadyToRender`):

- The envelope is in a valid state (its level lies in [0, 1]).
- The pitch ratio is not negative.
- When the sound loops, the loop start is not negative.
- When the sound loops, the pitch ratio is at most the loop length, so that
  one wrap brings the position back inside the loop.
- The position is not negative and, when the sound loops, lies less than
  one loop length past the loop end.

Render preserves the position bound and the valid envelope. A sound made by the engine
always loops unless it is empty, and render accepts every ratio up to 1 on it
(`LoadedSoundLoopsIffNonEmpty`). So every note at or below the root note
satisfies the bound (`LoadedSoundPlaysNotesUpToRoot`).

## Model

| member | source | states |
|---|---|---|
| Numerics.Trunc | Source/SamplerEngine.cpp:99 | `(int)` of a real truncates toward zero: the floor for non-negative values, the ceiling for negative ones |
| Numerics.Clamp | Source/SamplerEngine.cpp:292 | `jlimit(lower, upper, v)` lies in range, keeps values inside it, and maps values below or above to the nearer bound |
| Numerics.Abs | Source/SamplerEngine.cpp:226 | `std::abs` is non-negative and equals `x` or `-x` |
| PitchDetector.Energy | Source/PitchDetector.cpp:49-50 | the accumulated squares `norm1`/`norm2` are never negative |
| PitchDetector.Autocorrelate | Source/PitchDetector.cpp:40-59 | the accumulation loop returns the normalised correlation of the first `length` samples at `lag`, or 0 when the normalisation is not positive |
| PitchDetector.FindBestLag | Source/PitchDetector.cpp:16-28 | the lag loop returns the best lag and its correlation over `[20, min(2000, length/2))`, as `BestLag` defines them |
| PitchDetector.DetectPitch | Source/PitchDetector.cpp:7-38 | the detector returns `DetectedFrequency` of the buffer |
| PitchDetector.SearchFindsFirstMaximum | Source/PitchDetector.cpp:19-28 | the running maximum bounds every correlation seen; it is either unchanged or the first lag reaching a strictly larger value |
| PitchDetector.BestLagIsFirstMaximum | Source/PitchDetector.cpp:19-28 | a non-zero best lag lies in `[20, 2000)` and below half the window, attains the maximum, and beats every earlier lag strictly (ties keep the earlier lag); lag 0 means the maximum stayed -1 |
| PitchDetector.DetectedFrequencyIsZeroOrLagFrequency | Source/PitchDetector.cpp:9-37 | a buffer shorter than 4000 samples yields 0; any other result is 0 or `sampleRate / lag`, for a lag in range whose correlation is at least 0.3, over a window of at most 8192 samples; conversely a long enough buffer whose best lag is non-zero with correlation at least 0.3 yields `sampleRate / lag` |
| PitchDetector.SilentOverlapHasZeroCorrelation | Source/PitchDetector.cpp:54-58 | when the product of the two energies is not positive, the correlation is 0 |
| PitchDetector.DetectionIgnoresSamplesPastWindow | Source/PitchDetector.cpp:13 | samples after the first 8192 do not change the detected frequency |
| SampleAnalysis.DownmixToMono | Source/SamplerEngine.cpp:165-176 | channel 0 gets the average of all channels at every index; other channels are untouched; a one-channel buffer is unchanged |
| SampleAnalysis.MeanOfSingleChannel | Source/SamplerEngine.cpp:165 | averaging a single channel gives that channel's sample back |
| SampleAnalysis.FirstLoud | Source/SamplerEngine.cpp:224-231 | the first index holding a sample above the 0.001 threshold, with none before it |
| SampleAnalysis.LastLoud | Source/SamplerEngine.cpp:234-241 | the last index holding a sample above the threshold, with none after it |
| SampleAnalysis.ScanForward | Source/SamplerEngine.cpp:220-231 | the forward scan finds the first loud index, or 0 |
| SampleAnalysis.ScanBackward | Source/SamplerEngine.cpp:221-241 | the backward scan finds the last loud index, or the last index |
| SampleAnalysis.CopySpan | Source/SamplerEngine.cpp:246-250 | the copy is a fresh buffer holding exactly the chosen span |
| SampleAnalysis.TrimSilence | Source/SamplerEngine.cpp:217-254 | the result is `Trimmed` of the input: a fresh copy of the span from the first to the last loud sample, or the buffer itself |
| SampleAnalysis.TrimmedSpansFirstToLastLoud | Source/SamplerEngine.cpp:244-253 | with two loud samples the trimmed buffer is exactly the span from the first to the last loud sample, and starts and ends loud |
| SampleAnalysis.LoudSampleLiesInsideTrim | Source/SamplerEngine.cpp:224-241 | every loud sample lies between the first and the last loud index |
| SampleAnalysis.QuietOutsideTrim | Source/SamplerEngine.cpp:224-241 | no loud sample lies outside the trimmed span |
| SampleAnalysis.TrimKeepsBufferWithAtMostOneLoudSample | Source/SamplerEngine.cpp:244 | with at most one loud sample the content is unchanged |
| SampleAnalysis.TrimIsIdempotent | Source/SamplerEngine.cpp:224-253 | trimming a trimmed buffer gives it back |
| SampleAnalysis.ApplyGain | Source/SamplerEngine.cpp:274 | every sample is multiplied in place by the same gain |
| SampleAnalysis.Normalize | Source/SamplerEngine.cpp:256-276 | the buffer becomes `Normalized`: untouched when the peak is 0, otherwise scaled by `target / peak` |
| SampleAnalysis.LargestIsMaximum | Source/SamplerEngine.cpp:259-265 | the running peak bounds every magnitude seen and is one of them unless it is 0 |
| SampleAnalysis.PeakIsLargestMagnitude | Source/SamplerEngine.cpp:259-265 | the peak is non-negative, bounds every sample's magnitude, and is attained unless it is 0 |
| SampleAnalysis.PeakOfScaled | Source/SamplerEngine.cpp:267-275 | scaling by a non-negative gain scales the peak by that gain |
| SampleAnalysis.NormalizeReachesTarget | Source/SamplerEngine.cpp:268-275 | after normalisation the peak is exactly the target; every sample is multiplied by the same factor `target / peak`; a silent buffer is unchanged |
| SampleAnalysis.MidiNoteForFrequency | Source/SamplerEngine.cpp:284-298 | the note lies in [0, 127], and is 60 when no pitch was found |
| SampleAnalysis.MidiNoteTruncatesTowardA4 | Source/SamplerEngine.cpp:289-292 | the note is `69 + trunc(12 log2(f / 440))`, clamped: the semitone offset is truncated toward zero, not rounded |
| SampleAnalysis.ConcertPitchNotes | Source/SamplerEngine.cpp:286-289 | 440 Hz maps to note 69 and 880 Hz to note 81 |
| SampleAnalysis.TruncIsMonotone | Source/SamplerEngine.cpp:289 | the `(int)` cast is monotone |
| SampleAnalysis.MidiNoteIsMonotone | Source/SamplerEngine.cpp:284-298 | a higher frequency never gives a lower note, given a monotone `log2` |
| SampleAnalysis.DetectPitch | Source/SamplerEngine.cpp:278-299 | the root note is the note for the frequency the detector reports, in [0, 127] |
| SampleAnalysis.FirstCrossing | Source/SamplerEngine.cpp:309-316 | the first zero crossing in the window, with none before it, or -1 when the window has none |
| SampleAnalysis.FindLoopPoints | Source/SamplerEngine.cpp:301-318 | the loop end is the length; the loop start is `LoopStartFor` the buffer |
| SampleAnalysis.LoopStartIsFirstCrossing | Source/SamplerEngine.cpp:305-317 | the loop start is `len/4` or the first crossing in `[len/4, min(len/4 + 1000, len - 1))`, with no crossing before it; `0 <= loopStart <= len`, strictly less when `len > 0` |
| Envelope.RampRate | Source/SamplerEngine.cpp:23-27 | a positive ramp over a positive time at a positive rate moves by a positive step; otherwise the ramp jumps at once |
| Envelope.Next | Source/SamplerEngine.cpp:115 | one envelope step keeps the level in [0, 1]; idle stays idle; sustain holds the sustain level; release only falls, strictly while the level and rate are positive, and ends idle |
| Envelope.After | Source/SamplerEngine.cpp:115 | any number of steps keeps the state valid |
| Envelope.ReleaseReachesIdle | Source/SamplerEngine.cpp:53-56 | after note-off the envelope is idle (no longer active) once `k` release steps exceed its level |
| Envelope.AfterFirst | Source/SamplerEngine.cpp:115 | `k` steps are one step followed by `k - 1` steps |
| Envelope.IdleStaysIdle | Source/SamplerEngine.cpp:86 | an idle envelope stays idle at level 0 |
| Envelope.Adsr.constructor | Source/SamplerEngine.h:65 | a fresh envelope is idle at level 0 with the library defaults |
| Envelope.Adsr.SetParameters | Source/SamplerEngine.cpp:27 | installs the parameters |
| Envelope.Adsr.SetSampleRate | Source/SamplerEngine.cpp:46 | installs the sample rate |
| Envelope.Adsr.NoteOn | Source/SamplerEngine.cpp:47 | enters the attack stage from the current level |
| Envelope.Adsr.NoteOff | Source/SamplerEngine.cpp:55 | enters release from the current level, unless idle |
| Envelope.Adsr.IsActive | Source/SamplerEngine.cpp:86 | the envelope is active exactly when it is not idle |
| Envelope.Adsr.Reset | Source/SamplerEngine.cpp:60 | goes idle at level 0 |
| Envelope.Adsr.GetNextSample | Source/SamplerEngine.cpp:115 | steps the state by `Next` and returns the new level, in [0, 1] |
| Sound.SamplerSound.constructor | Source/SamplerEngine.cpp:7-15 | the sound holds a copy of the source samples, the root note and the rate; the loop spans 0 to the length |
| Sound.SamplerSound.Length | Source/SamplerEngine.h:23 | the number of samples the sound holds |
| Sound.SamplerSound.SetLoopPoints | Source/SamplerEngine.h:25-29 | sets exactly the two loop bounds and nothing else |
| Sound.SoundAppliesEverywhere | Source/SamplerEngine.h:15-16 | a sound applies to every note and every channel |
| Voice.PitchRatioAtRootAndOctave | Source/SamplerEngine.cpp:64-70 | the ratio is 1 at the root note, 2 an octave up, always positive, and at most 1 for notes at or below the root |
| Voice.StepAt | Source/SamplerEngine.cpp:86-107 | an iteration stops and releases the note exactly when the envelope is inactive, or a one-shot sound's position has reached its length |
| Voice.ReadableReadsInside | Source/SamplerEngine.cpp:99-111 | a readable position reads `index0` and `index1` inside the sample, with `index0 <= position < index0 + 1` |
| Voice.StallTest | Source/SamplerEngine.cpp:99-105 | `index1 >= length` holds exactly when the position is at or past `length - 1` |
| Voice.StepAtIsSafe | Source/SamplerEngine.cpp:86-107 | an iteration stalls only on a one-shot sound in its last sample; when it plays, the read position is the wrapped one, readable and in bounds |
| Voice.LoopingStepWraps | Source/SamplerEngine.cpp:81-107 | on a looping sound an active iteration always plays; a position at or past the loop end moves back by the loop length; `index1` past the end becomes the loop start |
| Voice.InterpolationIsBetween | Source/SamplerEngine.cpp:109-112 | the interpolated sample lies between the two samples it blends |
| Voice.Render | Source/SamplerEngine.cpp:83-126 | a block emits at most `numSamples` samples, fewer when it releases the note; it leaves the envelope valid and the position in bounds for the next block |
| Voice.RenderReadsInside | Source/SamplerEngine.cpp:99-115 | every sample a block emits is read inside the sound, at an envelope level in [0, 1] |
| Voice.TraceRenders | Source/SamplerEngine.cpp:83-126 | the iterations run so far are the first samples of `Render`'s block, followed by the block from the current state |
| Voice.RenderPlays | Source/SamplerEngine.cpp:93-125 | an iteration that emits a sample is that sample followed by the rest of the block |
| Voice.AdvancedByIsLinear | Source/SamplerEngine.cpp:125 | advancing `k` times by the ratio moves the position by `k * ratio` |
| Voice.RenderAdvances | Source/SamplerEngine.cpp:125 | without a loop, after `k` emitted samples the position has advanced by exactly `k` pitch ratios |
| Voice.RenderOutputsBounded | Source/SamplerEngine.cpp:109-116 | with samples bounded by `bound` and a velocity in [0, 1], no emitted value exceeds `bound` |
| Voice.PlayedValueBounded | Source/SamplerEngine.cpp:109-116 | one emitted value is no louder than the samples it blends |
| Voice.ScaledStaysBounded | Source/SamplerEngine.cpp:116 | scaling by an envelope level and velocity in [0, 1] keeps the bound |
| Voice.BlocksCompose | Source/SamplerEngine.cpp:72-128 | splitting a block in two changes nothing: `n + k` samples emit what `n` samples and then `k` samples emit, unless the note was released |
| Voice.ComposeAfterPlay | Source/SamplerEngine.cpp:93-125 | the emitting step of block composition |
| Voice.ComposeAfterStop | Source/SamplerEngine.cpp:86-105 | block composition when the first block emits nothing |
| Voice.StalledRenderRepeats | Source/SamplerEngine.cpp:102-105 | a stalled one-shot voice emits nothing, does not move, keeps its envelope and is not released, in every later block too |
| Voice.ReleasedLoopingVoiceIsFreed | Source/SamplerEngine.cpp:86-90 | after note-off a looping voice is released within `k` samples once `k` release steps exceed the envelope level |
| Voice.SamplerVoice.constructor | Source/SamplerEngine.cpp:20-28 | a new voice has ratio 1, position 0, velocity 0, no sound, and the envelope set to 0.01/0.1/0.8/0.3 |
| Voice.SamplerVoice.CanPlaySound | Source/SamplerEngine.cpp:30-33 | the voice accepts exactly the sampler's own sounds; `StartNote` acts on those and ignores the rest |
| Voice.SamplerVoice.StartNote | Source/SamplerEngine.cpp:35-49 | on a sampler sound: stores the velocity, rewinds to 0, sets the ratio for the note, adopts the sound's rate and opens the envelope; any other sound changes nothing; with a fitting ratio the voice is ready to render |
| Voice.SamplerVoice.UpdatePitchRatio | Source/SamplerEngine.cpp:64-70 | the ratio becomes `2^((note - root) / 12)` |
| Voice.SamplerVoice.StopNote | Source/SamplerEngine.cpp:51-62 | with a tail it releases the envelope and keeps the note; without one it frees the voice and silences the envelope |
| Voice.SamplerVoice.ClearCurrentNote | Source/SamplerEngine.cpp:88 | the voice becomes free |
| Voice.SamplerVoice.RenderNextBlock | Source/SamplerEngine.cpp:72-128 | the new position, envelope and note are those of `Render`'s block; each emitted value is added on every channel at `startSample + j`; nothing else in the buffer changes; a free voice renders nothing |
| Voice.SamplerVoice.RenderFrom | Source/SamplerEngine.cpp:77-127 | the loop runs a trace from the voice's state, adding each emitted value on every channel, and ends after `numSamples` samples or where `StepAt` stops |
| Voice.SamplerVoice.RenderSample | Source/SamplerEngine.cpp:85-125 | one iteration stops where `StepAt` does; otherwise it adds the sample's `Value` on every channel at the index, steps the envelope and advances the position by the ratio |
| Voice.SamplerVoice.ReadPosition | Source/SamplerEngine.cpp:85-107 | the stop checks, the single wrap and the two read indices agree with `StepAt`, `Trunc` and `Index1` |
| Voice.SamplerVoice.EmitSample | Source/SamplerEngine.cpp:109-125 | adds the interpolated, envelope- and velocity-scaled sample on every channel, then advances by the ratio |
| Voice.InterpolateAt | Source/SamplerEngine.cpp:109-112 | computes `Interpolate` at the two indices |
| Voice.ValueOfRead | Source/SamplerEngine.cpp:115-116 | the sample times the envelope level times the velocity is the `Value` of the emitted sample |
| Voice.AddToChannels | Source/SamplerEngine.cpp:119-122 | adds the value at the index on every channel and changes nothing else |
| Engine.SamplerEngine.constructor | Source/SamplerEngine.cpp:133-138 | the engine has 16 distinct fresh voices, all free, no sound, and no sample loaded; the engine invariant `Valid` holds |
| Engine.SamplerEngine.HasSampleLoaded | Source/SamplerEngine.h:81 | under `Valid`, a sample is reported loaded exactly when the engine holds a sound |
| Engine.SamplerEngine.LoadedSampleInfo | Source/SamplerEngine.h:82 | under `Valid`, there is no summary before a load; after one, the summary gives the held sound's root note, length, sample rate and loop bounds |
| Engine.AnalyseBuffer | Source/SamplerEngine.cpp:189-200 | the four analysis steps give the trimmed, normalised samples, the root note detected in them, and their loop points |
| Engine.SamplerEngine.ProcessLoadedBuffer | Source/SamplerEngine.cpp:186-215 | the sound list becomes one fresh sound: it holds `Analysed` of the input, with the detected root note, the given rate and the found loop points; the load is recorded, the summary describes that sound, and `Valid` holds |
| Engine.SamplerEngine.LoadSampleFromBuffer | Source/SamplerEngine.cpp:181-184 | loads at 44.1 kHz and ignores the root note passed in; the result is the caller's buffer or a fresh one; the summary describes the new sound at 44.1 kHz; `Valid` holds |
| Engine.SamplerEngine.LoadDecodedBuffer | Source/SamplerEngine.cpp:164-178 | loads the channel average of a decoded buffer at the file's rate into a fresh buffer; the summary describes the new sound at that rate; `Valid` holds |
| Engine.MonoOf | Source/SamplerEngine.cpp:165-176 | the mono signal has one sample per frame of the decoded buffer |
| Engine.LoadedSoundLoopsIffNonEmpty | Source/SamplerEngine.cpp:198-206 | a loaded sound loops iff it is non-empty; its loop start lies inside it; render accepts exactly the ratios from 0 to the loop length, which include every ratio up to 1 |
| Engine.LoadedSoundPlaysNotesUpToRoot | Source/SamplerEngine.cpp:64-70 | every note at or below the root note plays on a loaded sound at a ratio render accepts |
| Engine.LoadedSoundNeverStalls | Source/SamplerEngine.cpp:81-107 | a voice on a loaded sound never stalls; on an empty one it ends the note at its first step |
| Engine.AnalysisIgnoresSurroundingSilence | Source/SamplerEngine.cpp:189-192 | loading an already trimmed buffer gives the same samples |
| Engine.LoadedSoundPeaksAtTarget | Source/SamplerEngine.cpp:189-192 | a loaded sound made from a buffer with a loud sample peaks exactly at the -0.5 dB gain |

## Left out

- File decoding in `loadSampleFromFile` (the existence check, format readers, `reader->read`) is I/O. The model starts from the decoded buffer and its sample rate (`LoadDecodedBuffer`).
- `juce::ADSR` is library code and is not part of this model. `Envelope` is an abstract linear-ramp stage machine. It keeps the interface the voice uses and the level range [0, 1], not JUCE's exact ramps.
- `juce::Synthesiser` is not part of this model: note dispatch, voice allocation, `clearSounds`/`addSound` and the reference-counted sound pointers. The engine's `sound` field stands for the sound list, and a voice's `current` field for its currently playing sound. A voice already playing the previous sound keeps it.
- `sampleInfo` keeps the numbers the engine formats (`SampleInfo`), not the formatted text. `DBG` logging is not modelled.
- Floating point is modelled as `real`. `log2`, `pow`, `sqrt` and `decibelsToGain` are uninterpreted apart from the laws in `Lawful`. Float rounding, and single versus double precision, are not modelled.
- The plug-in processor, editor, network generator and Python backend lie outside the sampler core.
- `SampleAnalysis.MidiNoteForFrequency` truncates the semitone offset `12 log2(f / 440)` toward zero, as the `(int)` cast does; it does not round to the nearest note.
- The sampler has no background loader: a load runs to completion and then replaces the sound. Threads and publication to the audio thread are not modelled.
- `Voice.SamplerVoice.RenderNextBlock` requires `ReadyToRender`: the envelope is valid, the pitch ratio is not negative, and on a looping sound the loop start is not negative and the ratio is at most the loop length; the position is not negative and, on a looping sound, less than one loop length past the loop end. The code checks none of these. Without them a single wrap can leave the position past the loop end, and the read at `index0` overruns.
- Buffers are modelled as their channel 0. The analysis, the sound and the voice all read only channel 0. A multi-channel buffer passed to `loadSampleFromBuffer` keeps its other channels (and `applyGain` scales them) only when `trimSilence` leaves it in place, that is when `endSample <= startSample`: exactly one loud sample, or at most one sample in all. In every other case `trimSilence` replaces it with a one-channel copy, even when the length does not change (Source/SamplerEngine.cpp:244-252). The model drops the other channels in every case.
- `Engine.SamplerEngine.ProcessLoadedBuffer` returns the processed buffer. The code instead replaces the caller's buffer object whenever `endSample > startSample` in `trimSilence`, even when the length does not change.
- `Voice.Value` is taken as 0 for a read outside the sample. `RenderReadsInside` shows no emitted sample is ever such a read.
- `pitchWheelMoved` and `controllerMoved` are empty in the source and are not modelled.
