/**
 * The sound a loaded sample becomes (`AISamplerSound`): a private copy of
 * the samples, the root note they play at unshifted, the rate they were
 * recorded at, and the loop bounds used during playback.
 */
module Sound {

  class SamplerSound {
    /** The copied samples; nothing changes them after construction. */
    const audioData: seq<real>
    const rootNote: int
    const sourceSampleRate: real
    var loopStart: int
    var loopEnd: int

    /**
     * Copies `source`; the loop initially spans the whole copy, from 0 to
     * its length. The name is accepted and not kept.
     */
    constructor (name: string, source: array<real>, rootMidiNote: int, sampleRate: real)
      ensures audioData == source[..]
      ensures rootNote == rootMidiNote && sourceSampleRate == sampleRate
      ensures loopStart == 0 && loopEnd == Length()
    {
      audioData := source[..];
      rootNote := rootMidiNote;
      sourceSampleRate := sampleRate;
      loopStart := 0;
      loopEnd := source.Length;
    }

    /** The sound plays for every MIDI note... */
    function AppliesToNote(midiNoteNumber: int): (applies: bool)
    {
      true
    }

    /** ...on every MIDI channel. */
    function AppliesToChannel(midiChannel: int): (applies: bool)
    {
      true
    }

    /** The number of copied samples. */
    function Length(): (n: nat)
    {
      |audioData|
    }

    /** Replaces both loop bounds, as given, and nothing else. */
    method SetLoopPoints(start: int, end: int)
      modifies this`loopStart, this`loopEnd
      ensures loopStart == start && loopEnd == end
    {
      loopStart := start;
      loopEnd := end;
    }
  }

  /** Every sound accepts every note and every channel. */
  lemma SoundAppliesEverywhere(s: SamplerSound, note: int, channel: int)
    ensures s.AppliesToNote(note) && s.AppliesToChannel(channel)
  {
  }
}
