/**
 * The amplitude envelope a voice applies to its output (`juce::ADSR`).
 *
 * The envelope is library code; it is modelled as a five-stage machine with
 * linear per-sample ramps: attack rises to 1, decay falls to the sustain
 * level, sustain holds it, release falls to 0 and then the envelope is idle.
 * A ramp whose time is not positive is taken in a single step. What the
 * voice relies on is the interface: `IsActive`, `NoteOn`, `NoteOff`, `Reset`
 * and `GetNextSample`, whose values always lie in [0, 1].
 */
module Envelope {

  datatype Stage = Idle | Attack | Decay | Sustain | Release

  /** Ramp times in seconds and the sustain level (`juce::ADSR::Parameters`). */
  datatype Parameters = Parameters(attack: real, decay: real, sustain: real, release: real)

  /** The parameters a new voice installs: quick attack, medium release. */
  const VoiceDefaults: Parameters := Parameters(0.01, 0.1, 0.8, 0.3)

  /** The parameters of an envelope nobody has configured yet. */
  const LibraryDefaults: Parameters := Parameters(0.1, 0.1, 1.0, 0.1)

  const LibrarySampleRate: real := 44100.0

  predicate ValidParameters(p: Parameters)
  {
    0.0 <= p.sustain <= 1.0
  }

  /** The current stage and output level. */
  datatype State = State(stage: Stage, level: real)

  predicate ValidState(s: State)
  {
    0.0 <= s.level <= 1.0 && (s.stage == Idle ==> s.level == 0.0)
  }

  /** Level change per sample of one ramp; not positive means "jump at once". */
  datatype Rates = Rates(attack: real, decay: real, release: real)

  /** The per-sample step that covers `distance` in `seconds` at `sampleRate`. */
  function RampRate(distance: real, seconds: real, sampleRate: real): (r: real)
    ensures seconds <= 0.0 || sampleRate <= 0.0 ==> r < 0.0
    ensures seconds > 0.0 && sampleRate > 0.0 && distance > 0.0 ==> r > 0.0
  {
    if seconds > 0.0 && sampleRate > 0.0 then
      PositiveProduct(seconds, sampleRate);
      distance / (seconds * sampleRate)
    else -1.0
  }

  lemma PositiveProduct(x: real, y: real)
    requires x > 0.0 && y > 0.0
    ensures x * y > 0.0
  {
  }

  function RatesFor(p: Parameters, sampleRate: real): Rates
  {
    Rates(RampRate(1.0, p.attack, sampleRate),
          RampRate(1.0 - p.sustain, p.decay, sampleRate),
          RampRate(p.sustain, p.release, sampleRate))
  }

  /**
   * One sample of the envelope: the state after the step, whose level is the
   * value `GetNextSample` returns. An idle envelope stays idle at 0; every
   * ramp stops at its target and moves on to the next stage.
   */
  function Next(s: State, sustain: real, r: Rates): (t: State)
    requires ValidState(s) && 0.0 <= sustain <= 1.0
    ensures ValidState(t)
    ensures s.stage == Idle ==> t == s
    ensures s.stage == Sustain ==> t == State(Sustain, sustain)
    ensures s.stage == Release ==> t.stage in {Release, Idle} && t.level <= s.level
    ensures s.stage == Release && s.level > 0.0 && r.release > 0.0 ==> t.level < s.level
  {
    match s.stage
    case Idle => s
    case Attack =>
      var l := s.level + r.attack;
      if r.attack <= 0.0 || l >= 1.0 then State(Decay, 1.0) else State(Attack, l)
    case Decay =>
      var l := s.level - r.decay;
      if r.decay <= 0.0 || l <= sustain then State(Sustain, sustain) else State(Decay, l)
    case Sustain => State(Sustain, sustain)
    case Release =>
      var l := s.level - r.release;
      if r.release <= 0.0 || l <= 0.0 then State(Idle, 0.0) else State(Release, l)
  }

  /** The state after `k` samples. */
  function After(s: State, sustain: real, r: Rates, k: nat): (t: State)
    requires ValidState(s) && 0.0 <= sustain <= 1.0
    ensures ValidState(t)
  {
    if k == 0 then s else Next(After(s, sustain, r, k - 1), sustain, r)
  }

  /**
   * A released envelope is idle after `k` samples once `k` release steps
   * exceed its level: note-off always ends the envelope.
   */
  lemma {:induction false} ReleaseReachesIdle(s: State, sustain: real, r: Rates, k: nat)
    requires ValidState(s) && 0.0 <= sustain <= 1.0
    requires s.stage in {Release, Idle}
    requires r.release > 0.0 && (s.stage == Idle || s.level < k as real * r.release)
    ensures After(s, sustain, r, k).stage == Idle
    decreases k
  {
    if s.stage == Idle {
      IdleStaysIdle(s, sustain, r, k);
    } else {
      var t := Next(s, sustain, r);
      if t.stage == Idle {
        IdleStaysIdle(t, sustain, r, k - 1);
        AfterFirst(s, sustain, r, k);
      } else {
        assert t.level == s.level - r.release;
        assert t.level < (k - 1) as real * r.release;
        ReleaseReachesIdle(t, sustain, r, k - 1);
        AfterFirst(s, sustain, r, k);
      }
    }
  }

  /** `k` steps are one step followed by `k - 1` steps. */
  lemma {:induction false} AfterFirst(s: State, sustain: real, r: Rates, k: nat)
    requires ValidState(s) && 0.0 <= sustain <= 1.0 && k > 0
    ensures After(s, sustain, r, k) == After(Next(s, sustain, r), sustain, r, k - 1)
  {
    if k > 1 {
      AfterFirst(s, sustain, r, k - 1);
    }
  }

  /** Once idle, an envelope stays idle at level 0. */
  lemma {:induction false} IdleStaysIdle(s: State, sustain: real, r: Rates, k: nat)
    requires ValidState(s) && 0.0 <= sustain <= 1.0 && s.stage == Idle
    ensures After(s, sustain, r, k) == State(Idle, 0.0)
  {
    if k > 0 {
      IdleStaysIdle(s, sustain, r, k - 1);
    }
  }

  /** The envelope of one voice. */
  class Adsr {
    var state: State
    var params: Parameters
    var sampleRate: real

    ghost predicate Valid()
      reads this
    {
      ValidState(state) && ValidParameters(params)
    }

    constructor ()
      ensures Valid()
      ensures state == State(Idle, 0.0)
      ensures params == LibraryDefaults && sampleRate == LibrarySampleRate
    {
      state := State(Idle, 0.0);
      params := LibraryDefaults;
      sampleRate := LibrarySampleRate;
    }

    /** An envelope is active until it has gone back to idle. */
    predicate IsActive()
      reads this
    {
      state.stage != Idle
    }

    function CurrentRates(): Rates
      reads this
    {
      RatesFor(params, sampleRate)
    }

    method SetParameters(p: Parameters)
      requires Valid() && ValidParameters(p)
      modifies this`params
      ensures Valid() && params == p
    {
      params := p;
    }

    method SetSampleRate(rate: real)
      requires Valid()
      modifies this`sampleRate
      ensures Valid() && sampleRate == rate
    {
      sampleRate := rate;
    }

    /** Starts the attack from the current level. */
    method NoteOn()
      requires Valid()
      modifies this`state
      ensures Valid() && state == State(Attack, old(state.level))
    {
      state := State(Attack, state.level);
    }

    /** Starts the release, unless the envelope is already idle. */
    method NoteOff()
      requires Valid()
      modifies this`state
      ensures Valid()
      ensures state == if old(state.stage) == Idle then old(state) else State(Release, old(state.level))
    {
      if state.stage != Idle {
        state := State(Release, state.level);
      }
    }

    /** Silences the envelope at once. */
    method Reset()
      requires Valid()
      modifies this`state
      ensures Valid() && state == State(Idle, 0.0)
    {
      state := State(Idle, 0.0);
    }

    /** Advances one sample and returns the new level. */
    method GetNextSample() returns (value: real)
      requires Valid()
      modifies this`state
      ensures Valid()
      ensures state == Next(old(state), params.sustain, CurrentRates())
      ensures value == state.level && 0.0 <= value <= 1.0
    {
      state := Next(state, params.sustain, CurrentRates());
      value := state.level;
    }
  }
}
