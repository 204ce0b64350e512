/**
 * Playback of a sound by one voice (`AISamplerVoice`).
 *
 * A voice reads the sound's samples at a fractional position that advances
 * by the pitch ratio once per output sample, interpolating linearly between
 * neighbouring samples, scaling by the envelope and the note velocity, and
 * adding the result to every output channel. When the sound's loop is
 * usable, a position at or past the loop end is wrapped back once per sample.
 *
 * The render loop is specified by the pure function `Render`, which gives the
 * values written, the final position and envelope state, and whether the
 * note was released, for a block of `n` samples.
 */
module Voice {
  import opened Numerics
  import opened Envelope
  import opened Sound

  // ---------------------------------------------------------------------------
  // Pitch

  /** Playback speed for `midiNote` on a sound rooted at `rootNote`: 2^(semitones / 12). */
  function PitchRatio(m: MathLib, midiNote: int, rootNote: int): real
  {
    Pow(m, 2.0, (midiNote - rootNote) as real / 12.0)
  }

  /**
   * The root note plays at the recorded speed, an octave up at twice the
   * speed, every note plays forwards, and no note at or below the root plays
   * faster than recorded.
   */
  lemma PitchRatioAtRootAndOctave(m: MathLib, rootNote: int, midiNote: int)
    requires Lawful(m)
    ensures PitchRatio(m, rootNote, rootNote) == 1.0
    ensures PitchRatio(m, rootNote + 12, rootNote) == 2.0
    ensures PitchRatio(m, midiNote, rootNote) > 0.0
    ensures midiNote <= rootNote ==> PitchRatio(m, midiNote, rootNote) <= 1.0
  {
    assert (rootNote - rootNote) as real / 12.0 == 0.0;
    assert (rootNote + 12 - rootNote) as real / 12.0 == 1.0;
  }

  // ---------------------------------------------------------------------------
  // One output sample

  /** The sample data and loop bounds of the sound being played. */
  datatype Source = Source(data: seq<real>, loopStart: int, loopEnd: int)

  /** The loop is used iff it is non-empty and ends inside the sample. */
  predicate Looping(src: Source)
  {
    src.loopEnd > src.loopStart && src.loopEnd <= |src.data|
  }

  /**
   * What render demands of the pitch ratio and the loop, and does not check:
   * it plays forwards, a loop in use starts at or after the first sample, and
   * one step is no longer than the loop, so that one wrap per sample brings
   * the position back inside the loop.
   */
  predicate RatioFits(src: Source, ratio: real)
  {
    ratio >= 0.0 && (Looping(src) ==> 0 <= src.loopStart && ratio <= (src.loopEnd - src.loopStart) as real)
  }

  /**
   * Positions from which the next sample can be read without overrunning:
   * not negative, and for a looping sound (whose loop must start at or after
   * 0) less than one loop length past the loop end.
   */
  predicate PositionInBounds(src: Source, position: real)
  {
    position >= 0.0 && (Looping(src) ==> 0 <= src.loopStart && position < (2 * src.loopEnd - src.loopStart) as real)
  }

  /**
   * The outcome of one iteration of the render loop: stop (releasing the
   * note or not), or play at a (possibly wrapped) position.
   */
  datatype Step = Stop(clearNote: bool) | Play(position: real)

  /**
   * One iteration's decision. A one-shot sound whose next read would pass its
   * last sample stalls: it stops without releasing the note. (The render loop
   * tests `Trunc(position) + 1 >= length`, which for a position that is not
   * negative is `position >= length - 1`; see `StallTest`.)
   */
  function StepAt(src: Source, active: bool, position: real): (st: Step)
    requires PositionInBounds(src, position)
    ensures st.Stop? && st.clearNote <==> !active || (position >= |src.data| as real && !Looping(src))
  {
    var length := |src.data|;
    var looping := Looping(src);
    if !active || (position >= length as real && !looping) then Stop(true)
    else
      var p := Wrap(src, position);
      if !looping && p >= (length - 1) as real then Stop(false) else Play(p)
  }

  /**
   * The two samples read at a position `p`: the one at or before it, and the
   * next one, which past the last sample is the loop start.
   */
  function Index1(src: Source, p: real): int
  {
    if Trunc(p) + 1 >= |src.data| then src.loopStart else Trunc(p) + 1
  }

  /** Positions whose two reads lie inside the sound. */
  predicate Readable(src: Source, p: real)
  {
    0.0 <= p && (if Looping(src) then 0 <= src.loopStart && p < src.loopEnd as real else p < (|src.data| - 1) as real)
  }

  /** A readable position reads two samples inside the sound and lies between the first of them and the one after. */
  lemma ReadableReadsInside(src: Source, p: real)
    requires Readable(src, p)
    ensures 0 <= Trunc(p) < |src.data| && 0 <= Index1(src, p) < |src.data|
    ensures Trunc(p) as real <= p < Trunc(p) as real + 1.0
  {
  }

  /** The render loop's stall test on the first index is the position test of `StepAt`. */
  lemma StallTest(p: real, length: int)
    requires 0.0 <= p
    ensures Trunc(p) + 1 >= length <==> p >= (length - 1) as real
  {
  }

  /**
   * A step stops for good exactly when the envelope has ended or a one-shot
   * sound has run out; it stalls only on a one-shot sound, before its end;
   * and it plays at the wrapped position, which is readable and in bounds.
   */
  lemma StepAtIsSafe(src: Source, active: bool, position: real)
    requires PositionInBounds(src, position)
    ensures var st := StepAt(src, active, position);
      && (st == Stop(false) ==> !Looping(src) && position < |src.data| as real && position >= (|src.data| - 1) as real)
      && (st.Play? ==> st.position == Wrap(src, position) && Readable(src, st.position) && PositionInBounds(src, st.position))
  {
  }

  /** The single wrap applied before reading. */
  function Wrap(src: Source, position: real): real
  {
    if Looping(src) && position >= src.loopEnd as real then
      src.loopStart as real + (position - src.loopEnd as real)
    else position
  }

  /**
   * Looping playback: a position at or past the loop end moves back by the
   * loop length, and reading past the last sample continues at the loop start.
   */
  lemma LoopingStepWraps(src: Source, position: real)
    requires PositionInBounds(src, position) && Looping(src)
    ensures var st := StepAt(src, true, position);
      && st.Play?
      && st.position == (if position >= src.loopEnd as real then position - (src.loopEnd - src.loopStart) as real else position)
      && Index1(src, st.position) == (if Trunc(st.position) + 1 >= |src.data| then src.loopStart else Trunc(st.position) + 1)
  {
  }

  /** Linear interpolation between `data[index0]` and `data[index1]`. */
  function Interpolate(data: seq<real>, index0: int, index1: int, position: real): real
    requires 0 <= index0 < |data| && 0 <= index1 < |data|
  {
    data[index0] + (position - index0 as real) * (data[index1] - data[index0])
  }

  /** An interpolated value lies between the two samples it blends. */
  lemma InterpolationIsBetween(data: seq<real>, index0: int, index1: int, position: real)
    requires 0 <= index0 < |data| && 0 <= index1 < |data|
    requires index0 as real <= position < index0 as real + 1.0
    ensures var v := Interpolate(data, index0, index1, position);
      (data[index0] <= v <= data[index1]) || (data[index1] <= v <= data[index0])
  {
    var a, b, f := data[index0], data[index1], position - index0 as real;
    BlendIsBetween(a, b, f);
  }

  lemma BlendIsBetween(a: real, b: real, f: real)
    requires 0.0 <= f <= 1.0
    ensures (a <= a + f * (b - a) <= b) || (b <= a + f * (b - a) <= a)
  {
    var p := f * (b - a);
    if a <= b {
      FractionOf(f, b - a, p);
    } else {
      var q := f * (a - b);
      FractionOf(f, a - b, q);
      NegatedProduct(f, a - b, q, b - a, p);
    }
  }
  lemma NegatedProduct(f: real, x: real, px: real, y: real, py: real)
    requires y == -x && px == f * x && py == f * y
    ensures py == -px
  {
  }
  lemma FractionOf(f: real, d: real, p: real)
    requires 0.0 <= f <= 1.0 && 0.0 <= d && p == f * d
    ensures 0.0 <= p <= d
  {
    NonNegativeProduct(f, d, p);
    var rest := (1.0 - f) * d;
    NonNegativeProduct(1.0 - f, d, rest);
    assert rest == d - p;
  }
  lemma NonNegativeProduct(x: real, y: real, p: real)
    requires 0.0 <= x && 0.0 <= y && p == x * y
    ensures 0.0 <= p
  {
  }

  // ---------------------------------------------------------------------------
  // A block of samples

  /** Everything a block reads: the sound, the ratio, the velocity and the envelope's settings. */
  datatype Playback = Playback(src: Source, ratio: real, velocity: real, sustain: real, rates: Rates)

  predicate PlaybackValid(pb: Playback)
  {
    RatioFits(pb.src, pb.ratio) && 0.0 <= pb.sustain <= 1.0
  }

  /** One emitted sample: the (wrapped) position read and the envelope level applied. */
  datatype Played = Played(position: real, level: real)

  /** The position is readable and the level in [0, 1]. */
  predicate ReadsInside(src: Source, pl: Played)
  {
    Readable(src, pl.position) && 0.0 <= pl.level <= 1.0
  }

  /**
   * The value one emitted sample adds: interpolated sample times envelope
   * times velocity. Every sample a block emits reads inside the sound
   * (`RenderReadsInside`); any other read is taken as silence.
   */
  function Value(pb: Playback, pl: Played): real
  {
    if ReadsInside(pb.src, pl) then
      ReadableReadsInside(pb.src, pl.position);
      Interpolate(pb.src.data, Trunc(pl.position), Index1(pb.src, pl.position), pl.position) * pl.level * pb.velocity
    else 0.0
  }

  /** The samples a block emits, where it leaves the voice, and whether it released the note. */
  datatype Block = Block(played: seq<Played>, position: real, envelope: State, cleared: bool)

  /**
   * A block of at most `n` samples: each iteration either stops the block or
   * emits one sample, read at the (wrapped) position with the next envelope
   * level, and advances the position by the pitch ratio. Every read stays
   * inside the sample and the voice stays in bounds for the next block.
   */
  function Render(pb: Playback, position: real, env: State, n: nat): (b: Block)
    requires PlaybackValid(pb) && PositionInBounds(pb.src, position) && ValidState(env)
    ensures PositionInBounds(pb.src, b.position) && ValidState(b.envelope)
    ensures |b.played| <= n
    ensures b.cleared ==> |b.played| < n
    decreases n
  {
    if n == 0 then Block([], position, env, false)
    else
      match StepAt(pb.src, env.stage != Idle, position)
      case Stop(clear) => Block([], position, env, clear)
      case Play(p) =>
        var e := Next(env, pb.sustain, pb.rates);
        var rest := Render(pb, p + pb.ratio, e, n - 1);
        Block([Played(p, e.level)] + rest.played, rest.position, rest.envelope, rest.cleared)
  }

  /** Every sample a block emits is read inside the sound, at an envelope level in [0, 1]. */
  lemma {:induction false} RenderReadsInside(pb: Playback, position: real, env: State, n: nat)
    requires PlaybackValid(pb) && PositionInBounds(pb.src, position) && ValidState(env)
    ensures forall j :: 0 <= j < |Render(pb, position, env, n).played| ==> ReadsInside(pb.src, Render(pb, position, env, n).played[j])
    decreases n
  {
    if n > 0 {
      match StepAt(pb.src, env.stage != Idle, position)
      case Stop(_) =>
      case Play(p) =>
        StepAtIsSafe(pb.src, env.stage != Idle, position);
        var e := Next(env, pb.sustain, pb.rates);
        var pl := Played(p, e.level);
        assert TraceStep(pb, position, env, pl, p + pb.ratio, e);
        RenderPlays(pb, position, env, pl, p + pb.ratio, e, n, n - 1);
        RenderReadsInside(pb, p + pb.ratio, e, n - 1);
    }
  }

  /** `b` with `prefix` emitted before its samples. */
  function Extend(prefix: seq<Played>, b: Block): Block
  {
    b.(played := prefix + b.played)
  }

  /**
   * One iteration that emits `pl`: from `position` with envelope `env`,
   * `StepAt` plays at `pl`'s reads, the envelope steps to `env'` whose level
   * `pl` carries, and the position moves on by the ratio to `position'`.
   */
  ghost predicate TraceStep(pb: Playback, position: real, env: State, pl: Played, position': real, env': State)
    requires PlaybackValid(pb)
  {
    && PositionInBounds(pb.src, position) && ValidState(env)
    && StepAt(pb.src, env.stage != Idle, position) == Play(pl.position)
    && env' == Next(env, pb.sustain, pb.rates)
    && pl.level == env'.level
    && position' == pl.position + pb.ratio
  }

  /**
   * The iterations a render loop has run: `positions` and `envs` are the
   * states it passed through, `emitted` the samples it emitted between them.
   */
  ghost predicate Trace(pb: Playback, positions: seq<real>, envs: seq<State>, emitted: seq<Played>)
    requires PlaybackValid(pb)
  {
    && |positions| == |envs| == |emitted| + 1
    && PositionInBounds(pb.src, positions[|emitted|]) && ValidState(envs[|emitted|])
    && forall j :: 0 <= j < |emitted| ==> TraceStep(pb, positions[j], envs[j], emitted[j], positions[j + 1], envs[j + 1])
  }

  /**
   * A loop that has run the first `k` iterations of a trace has emitted the
   * first samples of `Render`'s block: the block from the first state is
   * those samples followed by the block from the `k`-th state.
   */
  lemma {:induction false} TraceRenders(pb: Playback, positions: seq<real>, envs: seq<State>, emitted: seq<Played>, n: nat, k: nat)
    requires PlaybackValid(pb) && Trace(pb, positions, envs, emitted) && |emitted| <= n && k <= |emitted|
    ensures PositionInBounds(pb.src, positions[0]) && ValidState(envs[0])
    ensures PositionInBounds(pb.src, positions[k]) && ValidState(envs[k])
    ensures Render(pb, positions[0], envs[0], n) == Extend(emitted[..k], Render(pb, positions[k], envs[k], n - k))
    decreases k
  {
    if |emitted| > 0 {
      assert TraceStep(pb, positions[0], envs[0], emitted[0], positions[1], envs[1]);
    }
    if k < |emitted| {
      assert TraceStep(pb, positions[k], envs[k], emitted[k], positions[k + 1], envs[k + 1]);
    }
    if k > 0 {
      TraceRenders(pb, positions, envs, emitted, n, k - 1);
      assert TraceStep(pb, positions[k - 1], envs[k - 1], emitted[k - 1], positions[k], envs[k]);
      RenderPlays(pb, positions[k - 1], envs[k - 1], emitted[k - 1], positions[k], envs[k], n - (k - 1), n - k);
      assert emitted[..k] == emitted[..k - 1] + [emitted[k - 1]];
      ExtendAppend(emitted[..k - 1], emitted[k - 1], Render(pb, positions[k - 1], envs[k - 1], n - (k - 1)),
                   Render(pb, positions[k], envs[k], n - k));
    }
  }

  /** A block that starts with an iteration that emits is that sample followed by the rest of the block. */
  lemma RenderPlays(pb: Playback, position: real, env: State, pl: Played, position': real, env': State, n: nat, n': nat)
    requires PlaybackValid(pb) && TraceStep(pb, position, env, pl, position', env') && n == n' + 1
    requires PositionInBounds(pb.src, position') && ValidState(env')
    ensures Render(pb, position, env, n) == Extend([pl], Render(pb, position', env', n'))
  {
  }

  /** Emitting a prefix before a block that starts with `pl` is emitting the longer prefix before the rest. */
  lemma ExtendAppend(prefix: seq<Played>, pl: Played, b: Block, b': Block)
    requires b == Extend([pl], b')
    ensures Extend(prefix, b) == Extend(prefix + [pl], b')
  {
    assert prefix + ([pl] + b'.played) == (prefix + [pl]) + b'.played;
  }

  /** `position` advanced `k` times by `ratio`. */
  function AdvancedBy(position: real, ratio: real, k: nat): real
    decreases k
  {
    if k == 0 then position else AdvancedBy(position + ratio, ratio, k - 1)
  }

  lemma {:induction false} AdvancedByIsLinear(position: real, ratio: real, k: nat)
    ensures AdvancedBy(position, ratio, k) == position + k as real * ratio
    decreases k
  {
    if k > 0 {
      AdvancedByIsLinear(position + ratio, ratio, k - 1);
      OneMoreStep(position, ratio, k - 1, AdvancedBy(position, ratio, k));
    }
  }

  lemma OneMoreStep(position: real, ratio: real, k: nat, end: real)
    requires end == position + ratio + k as real * ratio
    ensures end == position + (k + 1) as real * ratio
  {
  }

  /**
   * Without a loop, every emitted sample advances the position by exactly
   * the pitch ratio: after `k` samples the voice is `k` ratios further on
   * (which `AdvancedByIsLinear` puts as `position + k * ratio`).
   */
  lemma {:induction false} RenderAdvances(pb: Playback, position: real, env: State, n: nat)
    requires PlaybackValid(pb) && PositionInBounds(pb.src, position) && ValidState(env)
    requires !Looping(pb.src)
    ensures var b := Render(pb, position, env, n);
      b.position == AdvancedBy(position, pb.ratio, |b.played|)
    decreases n
  {
    if n > 0 {
      var st := StepAt(pb.src, env.stage != Idle, position);
      if st.Play? {
        var e := Next(env, pb.sustain, pb.rates);
        RenderAdvances(pb, st.position + pb.ratio, e, n - 1);
      }
    }
  }

  /**
   * With samples no louder than `bound` and a velocity in [0, 1], no value a
   * block adds is louder than `bound`.
   */
  lemma RenderOutputsBounded(pb: Playback, position: real, env: State, n: nat, bound: real)
    requires PlaybackValid(pb) && PositionInBounds(pb.src, position) && ValidState(env)
    requires 0.0 <= pb.velocity <= 1.0
    requires forall i :: 0 <= i < |pb.src.data| ==> -bound <= pb.src.data[i] <= bound
    ensures var b := Render(pb, position, env, n);
      forall j :: 0 <= j < |b.played| ==> -bound <= Value(pb, b.played[j]) <= bound
  {
    var b := Render(pb, position, env, n);
    RenderReadsInside(pb, position, env, n);
    forall j | 0 <= j < |b.played|
      ensures -bound <= Value(pb, b.played[j]) <= bound
    {
      PlayedValueBounded(pb, b.played[j], bound);
    }
  }

  /** One emitted value is no louder than the samples it blends. */
  lemma PlayedValueBounded(pb: Playback, pl: Played, bound: real)
    requires ReadsInside(pb.src, pl) && 0.0 <= pb.velocity <= 1.0
    requires forall i :: 0 <= i < |pb.src.data| ==> -bound <= pb.src.data[i] <= bound
    ensures -bound <= Value(pb, pl) <= bound
  {
    ReadableReadsInside(pb.src, pl.position);
    var v := Interpolate(pb.src.data, Trunc(pl.position), Index1(pb.src, pl.position), pl.position);
    InterpolationIsBetween(pb.src.data, Trunc(pl.position), Index1(pb.src, pl.position), pl.position);
    ScaledStaysBounded(v, pl.level, pb.velocity, bound);
  }

  lemma ScaledStaysBounded(v: real, level: real, velocity: real, bound: real)
    requires -bound <= v <= bound && 0.0 <= level <= 1.0 && 0.0 <= velocity <= 1.0
    ensures -bound <= v * level * velocity <= bound
  {
    var g := level * velocity;
    FractionOf(velocity, level, g);
    var p := v * level * velocity;
    assert p == g * v;
    if v >= 0.0 {
      FractionOf(g, v, p);
    } else {
      var q := g * -v;
      FractionOf(g, -v, q);
      NegatedProduct(g, -v, q, v, p);
    }
  }

  /**
   * A block boundary changes nothing: a block of `n + k` samples emits what a
   * block of `n` samples followed by a block of `k` samples emits, unless the
   * first block released the note (after which the voice is not rendered).
   */
  lemma {:induction false} BlocksCompose(pb: Playback, position: real, env: State, n: nat, k: nat)
    requires PlaybackValid(pb) && PositionInBounds(pb.src, position) && ValidState(env)
    ensures var first := Render(pb, position, env, n);
      !first.cleared ==>
        Render(pb, position, env, n + k) == Extend(first.played, Render(pb, first.position, first.envelope, k))
    decreases n
  {
    if n > 0 && StepAt(pb.src, env.stage != Idle, position).Play? {
      var st := StepAt(pb.src, env.stage != Idle, position);
      StepAtIsSafe(pb.src, env.stage != Idle, position);
      var e := Next(env, pb.sustain, pb.rates);
      BlocksCompose(pb, st.position + pb.ratio, e, n - 1, k);
      ComposeAfterPlay(pb, position, env, st.position + pb.ratio, e, n, k);
    } else {
      ComposeAfterStop(pb, position, env, n, k);
    }
  }

  /** The step of `BlocksCompose` where the first iteration emits. */
  lemma ComposeAfterPlay(pb: Playback, position: real, env: State, position': real, env': State, n: nat, k: nat)
    requires PlaybackValid(pb) && PositionInBounds(pb.src, position) && ValidState(env) && n > 0
    requires StepAt(pb.src, env.stage != Idle, position).Play?
    requires position' == StepAt(pb.src, env.stage != Idle, position).position + pb.ratio
    requires env' == Next(env, pb.sustain, pb.rates)
    requires PositionInBounds(pb.src, position') && ValidState(env')
    requires var first := Render(pb, position', env', n - 1);
      !first.cleared ==>
        Render(pb, position', env', n - 1 + k) == Extend(first.played, Render(pb, first.position, first.envelope, k))
    ensures var first := Render(pb, position, env, n);
      !first.cleared ==>
        Render(pb, position, env, n + k) == Extend(first.played, Render(pb, first.position, first.envelope, k))
  {
    var pl := Played(position' - pb.ratio, env'.level);
    assert TraceStep(pb, position, env, pl, position', env');
    RenderPlays(pb, position, env, pl, position', env', n, n - 1);
    RenderPlays(pb, position, env, pl, position', env', n + k, n - 1 + k);
    var first := Render(pb, position', env', n - 1);
    ExtendComposes(pl, Render(pb, position, env, n), first,
                   Render(pb, position, env, n + k), Render(pb, position', env', n - 1 + k),
                   Render(pb, first.position, first.envelope, k));
  }

  /** The cases of `BlocksCompose` where the first block emits nothing. */
  lemma ComposeAfterStop(pb: Playback, position: real, env: State, n: nat, k: nat)
    requires PlaybackValid(pb) && PositionInBounds(pb.src, position) && ValidState(env)
    requires n == 0 || StepAt(pb.src, env.stage != Idle, position).Stop?
    ensures var first := Render(pb, position, env, n);
      !first.cleared ==>
        Render(pb, position, env, n + k) == Extend(first.played, Render(pb, first.position, first.envelope, k))
  {
    if n > 0 && StepAt(pb.src, env.stage != Idle, position) == Stop(false) {
      StalledRenderRepeats(pb, position, env, n);
      StalledRenderRepeats(pb, position, env, n + k);
      StalledRenderRepeats(pb, position, env, k);
    }
    ExtendNothing(Render(pb, position, env, k));
  }

  /** Emitting `pl` before two blocks that compose gives two blocks that compose. */
  lemma ExtendComposes(pl: Played, first: Block, first': Block, whole: Block, whole': Block, rest: Block)
    requires first == Extend([pl], first') && whole == Extend([pl], whole')
    requires !first'.cleared ==> whole' == Extend(first'.played, rest)
    ensures !first.cleared ==> whole == Extend(first.played, rest)
  {
    assert [pl] + (first'.played + rest.played) == ([pl] + first'.played) + rest.played;
  }

  /** Emitting nothing first changes nothing. */
  lemma ExtendNothing(b: Block)
    ensures Extend([], b) == b
  {
    assert [] + b.played == b.played;
  }

  /**
   * A voice that does not loop and whose next read would pass the last
   * sample stops each block at once, without moving, without stepping its
   * envelope and without releasing the note: every later block does the same.
   */
  lemma StalledRenderRepeats(pb: Playback, position: real, env: State, n: nat)
    requires PlaybackValid(pb) && PositionInBounds(pb.src, position) && ValidState(env)
    requires StepAt(pb.src, env.stage != Idle, position) == Stop(false)
    ensures Render(pb, position, env, n) == Block([], position, env, false)
  {
  }

  /**
   * After note-off, a looping voice is released within `k` samples once
   * `k` release steps exceed the envelope level, provided the block is longer
   * than that.
   */
  lemma {:induction false} ReleasedLoopingVoiceIsFreed(pb: Playback, position: real, env: State, n: nat, k: nat)
    requires PlaybackValid(pb) && PositionInBounds(pb.src, position) && ValidState(env)
    requires Looping(pb.src) && pb.rates.release > 0.0
    requires env.stage in {Release, Idle} && (env.stage == Idle || env.level < k as real * pb.rates.release)
    requires n > k
    ensures Render(pb, position, env, n).cleared
    ensures |Render(pb, position, env, n).played| <= k
    decreases k
  {
    if env.stage != Idle {
      LoopingStepWraps(pb.src, position);
      var st := StepAt(pb.src, true, position);
      var e := Next(env, pb.sustain, pb.rates);
      if e.stage != Idle {
        assert e.level == env.level - pb.rates.release;
      }
      ReleasedLoopingVoiceIsFreed(pb, st.position + pb.ratio, e, n - 1, k - 1);
    }
  }

  // ---------------------------------------------------------------------------
  // The voice

  /** The samples and loop bounds of `s`, as render reads them. */
  function SourceOf(s: SamplerSound): Source
    reads s
  {
    Source(s.audioData, s.loopStart, s.loopEnd)
  }

  /** A sound handed to a voice: one of ours, or some other kind of sound. */
  datatype SoundRef = Sampler(sound: SamplerSound) | OtherSound

  class SamplerVoice {
    var pitchRatio: real
    var sourceSamplePosition: real
    var currentVelocity: real
    const adsr: Adsr
    /** The sound the voice is playing; null when it is free. */
    var current: SamplerSound?

    /** A new voice: unit ratio, at the start, silent, free, with the voice envelope settings. */
    constructor ()
      ensures pitchRatio == 1.0 && sourceSamplePosition == 0.0 && currentVelocity == 0.0
      ensures current == null
      ensures fresh(adsr) && adsr.Valid()
      ensures adsr.params == VoiceDefaults && adsr.state == State(Idle, 0.0)
    {
      pitchRatio := 1.0;
      sourceSamplePosition := 0.0;
      currentVelocity := 0.0;
      current := null;
      var envelope := new Adsr();
      envelope.SetParameters(VoiceDefaults);
      adsr := envelope;
    }

    /** The voice plays only sounds of its own kind. */
    function CanPlaySound(sound: SoundRef): (can: bool)
    {
      sound.Sampler?
    }

    function PlaybackOf(s: SamplerSound): Playback
      reads this, adsr, s
    {
      Playback(SourceOf(s), pitchRatio, currentVelocity, adsr.params.sustain, adsr.CurrentRates())
    }

    /** The state from which the next block can be rendered without overrunning the sample. */
    ghost predicate ReadyToRender()
      reads this, adsr, current
    {
      && adsr.Valid()
      && (current != null ==>
            RatioFits(SourceOf(current), pitchRatio) && PositionInBounds(SourceOf(current), sourceSamplePosition))
    }

    /**
     * Starts a note on a sound of our kind: stores the velocity, rewinds to
     * the first sample, sets the ratio for the note, adopts the sound's
     * sample rate and opens the envelope. Any other sound is ignored.
     */
    method StartNote(midiNote: int, velocity: real, sound: SoundRef, m: MathLib)
      requires adsr.Valid()
      modifies this`currentVelocity, this`sourceSamplePosition, this`pitchRatio, this`current, adsr`state, adsr`sampleRate
      ensures adsr.Valid()
      ensures !CanPlaySound(sound) ==>
        && currentVelocity == old(currentVelocity) && sourceSamplePosition == old(sourceSamplePosition)
        && pitchRatio == old(pitchRatio) && current == old(current)
        && adsr.state == old(adsr.state) && adsr.sampleRate == old(adsr.sampleRate)
      ensures CanPlaySound(sound) ==>
        && currentVelocity == velocity && sourceSamplePosition == 0.0
        && pitchRatio == PitchRatio(m, midiNote, sound.sound.rootNote)
        && current == sound.sound
        && adsr.sampleRate == sound.sound.sourceSampleRate
        && adsr.state == State(Attack, old(adsr.state.level))
      ensures CanPlaySound(sound) && RatioFits(SourceOf(sound.sound), pitchRatio) ==> ReadyToRender()
    {
      if sound.Sampler? {
        var samplerSound := sound.sound;
        currentVelocity := velocity;
        sourceSamplePosition := 0.0;
        UpdatePitchRatio(midiNote, samplerSound, m);
        adsr.SetSampleRate(samplerSound.sourceSampleRate);
        adsr.NoteOn();
        current := samplerSound;
      }
    }

    method UpdatePitchRatio(midiNote: int, sound: SamplerSound, m: MathLib)
      modifies this`pitchRatio
      ensures pitchRatio == PitchRatio(m, midiNote, sound.rootNote)
    {
      var semitoneOffset := midiNote - sound.rootNote;
      pitchRatio := Pow(m, 2.0, semitoneOffset as real / 12.0);
    }

    /**
     * Ends a note: with a tail, by releasing the envelope; without, by
     * freeing the voice and silencing the envelope at once.
     */
    method StopNote(velocity: real, allowTailOff: bool)
      requires adsr.Valid()
      modifies this`current, adsr`state
      ensures adsr.Valid()
      ensures allowTailOff ==>
        && current == old(current)
        && adsr.state == if old(adsr.state.stage) == Idle then old(adsr.state) else State(Release, old(adsr.state.level))
      ensures !allowTailOff ==> current == null && adsr.state == State(Idle, 0.0)
    {
      if allowTailOff {
        adsr.NoteOff();
      } else {
        ClearCurrentNote();
        adsr.Reset();
      }
    }

    /** Marks the voice free. */
    method ClearCurrentNote()
      modifies this`current
      ensures current == null
    {
      current := null;
    }

    /**
     * Renders `numSamples` samples into `outputBuffer` from `startSample` on,
     * as `Render` says: the values are added (never stored) at
     * `startSample + j` on every channel, nothing else in the buffer changes,
     * and the voice ends at the block's final position and envelope state,
     * released exactly when `Render` says so. A free voice renders nothing.
     */
    method RenderNextBlock(outputBuffer: array2<real>, startSample: int, numSamples: int)
      requires ReadyToRender()
      requires 0 <= startSample && 0 <= numSamples && startSample + numSamples <= outputBuffer.Length1
      modifies this`sourceSamplePosition, this`current, adsr`state, outputBuffer
      ensures ReadyToRender()
      ensures old(current) == null ==>
        && current == null && sourceSamplePosition == old(sourceSamplePosition) && adsr.state == old(adsr.state)
        && forall c, k :: 0 <= c < outputBuffer.Length0 && 0 <= k < outputBuffer.Length1 ==> outputBuffer[c, k] == old(outputBuffer[c, k])
      ensures old(current) != null ==>
        var pb := old(PlaybackOf(current));
        var b := Render(pb, old(sourceSamplePosition), old(adsr.state), numSamples);
        && sourceSamplePosition == b.position
        && adsr.state == b.envelope
        && current == (if b.cleared then null else old(current))
        && (forall c, k :: 0 <= c < outputBuffer.Length0 && startSample <= k < startSample + |b.played| ==>
              outputBuffer[c, k] == old(outputBuffer[c, k]) + Value(pb, b.played[k - startSample]))
        && (forall c, k :: 0 <= c < outputBuffer.Length0 && 0 <= k < outputBuffer.Length1 && !(startSample <= k < startSample + |b.played|) ==>
              outputBuffer[c, k] == old(outputBuffer[c, k]))
    {
      var samplerSound := current;
      if samplerSound == null {
        return;
      }
      ghost var pb := PlaybackOf(samplerSound);
      ghost var positions, envs, emitted := RenderFrom(outputBuffer, startSample, numSamples, samplerSound);
      TraceRenders(pb, positions, envs, emitted, numSamples, |emitted|);
      assert emitted[..|emitted|] == emitted;
      assert Render(pb, sourceSamplePosition, adsr.state, numSamples - |emitted|)
          == Block([], sourceSamplePosition, adsr.state, current == null);
    }

    /**
     * The render loop for the sound the voice is playing. It runs the
     * iterations of a trace from the voice's state, adding each emitted
     * sample to the buffer, and ends either after `numSamples` samples or
     * where `StepAt` stops, releasing the note when the stop says so.
     */
    method RenderFrom(outputBuffer: array2<real>, startSample: int, numSamples: int, samplerSound: SamplerSound)
      returns (ghost positions: seq<real>, ghost envs: seq<State>, ghost emitted: seq<Played>)
      requires current == samplerSound && ReadyToRender()
      requires 0 <= startSample && 0 <= numSamples && startSample + numSamples <= outputBuffer.Length1
      modifies this`sourceSamplePosition, this`current, adsr`state, outputBuffer
      ensures adsr.Valid() && PlaybackValid(old(PlaybackOf(samplerSound)))
      ensures Trace(old(PlaybackOf(samplerSound)), positions, envs, emitted) && |emitted| <= numSamples
      ensures positions[0] == old(sourceSamplePosition) && envs[0] == old(adsr.state)
      ensures sourceSamplePosition == positions[|emitted|] && adsr.state == envs[|emitted|]
      ensures || (|emitted| == numSamples && current == samplerSound)
              || (|emitted| < numSamples && current in {null, samplerSound}
                  && StepAt(old(PlaybackOf(samplerSound)).src, adsr.state.stage != Idle, sourceSamplePosition) == Stop(current == null))
      ensures forall j :: 0 <= j < |emitted| ==> ReadsInside(old(PlaybackOf(samplerSound)).src, emitted[j])
      ensures forall c, k :: 0 <= c < outputBuffer.Length0 && startSample <= k < startSample + |emitted| ==>
        outputBuffer[c, k] == old(outputBuffer[c, k]) + Value(old(PlaybackOf(samplerSound)), emitted[k - startSample])
      ensures forall c, k :: 0 <= c < outputBuffer.Length0 && 0 <= k < outputBuffer.Length1 && !(startSample <= k < startSample + |emitted|) ==>
        outputBuffer[c, k] == old(outputBuffer[c, k])
    {
      ghost var pb := PlaybackOf(samplerSound);
      var sourceBuffer := samplerSound.audioData;
      var sourceLength := |sourceBuffer|;
      var loopStart := samplerSound.loopStart;
      var loopEnd := samplerSound.loopEnd;
      var looping := loopEnd > loopStart && loopEnd <= sourceLength;
      positions, envs, emitted := [sourceSamplePosition], [adsr.state], [];
      var i := 0;
      var stopped := false;
      while i < numSamples && !stopped
        invariant 0 <= i <= numSamples && |emitted| == i
        invariant adsr.Valid() && pb == PlaybackOf(samplerSound)
        invariant Trace(pb, positions, envs, emitted)
        invariant positions[0] == old(sourceSamplePosition) && envs[0] == old(adsr.state)
        invariant sourceSamplePosition == positions[i] && adsr.state == envs[i]
        invariant !stopped ==> current == samplerSound
        invariant stopped ==>
          && i < numSamples && current in {null, samplerSound}
          && StepAt(pb.src, adsr.state.stage != Idle, sourceSamplePosition) == Stop(current == null)
        invariant forall j :: 0 <= j < i ==> ReadsInside(pb.src, emitted[j])
        invariant forall c, k :: 0 <= c < outputBuffer.Length0 && startSample <= k < startSample + i ==>
          outputBuffer[c, k] == old(outputBuffer[c, k]) + Value(pb, emitted[k - startSample])
        invariant forall c, k :: 0 <= c < outputBuffer.Length0 && 0 <= k < outputBuffer.Length1 && !(startSample <= k < startSample + i) ==>
          outputBuffer[c, k] == old(outputBuffer[c, k])
        decreases numSamples - i, if stopped then 0 else 1
      {
        ghost var st := StepAt(pb.src, adsr.state.stage != Idle, sourceSamplePosition);
        ghost var env := adsr.state;
        stopped := RenderSample(outputBuffer, startSample + i, sourceBuffer, sourceLength, loopStart, loopEnd, looping, pb);
        if !stopped {
          ghost var played := Played(st.position, adsr.state.level);
          assert TraceStep(pb, positions[i], env, played, sourceSamplePosition, adsr.state);
          emitted := emitted + [played];
          positions := positions + [sourceSamplePosition];
          envs := envs + [adsr.state];
          i := i + 1;
        }
      }
    }

    /**
     * One iteration of the render loop, adding at `index`: it stops where
     * `StepAt` does, and otherwise adds the `Value` of the sample it reads and
     * steps the envelope and the position.
     */
    method RenderSample(outputBuffer: array2<real>, index: int, sourceBuffer: seq<real>, sourceLength: int,
                        loopStart: int, loopEnd: int, looping: bool, ghost pb: Playback) returns (stop: bool)
      requires current != null && adsr.Valid() && pb == PlaybackOf(current)
      requires PlaybackValid(pb) && PositionInBounds(pb.src, sourceSamplePosition)
      requires pb.src == Source(sourceBuffer, loopStart, loopEnd) && sourceLength == |sourceBuffer|
      requires looping == Looping(pb.src)
      requires 0 <= index < outputBuffer.Length1
      modifies this`sourceSamplePosition, this`current, adsr`state, outputBuffer
      ensures adsr.Valid()
      ensures var st := StepAt(pb.src, old(adsr.state.stage) != Idle, old(sourceSamplePosition));
        && stop == st.Stop?
        && (st.Stop? ==>
              && sourceSamplePosition == old(sourceSamplePosition) && adsr.state == old(adsr.state)
              && current == (if st.clearNote then null else old(current)) && unchanged(outputBuffer))
        && (st.Play? ==>
              && current == old(current)
              && adsr.state == Next(old(adsr.state), pb.sustain, pb.rates)
              && sourceSamplePosition == st.position + pb.ratio
              && (forall c :: 0 <= c < outputBuffer.Length0 ==>
                    outputBuffer[c, index] == old(outputBuffer[c, index]) + Value(pb, Played(st.position, adsr.state.level)))
              && (forall c, k :: 0 <= c < outputBuffer.Length0 && 0 <= k < outputBuffer.Length1 && k != index ==>
                    outputBuffer[c, k] == old(outputBuffer[c, k])))
    {
      var index0, index1;
      stop, index0, index1 := ReadPosition(sourceLength, loopStart, loopEnd, looping, pb);
      if !stop {
        EmitSample(outputBuffer, index, sourceBuffer, index0, index1, pb);
      }
    }

    /**
     * The first half of an iteration: the stop checks, the wrap, and the two
     * indices read, as `StepAt` and `Index1` say.
     */
    method ReadPosition(sourceLength: int, loopStart: int, loopEnd: int, looping: bool, ghost pb: Playback)
      returns (stop: bool, index0: int, index1: int)
      requires current != null && adsr.Valid() && pb == PlaybackOf(current)
      requires PlaybackValid(pb) && PositionInBounds(pb.src, sourceSamplePosition)
      requires pb.src.loopStart == loopStart && pb.src.loopEnd == loopEnd && sourceLength == |pb.src.data|
      requires looping == Looping(pb.src)
      modifies this`sourceSamplePosition, this`current
      ensures var st := StepAt(pb.src, adsr.state.stage != Idle, old(sourceSamplePosition));
        && stop == st.Stop?
        && (st.Stop? ==> sourceSamplePosition == old(sourceSamplePosition) && current == (if st.clearNote then null else old(current)))
        && (st.Play? ==>
              && current == old(current) && sourceSamplePosition == st.position
              && Readable(pb.src, st.position) && PositionInBounds(pb.src, st.position)
              && index0 == Trunc(st.position) && index1 == Index1(pb.src, st.position))
    {
      StepAtIsSafe(pb.src, adsr.IsActive(), sourceSamplePosition);
      // Stop when the envelope has ended or a one-shot sound has run out.
      if !adsr.IsActive() || (sourceSamplePosition >= sourceLength as real && !looping) {
        ClearCurrentNote();
        return true, 0, 0;
      }
      // One wrap back into the loop.
      if looping && sourceSamplePosition >= loopEnd as real {
        sourceSamplePosition := loopStart as real + (sourceSamplePosition - loopEnd as real);
      }
      index0 := Trunc(sourceSamplePosition);
      index1 := index0 + 1;
      StallTest(sourceSamplePosition, sourceLength);
      if index1 >= sourceLength {
        if !looping {
          return true, index0, index1;
        }
        index1 := loopStart;
      }
      stop := false;
    }

    /**
     * The second half of an iteration: the interpolated read, the envelope,
     * the write to every channel and the advance by the pitch ratio.
     */
    method EmitSample(outputBuffer: array2<real>, index: int, sourceBuffer: seq<real>, index0: int, index1: int, ghost pb: Playback)
      requires current != null && adsr.Valid() && pb == PlaybackOf(current)
      requires PlaybackValid(pb) && pb.src.data == sourceBuffer && Readable(pb.src, sourceSamplePosition)
      requires index0 == Trunc(sourceSamplePosition) && index1 == Index1(pb.src, sourceSamplePosition)
      requires 0 <= index < outputBuffer.Length1
      modifies this`sourceSamplePosition, adsr`state, outputBuffer
      ensures adsr.Valid()
      ensures adsr.state == Next(old(adsr.state), pb.sustain, pb.rates)
      ensures sourceSamplePosition == old(sourceSamplePosition) + pb.ratio
      ensures forall c :: 0 <= c < outputBuffer.Length0 ==>
        outputBuffer[c, index] == old(outputBuffer[c, index]) + Value(pb, Played(old(sourceSamplePosition), adsr.state.level))
      ensures forall c, k :: 0 <= c < outputBuffer.Length0 && 0 <= k < outputBuffer.Length1 && k != index ==>
        outputBuffer[c, k] == old(outputBuffer[c, k])
    {
      ReadableReadsInside(pb.src, sourceSamplePosition);
      var interpolatedSample := InterpolateAt(sourceBuffer, index0, index1, sourceSamplePosition);
      // Envelope and velocity.
      var velocity := currentVelocity;
      var envelope := adsr.GetNextSample();
      var outputSample := interpolatedSample * envelope * velocity;
      ValueOfRead(pb, Played(sourceSamplePosition, envelope), index0, index1, interpolatedSample, envelope, velocity, outputSample);
      AddToChannels(outputBuffer, index, outputSample);
      // Advance by the pitch ratio.
      sourceSamplePosition := sourceSamplePosition + pitchRatio;
    }
  }

  /** Linear interpolation between the samples at `index0` and `index1`. */
  method InterpolateAt(data: seq<real>, index0: int, index1: int, position: real) returns (v: real)
    requires 0 <= index0 < |data| && 0 <= index1 < |data|
    ensures v == Interpolate(data, index0, index1, position)
  {
    var frac := position - index0 as real;
    var sample0 := data[index0];
    var sample1 := data[index1];
    v := sample0 + frac * (sample1 - sample0);
  }

  /** The envelope and velocity scaling of the render loop computes `Value`. */
  lemma ValueOfRead(pb: Playback, pl: Played, index0: int, index1: int, interpolated: real, level: real, velocity: real, out: real)
    requires ReadsInside(pb.src, pl)
    requires index0 == Trunc(pl.position) && index1 == Index1(pb.src, pl.position)
    requires 0 <= index0 < |pb.src.data| && 0 <= index1 < |pb.src.data|
    requires interpolated == Interpolate(pb.src.data, index0, index1, pl.position)
    requires level == pl.level && velocity == pb.velocity && out == interpolated * level * velocity
    ensures out == Value(pb, pl)
  {
  }

  /** Adds `value` at `index` on every channel of `buffer`, and changes nothing else. */
  method AddToChannels(buffer: array2<real>, index: int, value: real)
    requires 0 <= index < buffer.Length1
    modifies buffer
    ensures forall c :: 0 <= c < buffer.Length0 ==> buffer[c, index] == old(buffer[c, index]) + value
    ensures forall c, k :: 0 <= c < buffer.Length0 && 0 <= k < buffer.Length1 && k != index ==> buffer[c, k] == old(buffer[c, k])
  {
    var channel := 0;
    while channel < buffer.Length0
      invariant 0 <= channel <= buffer.Length0
      invariant forall c :: 0 <= c < channel ==> buffer[c, index] == old(buffer[c, index]) + value
      invariant forall c, k :: 0 <= c < buffer.Length0 && 0 <= k < buffer.Length1 && (k != index || c >= channel) ==> buffer[c, k] == old(buffer[c, k])
    {
      buffer[channel, index] := buffer[channel, index] + value;
      channel := channel + 1;
    }
  }
}
