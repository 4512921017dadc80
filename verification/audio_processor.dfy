/**
 * The post-processing of `backend/audio_processor.py`. Audio is a term of
 * the editing operations the effects use (gain, silence, concatenation,
 * overlay, trimming, re-interpreting and resampling the frame rate), so the
 * effects can be stated on the structure they build; decoding, exporting,
 * loudness measurement and the `2 ** (semitones / 12)` factor belong to the
 * audio library and are parameters.
 */
module AudioProcessor {
  import opened Wrappers
  import opened Emotions
  import Base64

  type bytes = seq<Base64.byte>

  /** An audio segment, as the operations that built it. Lengths are milliseconds. */
  datatype Audio =
    | Source(ms: nat, rate: int)               // decoded from WAV bytes
    | Gain(audio: Audio, db: real)             // `audio + db`, `audio - db`, `apply_gain(db)`
    | Silence(ms: nat, rate: int)              // `AudioSegment.silent(duration, frame_rate)`
    | Then(first: Audio, second: Audio)        // `first + second`
    | Overlay(base: Audio, top: Audio)         // `base.overlay(top)`
    | Take(audio: Audio, ms: nat)              // `audio[:ms]`
    | Respawn(audio: Audio, rate: int)         // same frames, new frame rate (`_spawn`)
    | Resample(audio: Audio, rate: int)        // `set_frame_rate(rate)`

  /** The measured level of a segment: `dBFS`, which is minus infinity for digital silence. */
  datatype Loudness = Db(db: real) | Silent

  /** What the audio library provides; `None` from a step is an exception it raised. */
  datatype Library = Library(
    decode: bytes -> Option<Audio>,
    encode: Audio -> Option<bytes>,
    level: Audio -> Loudness,
    rateChange: real -> real)

  function Max(a: int, b: int): int
  {
    if a >= b then a else b
  }

  function Min(a: int, b: int): int
  {
    if a <= b then a else b
  }

  /** `max(lo, min(hi, x))`. */
  function Clamp(x: real, lo: real, hi: real): (r: real)
    requires lo <= hi
    ensures lo <= r <= hi
    ensures lo <= x <= hi ==> r == x
    ensures x < lo ==> r == lo
    ensures x > hi ==> r == hi
  {
    if x < lo then lo else if x > hi then hi else x
  }

  /** The frame rate; combining two segments syncs them to the higher rate. */
  function FrameRate(a: Audio): int
  {
    match a
    case Source(_, rate) => rate
    case Gain(x, _) => FrameRate(x)
    case Silence(_, rate) => rate
    case Then(x, y) => Max(FrameRate(x), FrameRate(y))
    case Overlay(x, y) => Max(FrameRate(x), FrameRate(y))
    case Take(x, _) => FrameRate(x)
    case Respawn(_, rate) => rate
    case Resample(_, rate) => rate
  }

  /**
   * `len(audio)`. An overlay keeps the base's length, a slice is at most its
   * bound, resampling keeps the duration, and re-interpreting the frames at
   * another rate stretches or shrinks it (to whole milliseconds).
   */
  function Length(a: Audio): nat
  {
    match a
    case Source(ms, _) => ms
    case Gain(x, _) => Length(x)
    case Silence(ms, _) => ms
    case Then(x, y) => Length(x) + Length(y)
    case Overlay(x, _) => Length(x)
    case Take(x, ms) => Min(ms, Length(x))
    case Respawn(x, rate) => if rate <= 0 then 0 else Length(x) * Max(FrameRate(x), 0) / rate
    case Resample(x, _) => Length(x)
  }

  // ---------------------------------------------------------------------------
  // normalize_audio
  // ---------------------------------------------------------------------------

  const TargetLevel: real := -20.0

  /** The gain towards -20 dBFS, limited to 20 dB either way; silence gets the full boost. */
  function NormalizeGain(level: Loudness): (g: real)
    ensures -20.0 <= g <= 20.0
  {
    match level
    case Silent => 20.0
    case Db(d) => Clamp(TargetLevel - d, -20.0, 20.0)
  }

  /** `normalize_audio(audio)` for the level the library measures. */
  function NormalizeAudio(a: Audio, level: Loudness): (r: Audio)
    ensures Length(r) == Length(a) && FrameRate(r) == FrameRate(a)
  {
    Gain(a, NormalizeGain(level))
  }

  /**
   * A level within 20 dB of the target lands on it; any other level moves
   * 20 dB towards it and does not cross it.
   */
  lemma {:induction false} NormalizeTowardsTarget(d: real)
    ensures var after := d + NormalizeGain(Db(d));
      && (-40.0 <= d <= 0.0 ==> after == TargetLevel)
      && (d > 0.0 ==> after == d - 20.0 && TargetLevel < after)
      && (d < -40.0 ==> after == d + 20.0 && after < TargetLevel)
  {
  }

  // ---------------------------------------------------------------------------
  // apply_pitch_shift
  // ---------------------------------------------------------------------------

  /** Python's `int(x)`: truncation towards zero. */
  function Trunc(x: real): (n: int)
    ensures x >= 0.0 ==> n as real <= x < n as real + 1.0
    ensures x < 0.0 ==> n as real - 1.0 < x <= n as real
  {
    if x >= 0.0 then x.Floor else -((-x).Floor)
  }

  /** The frame rate the frames are re-interpreted at, for rate change factor `factor`. */
  function ShiftedRate(rate: int, factor: real): int
  {
    Trunc(rate as real * factor)
  }

  /** `apply_pitch_shift(audio, semitones)`, where `factor` is `2 ** (semitones / 12)`. */
  function PitchShift(a: Audio, factor: real): (r: Audio)
    ensures FrameRate(r) == FrameRate(a)
  {
    Resample(Respawn(a, ShiftedRate(FrameRate(a), factor)), FrameRate(a))
  }

  /**
   * The shift plays the same frames at the truncated rate `rate * factor` and
   * resamples the result back to the original rate; a factor of one keeps
   * the rate, and a larger factor never gives a lower intermediate rate.
   */
  lemma {:induction false} PitchShiftRates(a: Audio, factor: real, factor': real)
    requires FrameRate(a) >= 0 && factor <= factor'
    ensures PitchShift(a, factor).audio.rate == ShiftedRate(FrameRate(a), factor)
    ensures ShiftedRate(FrameRate(a), 1.0) == FrameRate(a)
    ensures factor >= 0.0 ==> ShiftedRate(FrameRate(a), factor) <= ShiftedRate(FrameRate(a), factor')
  {
    ShiftedRateUnit(FrameRate(a));
    if factor >= 0.0 {
      ShiftedRateMonotone(FrameRate(a), factor, factor');
    }
  }

  lemma {:induction false} ShiftedRateUnit(rate: int)
    requires rate >= 0
    ensures ShiftedRate(rate, 1.0) == rate
  {
    assert rate as real * 1.0 == rate as real;
  }

  lemma {:induction false} ShiftedRateMonotone(rate: int, factor: real, factor': real)
    requires rate >= 0 && 0.0 <= factor <= factor'
    ensures ShiftedRate(rate, factor) <= ShiftedRate(rate, factor')
  {
    var r := rate as real;
    assert 0.0 <= r * factor;
    assert r * factor <= r * factor' by {
      assert r * (factor' - factor) >= 0.0;
    }
    TruncMonotone(r * factor, r * factor');
  }

  /**
   * The shift does not keep the duration: a factor of at least one never
   * lengthens the audio, and shortens it whenever the intermediate rate
   * rises; a factor that lowers the rate never shortens it.
   */
  lemma {:induction false} PitchShiftLength(a: Audio, factor: real)
    requires FrameRate(a) > 0
    ensures var n := ShiftedRate(FrameRate(a), factor);
      && (factor >= 1.0 ==> FrameRate(a) <= n && Length(PitchShift(a, factor)) <= Length(a))
      && (FrameRate(a) < n && Length(a) > 0 ==> Length(PitchShift(a, factor)) < Length(a))
      && (0 < n <= FrameRate(a) ==> Length(a) <= Length(PitchShift(a, factor)))
  {
    var r := FrameRate(a);
    var n := ShiftedRate(r, factor);
    PitchShiftStretch(a, factor);
    if factor >= 1.0 {
      ShiftedRateAtLeast(r, factor);
    }
    if 0 < n {
      ScaledQuotient(Length(a), r, n);
    }
  }

  /** The shifted audio lasts the input's length times the old rate over the new one. */
  lemma {:induction false} PitchShiftStretch(a: Audio, factor: real)
    requires FrameRate(a) > 0
    ensures var n := ShiftedRate(FrameRate(a), factor);
      Length(PitchShift(a, factor)) == if n <= 0 then 0 else Length(a) * FrameRate(a) / n
  {
  }

  /** A factor of at least one never lowers a positive rate. */
  lemma {:induction false} ShiftedRateAtLeast(rate: int, factor: real)
    requires rate > 0 && factor >= 1.0
    ensures rate <= ShiftedRate(rate, factor)
  {
    var x := rate as real * factor;
    assert x >= rate as real by {
      assert rate as real * (factor - 1.0) >= 0.0;
    }
    assert Trunc(x) as real + 1.0 > x;
  }

  /** `len * r / n` compared with `len`, as `r` compares with `n`. */
  lemma {:induction false} ScaledQuotient(len: nat, r: nat, n: int)
    requires 0 < n
    ensures r <= n ==> len * r / n <= len
    ensures r < n && len > 0 ==> len * r / n < len
    ensures n <= r ==> len <= len * r / n
  {
    var m := len * r;
    if r <= n {
      MulLe(len, r, n);
      QuotientAtMost(m, len, n);
    }
    if r < n && len > 0 {
      MulLt(len, r, n);
      QuotientBelow(m, len, n);
    }
    if n <= r {
      MulLe(len, n, r);
      QuotientAtLeast(m, len, n);
    }
  }

  lemma {:induction false} MulLe(len: nat, a: int, b: int)
    requires a <= b
    ensures len * a <= len * b
  {
    assert len * b - len * a == len * (b - a);
  }

  lemma {:induction false} MulLt(len: nat, a: int, b: int)
    requires a < b && len > 0
    ensures len * a < len * b
  {
    assert len * b - len * a == len * (b - a);
  }

  /** A quotient by `n` of something at most `k * n` is at most `k`. */
  lemma {:induction false} QuotientAtMost(m: nat, k: nat, n: int)
    requires 0 < n && m <= k * n
    ensures m / n <= k
  {
  }

  /** A quotient by `n` of something below `k * n` is below `k`. */
  lemma {:induction false} QuotientBelow(m: nat, k: nat, n: int)
    requires 0 < n && m < k * n
    ensures m / n < k
  {
  }

  /** A quotient by `n` of something at least `k * n` is at least `k`. */
  lemma {:induction false} QuotientAtLeast(m: nat, k: nat, n: int)
    requires 0 < n && k * n <= m
    ensures k <= m / n
  {
    var q := m / n;
    assert m - q * n < n;
    if q < k {
      MulStep(n, q);
      MulLe(n, q + 1, k);
    }
  }

  lemma {:induction false} MulStep(n: int, q: int)
    ensures n * (q + 1) == q * n + n
  {
  }

  /** Truncation of non-negative values is monotone. */
  lemma {:induction false} TruncMonotone(x: real, y: real)
    requires 0.0 <= x <= y
    ensures Trunc(x) <= Trunc(y)
  {
    assert Trunc(x) as real <= x;
    assert y < Trunc(y) as real + 1.0;
  }

  // ---------------------------------------------------------------------------
  // apply_reverb
  // ---------------------------------------------------------------------------

  /** One reflection: its delay in milliseconds and its level relative to the input. */
  datatype Tap = Tap(delay: nat, level: real)

  const Taps: seq<Tap> := [Tap(50, 0.4), Tap(100, 0.25), Tap(150, 0.15), Tap(200, 0.08)]

  /** The gain of the dry signal: `-(20 * (1 - dry_level))` with `dry_level = 1 - amount * 0.3`. */
  function DryGain(amount: real): real
  {
    -(20.0 * (1.0 - (1.0 - amount * 0.3)))
  }

  /** `reflection_volume`. */
  function TapGain(t: Tap, amount: real): real
  {
    -20.0 * (1.0 - t.level * amount)
  }

  /** `(silence + (audio + volume))[:len(audio)]`. */
  function Reflection(a: Audio, t: Tap, amount: real): Audio
  {
    Take(Then(Silence(t.delay, FrameRate(a)), Gain(a, TapGain(t, amount))), Length(a))
  }

  /** A reflection is trimmed to exactly the input's length. */
  lemma {:induction false} ReflectionLength(a: Audio, t: Tap, amount: real)
    ensures Length(Reflection(a, t, amount)) == Length(a)
  {
    var g := Gain(a, TapGain(t, amount));
    assert Length(g) == Length(a);
    assert Length(Then(Silence(t.delay, FrameRate(a)), g)) == t.delay + Length(a);
  }

  /** Overlay the reflections of `taps`, in order, on `result`. */
  function Mix(result: Audio, a: Audio, taps: seq<Tap>, amount: real): Audio
    decreases |taps|
  {
    if taps == [] then result
    else Mix(Overlay(result, Reflection(a, taps[0], amount)), a, taps[1..], amount)
  }

  /** `apply_reverb(audio, amount)`. */
  function ApplyReverb(a: Audio, amount: real): Audio
  {
    var amt := Clamp(amount, 0.0, 1.0);
    if amt == 0.0 then a
    else Mix(Gain(a, DryGain(amt)), a, Taps, amt)
  }

  /** The segment at the bottom of a stack of overlays. */
  function Base(x: Audio): Audio
  {
    if x.Overlay? then Base(x.base) else x
  }

  /** The segments laid over `Base(x)`, in the order they were overlaid. */
  function Layers(x: Audio): seq<Audio>
  {
    if x.Overlay? then Layers(x.base) + [x.top] else []
  }

  lemma {:induction false} MixLayers(result: Audio, a: Audio, taps: seq<Tap>, amount: real)
    ensures var m := Mix(result, a, taps, amount);
      && Base(m) == Base(result)
      && Layers(m) == Layers(result) + seq(|taps|, i requires 0 <= i < |taps| => Reflection(a, taps[i], amount))
      && Length(m) == Length(result)
      && FrameRate(m) >= FrameRate(result)
    decreases |taps|
  {
    if taps != [] {
      var next := Overlay(result, Reflection(a, taps[0], amount));
      MixLayers(next, a, taps[1..], amount);
      var tail := seq(|taps| - 1, i requires 0 <= i < |taps| - 1 => Reflection(a, taps[1..][i], amount));
      var all := seq(|taps|, i requires 0 <= i < |taps| => Reflection(a, taps[i], amount));
      assert all == [Reflection(a, taps[0], amount)] + tail;
    }
  }

  /**
   * Reverb with a positive amount lays the four reflections, in order of
   * their delays, over the input attenuated by `6 * amount` dB; each
   * reflection is the input delayed by its tap's delay, at a gain in
   * (-20, -12] dB that is lower for every later tap, trimmed to the input's
   * length. The result is exactly as long as the input.
   */
  lemma {:induction false} ReverbShape(a: Audio, amount: real)
    requires 0.0 < amount
    ensures var r := ApplyReverb(a, amount);
      var amt := Clamp(amount, 0.0, 1.0);
      && Base(r) == Gain(a, DryGain(amt))
      && -6.0 <= DryGain(amt) < 0.0
      && |Layers(r)| == 4
      && (forall i :: 0 <= i < 4 ==>
            && Layers(r)[i] == Take(Then(Silence(Taps[i].delay, FrameRate(a)), Gain(a, TapGain(Taps[i], amt))), Length(a))
            && Length(Layers(r)[i]) == Length(a)
            && -20.0 < TapGain(Taps[i], amt) <= -12.0)
      && (forall i, j :: 0 <= i < j < 4 ==> Taps[i].delay < Taps[j].delay && TapGain(Taps[j], amt) < TapGain(Taps[i], amt))
      && Length(r) == Length(a)
  {
    var amt := Clamp(amount, 0.0, 1.0);
    ReverbLayers(a, amt);
    TapGains(amt);
  }

  /** With a positive clamped amount, the reverb is the attenuated input under the four reflections. */
  lemma {:induction false} ReverbLayers(a: Audio, amt: real)
    requires 0.0 < amt <= 1.0
    ensures var r := ApplyReverb(a, amt);
      && Base(r) == Gain(a, DryGain(amt))
      && Layers(r) == seq(4, i requires 0 <= i < 4 => Reflection(a, Taps[i], amt))
      && (forall i :: 0 <= i < 4 ==> Length(Layers(r)[i]) == Length(a))
      && Length(r) == Length(a)
  {
    var r := ApplyReverb(a, amt);
    MixLayers(Gain(a, DryGain(amt)), a, Taps, amt);
    forall i | 0 <= i < 4 ensures Length(Layers(r)[i]) == Length(a) {
      ReflectionLength(a, Taps[i], amt);
    }
  }

  /** The dry attenuation and the reflection gains for a positive clamped amount. */
  lemma {:induction false} TapGains(amt: real)
    requires 0.0 < amt <= 1.0
    ensures DryGain(amt) == -6.0 * amt
    ensures -6.0 <= DryGain(amt) < 0.0
    ensures forall i :: 0 <= i < 4 ==> -20.0 < TapGain(Taps[i], amt) <= -12.0
    ensures forall i, j :: 0 <= i < j < 4 ==> Taps[i].delay < Taps[j].delay && TapGain(Taps[j], amt) < TapGain(Taps[i], amt)
  {
    forall i | 0 <= i < 4 ensures -20.0 < TapGain(Taps[i], amt) <= -12.0 {
      assert 0.0 < Taps[i].level * amt <= 0.4 by {
        assert Taps[i].level * amt <= Taps[i].level * 1.0;
      }
    }
    forall i, j | 0 <= i < j < 4 ensures TapGain(Taps[j], amt) < TapGain(Taps[i], amt) {
      assert Taps[j].level < Taps[i].level;
      assert Taps[j].level * amt < Taps[i].level * amt;
    }
  }


  /** Reverb amounts are clamped to [0, 1]; nothing positive leaves the audio as it is. */
  lemma {:induction false} ReverbClamped(a: Audio, amount: real)
    ensures ApplyReverb(a, amount) == ApplyReverb(a, Clamp(amount, 0.0, 1.0))
    ensures amount <= 0.0 ==> ApplyReverb(a, amount) == a
    ensures amount >= 1.0 ==> ApplyReverb(a, amount) == ApplyReverb(a, 1.0)
  {
  }

  /** A larger amount attenuates the dry signal more and makes every reflection louder. */
  lemma {:induction false} ReverbMonotone(t: Tap, amount: real, amount': real)
    requires 0.0 <= amount <= amount' && 0.0 < t.level
    ensures DryGain(amount') <= DryGain(amount)
    ensures TapGain(t, amount) <= TapGain(t, amount')
  {
    assert t.level * amount <= t.level * amount' by {
      assert t.level * (amount' - amount) >= 0.0;
    }
  }

  // ---------------------------------------------------------------------------
  // process_audio
  // ---------------------------------------------------------------------------

  /** One effect of the chain. */
  datatype Step = Normalize | Pitch(semitones: real) | Reverb(amount: real)

  /** Which effects `process_audio` applies, in the order it applies them. */
  function Plan(pitchShift: real, reverb: real, normalize: bool): (steps: seq<Step>)
    ensures |steps| <= 3
  {
    (if normalize then [Normalize] else [])
    + (if pitchShift != 0.0 then [Pitch(pitchShift)] else [])
    + (if reverb > 0.0 then [Reverb(reverb)] else [])
  }

  /**
   * Each effect is planned exactly when its gate is open (normalisation when
   * asked for, pitch for a non-zero shift, reverb for a positive amount), with
   * the caller's value, at most once, and in chain order.
   */
  lemma {:induction false} PlanGates(pitchShift: real, reverb: real, normalize: bool)
    ensures var steps := Plan(pitchShift, reverb, normalize);
      && (Normalize in steps <==> normalize)
      && (Pitch(pitchShift) in steps <==> pitchShift != 0.0)
      && (Reverb(reverb) in steps <==> reverb > 0.0)
      && (forall s :: s in steps && s.Pitch? ==> s.semitones == pitchShift)
      && (forall s :: s in steps && s.Reverb? ==> s.amount == reverb)
      && (forall i, j :: 0 <= i < j < |steps| ==> Order(steps[i]) < Order(steps[j]))
  {
  }

  /** Position of an effect in the chain: normalisation, then pitch, then reverb. */
  function Order(s: Step): nat
  {
    match s
    case Normalize => 0
    case Pitch(_) => 1
    case Reverb(_) => 2
  }

  /** One effect, with the library's measurements. */
  function Run(step: Step, a: Audio, lib: Library): Audio
  {
    match step
    case Normalize => NormalizeAudio(a, lib.level(a))
    case Pitch(s) => PitchShift(a, lib.rateChange(s))
    case Reverb(amount) => ApplyReverb(a, amount)
  }

  /** Apply the steps in order. */
  function Apply(steps: seq<Step>, a: Audio, lib: Library): Audio
    decreases |steps|
  {
    if steps == [] then a else Apply(steps[1..], Run(steps[0], a, lib), lib)
  }

  /**
   * `process_audio(audio_bytes, pitch_shift, reverb, normalize)`. A missing
   * library (`None`), bytes it cannot decode and a failed export all give the
   * input bytes back unchanged.
   */
  function ProcessAudio(data: bytes, pitchShift: real, reverb: real, normalize: bool, lib: Option<Library>): (r: bytes)
    ensures lib.None? ==> r == data
    ensures lib.Some? && lib.value.decode(data).None? ==> r == data
  {
    match lib
    case None => data
    case Some(l) =>
      match l.decode(data)
      case None => data
      case Some(a) =>
        match l.encode(Apply(Plan(pitchShift, reverb, normalize), a, l))
        case None => data
        case Some(out) => out
  }

  /** What a successful run exports: the decoded audio with the planned effects, in order. */
  lemma {:induction false} ProcessExports(data: bytes, pitchShift: real, reverb: real, normalize: bool, lib: Library, a: Audio)
    requires lib.decode(data) == Some(a)
    ensures var n := if normalize then NormalizeAudio(a, lib.level(a)) else a;
      var p := if pitchShift != 0.0 then PitchShift(n, lib.rateChange(pitchShift)) else n;
      var v := if reverb > 0.0 then ApplyReverb(p, reverb) else p;
      ProcessAudio(data, pitchShift, reverb, normalize, Some(lib)) == lib.encode(v).GetOr(data)
  {
    ApplyPlan(pitchShift, reverb, normalize, lib, a);
  }

  /** The planned chain is normalisation if asked for, then pitch if non-zero, then reverb if positive. */
  lemma {:induction false} ApplyPlan(pitchShift: real, reverb: real, normalize: bool, lib: Library, a: Audio)
    ensures var n := if normalize then NormalizeAudio(a, lib.level(a)) else a;
      var p := if pitchShift != 0.0 then PitchShift(n, lib.rateChange(pitchShift)) else n;
      var v := if reverb > 0.0 then ApplyReverb(p, reverb) else p;
      Apply(Plan(pitchShift, reverb, normalize), a, lib) == v
  {
    var s1: seq<Step> := if normalize then [Normalize] else [];
    var s2: seq<Step> := if pitchShift != 0.0 then [Pitch(pitchShift)] else [];
    var s3: seq<Step> := if reverb > 0.0 then [Reverb(reverb)] else [];
    assert Plan(pitchShift, reverb, normalize) == s1 + s2 + s3;
    ApplyAppend(s1 + s2, s3, a, lib);
    ApplyAppend(s1, s2, a, lib);
    ApplyUpToOne(s1, a, lib);
    ApplyUpToOne(s2, Apply(s1, a, lib), lib);
    ApplyUpToOne(s3, Apply(s2, Apply(s1, a, lib), lib), lib);
  }

  /** Applying no step leaves the audio alone; applying one step runs it. */
  lemma {:induction false} ApplyUpToOne(s: seq<Step>, a: Audio, lib: Library)
    requires |s| <= 1
    ensures Apply(s, a, lib) == if s == [] then a else Run(s[0], a, lib)
  {
    if s != [] {
      assert s[1..] == [];
    }
  }

  /** Applying `s + t` applies `s`, then `t`. */
  lemma {:induction false} ApplyAppend(s: seq<Step>, t: seq<Step>, a: Audio, lib: Library)
    ensures Apply(s + t, a, lib) == Apply(t, Apply(s, a, lib), lib)
    decreases |s|
  {
    if s == [] {
      assert s + t == t;
    } else {
      assert (s + t)[1..] == s[1..] + t;
      ApplyAppend(s[1..], t, Run(s[0], a, lib), lib);
    }
  }

  // ---------------------------------------------------------------------------
  // EMOTION_EFFECTS and get_emotion_effects
  // ---------------------------------------------------------------------------

  datatype Effects = Effects(pitchShift: real, reverb: real, normalize: bool)

  function EffectsOf(e: Emotion): Effects
  {
    match e
    case Joy => Effects(0.5, 0.1, true)
    case Anger => Effects(-0.3, 0.05, true)
    case Sadness => Effects(-1.0, 0.3, true)
    case Fear => Effects(0.8, 0.4, true)
    case Surprise => Effects(1.5, 0.2, true)
    case Disgust => Effects(-0.5, 0.1, true)
    case Neutral => Effects(0.0, 0.0, true)
  }

  /** `get_emotion_effects(emotion)`: exact-match lookup, neutral for anything else. */
  function GetEmotionEffects(name: string): Effects
  {
    EffectsOf(OrNeutral(name))
  }

  /**
   * Every preset normalises, keeps the reverb inside the range the effect
   * clamps to and the shift inside the documented -12..12 semitones; the
   * neutral preset, which unknown labels also get, plans normalisation
   * alone, and every other preset plans all three effects.
   */
  lemma {:induction false} EffectsPresets(name: string)
    ensures var fx := GetEmotionEffects(name);
      && fx.normalize
      && 0.0 <= fx.reverb <= 1.0
      && -12.0 <= fx.pitchShift <= 12.0
      && (OrNeutral(name) == Neutral ==> Plan(fx.pitchShift, fx.reverb, fx.normalize) == [Normalize])
      && (OrNeutral(name) != Neutral ==> Plan(fx.pitchShift, fx.reverb, fx.normalize) == [Normalize, Pitch(fx.pitchShift), Reverb(fx.reverb)])
    ensures Parse(name).None? ==> GetEmotionEffects(name) == GetEmotionEffects("neutral")
  {
    OrNeutralLabel(Neutral);
  }
}
