/**
 * The voice-parameter mapper of `backend/voice_mapper.py`: a seven-entry
 * profile table, the clamped affine interpolation in intensity, the ElevenLabs
 * settings, and the description of which voice aspects changed.
 */
module VoiceMapper {
  import opened Strings
  import opened Emotions

  /** One entry of `EMOTION_VOICE_PROFILES`: the deltas and the ElevenLabs targets at full intensity. */
  datatype Profile = Profile(
    rateDelta: real, pitchDelta: real, volumeDelta: real,
    stability: real, similarityBoost: real, style: real)

  /** `VoiceParameters`: three multipliers (1.0 is unchanged) and three ElevenLabs settings. */
  datatype VoiceParameters = VoiceParameters(
    rate: real, pitch: real, volume: real,
    stability: real, similarityBoost: real, style: real)

  /** `EMOTION_VOICE_PROFILES`. */
  function ProfileOf(e: Emotion): Profile
  {
    match e
    case Joy => Profile(0.15, 0.10, 0.10, 0.45, 0.75, 0.7)
    case Anger => Profile(0.10, -0.05, 0.20, 0.30, 0.80, 0.8)
    case Sadness => Profile(-0.20, -0.15, -0.15, 0.80, 0.70, 0.4)
    case Fear => Profile(0.20, 0.05, -0.05, 0.35, 0.75, 0.6)
    case Surprise => Profile(0.25, 0.15, 0.15, 0.40, 0.70, 0.8)
    case Disgust => Profile(-0.10, -0.08, 0.0, 0.60, 0.75, 0.5)
    case Neutral => Profile(0.0, 0.0, 0.0, 0.75, 0.75, 0.0)
  }

  /** `EMOTION_VOICE_PROFILES.get(emotion, EMOTION_VOICE_PROFILES["neutral"])`: exact-match lookup. */
  function ProfileFor(name: string): Profile
  {
    ProfileOf(OrNeutral(name))
  }

  /** `max(0.0, min(1.0, x))`. */
  function Clamp(x: real): (r: real)
    ensures 0.0 <= r <= 1.0
    ensures 0.0 <= x <= 1.0 ==> r == x
    ensures x < 0.0 ==> r == 0.0
    ensures x > 1.0 ==> r == 1.0
  {
    if x < 0.0 then 0.0 else if x > 1.0 then 1.0 else x
  }

  /** The hard-coded ElevenLabs anchors the settings interpolate from. */
  const NeutralAnchor: real := 0.75

  /** The parameters that change nothing: unit multipliers, the anchors, no style. */
  const Identity: VoiceParameters := VoiceParameters(1.0, 1.0, 1.0, NeutralAnchor, NeutralAnchor, 0.0)

  /** The interpolation of a profile at a clamped intensity `t`. */
  function Scale(p: Profile, t: real): VoiceParameters
  {
    VoiceParameters(
      1.0 + p.rateDelta * t,
      1.0 + p.pitchDelta * t,
      1.0 + p.volumeDelta * t,
      NeutralAnchor + (p.stability - NeutralAnchor) * t,
      NeutralAnchor + (p.similarityBoost - NeutralAnchor) * t,
      p.style * t)
  }

  /** The ranges every mapped parameter stays in. */
  predicate InRange(v: VoiceParameters)
  {
    && 0.8 <= v.rate <= 1.25 && 0.8 <= v.pitch <= 1.25 && 0.8 <= v.volume <= 1.25
    && 0.0 <= v.stability <= 1.0 && 0.0 <= v.similarityBoost <= 1.0 && 0.0 <= v.style <= 1.0
  }

  /** Every profile, at every intensity in [0, 1], lands in range. */
  lemma {:induction false} ScaleInRange(e: Emotion, t: real)
    requires 0.0 <= t <= 1.0
    ensures InRange(Scale(ProfileOf(e), t))
  {
    match e
    case Joy =>
    case Anger =>
    case Sadness =>
    case Fear =>
    case Surprise =>
    case Disgust =>
    case Neutral =>
  }

  /**
   * `map_emotion_to_voice(emotion, intensity)`: look the profile up (unknown
   * labels take the neutral one), clamp the intensity, interpolate.
   */
  function MapEmotionToVoice(name: string, intensity: real): (v: VoiceParameters)
    ensures InRange(v)
  {
    ScaleInRange(OrNeutral(name), Clamp(intensity));
    Scale(ProfileFor(name), Clamp(intensity))
  }

  /** Only the clamped intensity matters. */
  lemma {:induction false} MapClamped(name: string, intensity: real)
    ensures MapEmotionToVoice(name, intensity) == MapEmotionToVoice(name, Clamp(intensity))
  {
    assert Clamp(Clamp(intensity)) == Clamp(intensity);
  }

  /** At intensity 0 (or below) every emotion yields the identity parameters. */
  lemma {:induction false} MapAtZero(name: string, intensity: real)
    requires intensity <= 0.0
    ensures MapEmotionToVoice(name, intensity) == Identity
  {
    assert Clamp(intensity) == 0.0;
  }

  /** The anchors are the neutral profile's own settings, so "neutral" is the identity at every intensity. */
  lemma {:induction false} MapNeutral(intensity: real)
    ensures MapEmotionToVoice("neutral", intensity) == Identity
  {
    OrNeutralLabel(Neutral);
    assert ProfileFor("neutral") == Profile(0.0, 0.0, 0.0, NeutralAnchor, NeutralAnchor, 0.0);
  }

  /** A label outside the table is mapped as "neutral". */
  lemma {:induction false} MapUnknown(name: string, intensity: real)
    requires Parse(name).None?
    ensures MapEmotionToVoice(name, intensity) == MapEmotionToVoice("neutral", intensity)
    ensures MapEmotionToVoice(name, intensity) == Identity
  {
    MapNeutral(intensity);
    OrNeutralLabel(Neutral);
  }

  /** `d * t` moves with `t` in the direction of the sign of `d`. */
  lemma {:induction false} ScaleMonotone(d: real, s: real, t: real)
    requires s <= t
    ensures d >= 0.0 ==> d * s <= d * t
    ensures d < 0.0 ==> d * s >= d * t
  {
    if d >= 0.0 {
      assert d * t - d * s == d * (t - s);
    } else {
      assert d * s - d * t == -d * (t - s);
    }
  }

  /** The clamp is monotone. */
  lemma {:induction false} ClampMonotone(x: real, y: real)
    requires x <= y
    ensures Clamp(x) <= Clamp(y)
  {
  }

  /** The multipliers of a profile move with the intensity in the direction of their deltas. */
  lemma {:induction false} ScaleMonotoneProfile(p: Profile, s: real, t: real)
    requires s <= t
    ensures var a := Scale(p, s);
      var b := Scale(p, t);
      && (p.rateDelta >= 0.0 ==> a.rate <= b.rate)
      && (p.rateDelta < 0.0 ==> a.rate >= b.rate)
      && (p.pitchDelta >= 0.0 ==> a.pitch <= b.pitch)
      && (p.pitchDelta < 0.0 ==> a.pitch >= b.pitch)
      && (p.volumeDelta >= 0.0 ==> a.volume <= b.volume)
      && (p.volumeDelta < 0.0 ==> a.volume >= b.volume)
  {
    ScaleMonotone(p.rateDelta, s, t);
    ScaleMonotone(p.pitchDelta, s, t);
    ScaleMonotone(p.volumeDelta, s, t);
  }

  /**
   * Each multiplier is affine in the intensity: non-decreasing when the
   * profile's delta is non-negative, non-increasing when it is negative.
   */
  lemma {:induction false} MapMonotone(name: string, x: real, y: real)
    requires x <= y
    ensures var p := ProfileFor(name);
      var a := MapEmotionToVoice(name, x);
      var b := MapEmotionToVoice(name, y);
      && (p.rateDelta >= 0.0 ==> a.rate <= b.rate)
      && (p.rateDelta < 0.0 ==> a.rate >= b.rate)
      && (p.pitchDelta >= 0.0 ==> a.pitch <= b.pitch)
      && (p.pitchDelta < 0.0 ==> a.pitch >= b.pitch)
      && (p.volumeDelta >= 0.0 ==> a.volume <= b.volume)
      && (p.volumeDelta < 0.0 ==> a.volume >= b.volume)
  {
    ClampMonotone(x, y);
    ScaleMonotoneProfile(ProfileFor(name), Clamp(x), Clamp(y));
  }

  /** Joy at full intensity: 15% faster, 10% higher, 10% louder. */
  lemma {:induction false} MapJoyFull()
    ensures var v := MapEmotionToVoice("joy", 1.0);
      v.rate == 1.15 && v.pitch == 1.10 && v.volume == 1.10
  {
    OrNeutralLabel(Joy);
  }

  /** Sadness at half intensity: 0.90, 0.925, 0.925. */
  lemma {:induction false} MapSadnessHalf()
    ensures var v := MapEmotionToVoice("sadness", 0.5);
      v.rate == 0.90 && v.pitch == 0.925 && v.volume == 0.925
  {
    OrNeutralLabel(Sadness);
  }

  // ---------------------------------------------------------------------------
  // get_elevenlabs_params
  // ---------------------------------------------------------------------------

  /** The ElevenLabs voice settings dictionary. */
  datatype ElevenLabsSettings = ElevenLabsSettings(stability: real, similarityBoost: real, style: real, useSpeakerBoost: bool)

  /** `get_elevenlabs_params`: the three settings as they are, with speaker boost on. */
  function ElevenLabsParams(v: VoiceParameters): (s: ElevenLabsSettings)
    ensures s.useSpeakerBoost
  {
    ElevenLabsSettings(v.stability, v.similarityBoost, v.style, true)
  }

  /**
   * The settings sent for a mapped voice lie in the [0, 1] range the service
   * takes, and "neutral" sends the anchors with no style.
   */
  lemma {:induction false} ElevenLabsInRange(name: string, intensity: real)
    ensures var s := ElevenLabsParams(MapEmotionToVoice(name, intensity));
      && 0.0 <= s.stability <= 1.0 && 0.0 <= s.similarityBoost <= 1.0 && 0.0 <= s.style <= 1.0
      && (name == "neutral" ==> s == ElevenLabsSettings(0.75, 0.75, 0.0, true))
  {
    if name == "neutral" {
      MapNeutral(intensity);
    }
  }

  // ---------------------------------------------------------------------------
  // describe_voice_changes
  // ---------------------------------------------------------------------------

  datatype Aspect = Rate | Pitch | Volume

  /** One part of the description: the aspect, the absolute change in percent, the direction word. */
  datatype Part = Part(aspect: Aspect, percent: real, direction: string)

  function Abs(x: real): real
  {
    if x < 0.0 then -x else x
  }

  /** `(modifier - 1.0) * 100`. */
  function PercentChange(m: real): real
  {
    (m - 1.0) * 100.0
  }

  /** A change is reported when it exceeds one percent in either direction. */
  predicate Significant(m: real)
  {
    Abs(PercentChange(m)) > 1.0
  }

  /** The part for one aspect, or nothing when the change is not significant. */
  function PartFor(a: Aspect, m: real, up: string, down: string): seq<Part>
  {
    var c := PercentChange(m);
    if Abs(c) > 1.0 then [Part(a, Abs(c), if c > 0.0 then up else down)] else []
  }

  /** The `changes` list: rate, pitch, volume, each when significant. */
  function DescribeParts(v: VoiceParameters): seq<Part>
  {
    PartFor(Rate, v.rate, "faster", "slower")
      + PartFor(Pitch, v.pitch, "higher", "lower")
      + PartFor(Volume, v.volume, "louder", "softer")
  }

  /** The aspects of a list of parts, in order. */
  function Aspects(parts: seq<Part>): seq<Aspect>
  {
    seq(|parts|, i requires 0 <= i < |parts| => parts[i].aspect)
  }

  /** The multiplier of one aspect. */
  function Modifier(v: VoiceParameters, a: Aspect): real
  {
    match a
    case Rate => v.rate
    case Pitch => v.pitch
    case Volume => v.volume
  }

  /** The word that names an increase of each aspect. */
  function UpWord(a: Aspect): string
  {
    match a
    case Rate => "faster"
    case Pitch => "higher"
    case Volume => "louder"
  }

  /** The position of an aspect in the description. */
  function Rank(a: Aspect): nat
  {
    match a
    case Rate => 0
    case Pitch => 1
    case Volume => 2
  }

  /** The aspects of concatenated parts are the concatenated aspects. */
  lemma {:induction false} AspectsAppend(x: seq<Part>, y: seq<Part>)
    ensures Aspects(x + y) == Aspects(x) + Aspects(y)
  {
  }

  /** The part for one aspect: present iff significant, with the absolute change and the sign's direction. */
  lemma {:induction false} PartForSpec(a: Aspect, m: real, up: string, down: string)
    requires up != down
    ensures var ps := PartFor(a, m, up, down);
      && |ps| <= 1
      && (ps != [] <==> Significant(m))
      && (ps != [] ==>
            && ps[0].aspect == a && ps[0].percent == Abs(PercentChange(m))
            && (ps[0].direction == up <==> m > 1.0))
  {
  }

  /** The facts of one part of the description, in terms of the parameters. */
  predicate PartFaithful(v: VoiceParameters, x: Part)
  {
    && x.percent == Abs(PercentChange(Modifier(v, x.aspect)))
    && (x.direction == UpWord(x.aspect) <==> Modifier(v, x.aspect) > 1.0)
  }

  /** The aspect present for one significant modifier, nothing otherwise. */
  function AspectIf(a: Aspect, m: real): seq<Aspect>
  {
    if Significant(m) then [a] else []
  }

  /** The aspects of the description, aspect by aspect. */
  lemma {:induction false} DescribeAspects(v: VoiceParameters)
    ensures Aspects(DescribeParts(v)) == AspectIf(Rate, v.rate) + AspectIf(Pitch, v.pitch) + AspectIf(Volume, v.volume)
  {
    var r := PartFor(Rate, v.rate, "faster", "slower");
    var p := PartFor(Pitch, v.pitch, "higher", "lower");
    var o := PartFor(Volume, v.volume, "louder", "softer");
    PartForSpec(Rate, v.rate, "faster", "slower");
    PartForSpec(Pitch, v.pitch, "higher", "lower");
    PartForSpec(Volume, v.volume, "louder", "softer");
    assert Aspects(r) == AspectIf(Rate, v.rate);
    assert Aspects(p) == AspectIf(Pitch, v.pitch);
    assert Aspects(o) == AspectIf(Volume, v.volume);
    AspectsAppend(r, p);
    AspectsAppend(r + p, o);
  }

  /** An aspect is described iff its change exceeds one percent. */
  lemma {:induction false} DescribePresent(v: VoiceParameters)
    ensures forall a: Aspect :: a in Aspects(DescribeParts(v)) <==> Significant(Modifier(v, a))
  {
    DescribeAspects(v);
  }

  /** The described aspects come in the order rate, pitch, volume, each at most once. */
  lemma {:induction false} DescribeOrdered(v: VoiceParameters)
    ensures var parts := DescribeParts(v);
      forall i, j :: 0 <= i < j < |parts| ==> Rank(parts[i].aspect) < Rank(parts[j].aspect)
  {
    var parts := DescribeParts(v);
    var asp := Aspects(parts);
    DescribeAspects(v);
    forall i, j | 0 <= i < j < |parts| ensures Rank(parts[i].aspect) < Rank(parts[j].aspect) {
      assert parts[i].aspect == asp[i] && parts[j].aspect == asp[j];
    }
  }

  /** Each described part carries the absolute change and the direction of its sign. */
  lemma {:induction false} DescribeFaithful(v: VoiceParameters)
    ensures var parts := DescribeParts(v);
      forall i :: 0 <= i < |parts| ==> PartFaithful(v, parts[i])
  {
    var parts := DescribeParts(v);
    var r := PartFor(Rate, v.rate, "faster", "slower");
    var p := PartFor(Pitch, v.pitch, "higher", "lower");
    var o := PartFor(Volume, v.volume, "louder", "softer");
    PartForSpec(Rate, v.rate, "faster", "slower");
    PartForSpec(Pitch, v.pitch, "higher", "lower");
    PartForSpec(Volume, v.volume, "louder", "softer");
    assert parts == r + p + o;
    forall i | 0 <= i < |parts| ensures PartFaithful(v, parts[i]) {
      if i < |r| {
        assert parts[i] == r[0];
      } else if i < |r| + |p| {
        assert parts[i] == p[i - |r|];
      } else {
        assert parts[i] == o[i - |r| - |p|];
      }
    }
  }

  /**
   * The description lists each aspect at most once, in the order rate, pitch,
   * volume; an aspect appears iff its change exceeds one percent; its percent
   * is the absolute change; and the direction names an increase iff the
   * multiplier is above 1.
   */
  lemma {:induction false} DescribePartsSpec(v: VoiceParameters)
    ensures var parts := DescribeParts(v);
      && (forall a: Aspect :: a in Aspects(parts) <==> Significant(Modifier(v, a)))
      && (forall i, j :: 0 <= i < j < |parts| ==> Rank(parts[i].aspect) < Rank(parts[j].aspect))
      && (forall i :: 0 <= i < |parts| ==> PartFaithful(v, parts[i]))
  {
    DescribePresent(v);
    DescribeOrdered(v);
    DescribeFaithful(v);
  }

  /** `describe_voice_changes` renders each part as `Name: N% direction`; the number format is a parameter. */
  function RenderPart(p: Part, format: real -> string): string
  {
    var name := match p.aspect case Rate => "Rate" case Pitch => "Pitch" case Volume => "Volume";
    name + ": " + format(p.percent) + "% " + p.direction
  }

  const NoModulation: string := "No voice modulation (neutral)"

  /** `describe_voice_changes(emotion, voice_params)`; the emotion argument is not used by the source. */
  function DescribeVoiceChanges(emotion: string, v: VoiceParameters, format: real -> string): string
  {
    var parts := DescribeParts(v);
    if parts == [] then NoModulation
    else Join(" | ", seq(|parts|, i requires 0 <= i < |parts| => RenderPart(parts[i], format)))
  }

  /** A join starts with its first part. */
  lemma {:induction false} JoinStartsWith(sep: string, parts: seq<string>)
    requires parts != []
    ensures StartsWith(Join(sep, parts), parts[0])
  {
    if |parts| > 1 {
      assert (parts[0] + sep + Join(sep, parts[1..]))[..|parts[0]|] == parts[0];
    }
  }

  /** The no-modulation message appears exactly when no aspect changed by more than one percent. */
  lemma {:induction false} DescribeNeutralMessage(emotion: string, v: VoiceParameters, format: real -> string)
    ensures DescribeVoiceChanges(emotion, v, format) == NoModulation
      <==> !Significant(v.rate) && !Significant(v.pitch) && !Significant(v.volume)
  {
    var parts := DescribeParts(v);
    DescribePartsSpec(v);
    if parts != [] {
      var rendered := seq(|parts|, i requires 0 <= i < |parts| => RenderPart(parts[i], format));
      JoinStartsWith(" | ", rendered);
      var d := Join(" | ", rendered);
      assert rendered[0][0] != 'N';
      assert d[0] == rendered[0][0];
      assert parts[0].aspect in Aspects(parts);
    } else {
      forall a: Aspect ensures !Significant(Modifier(v, a)) {
        assert a !in Aspects(parts);
      }
      assert !Significant(Modifier(v, Rate)) && !Significant(Modifier(v, Pitch)) && !Significant(Modifier(v, Volume));
    }
  }

  /** The neutral voice is described as no modulation, whatever the intensity. */
  lemma {:induction false} DescribeNeutral(intensity: real, format: real -> string)
    ensures DescribeVoiceChanges("neutral", MapEmotionToVoice("neutral", intensity), format) == NoModulation
  {
    MapNeutral(intensity);
  }

  /** Joy at full intensity is described as 15% faster, 10% higher, 10% louder. */
  lemma {:induction false} DescribeJoyFull()
    ensures DescribeParts(MapEmotionToVoice("joy", 1.0))
      == [Part(Rate, 15.0, "faster"), Part(Pitch, 10.0, "higher"), Part(Volume, 10.0, "louder")]
  {
    MapJoyFull();
  }
}
