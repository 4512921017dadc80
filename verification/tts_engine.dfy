/**
 * The synthesis planning of `backend/tts_engine.py`: the chunk splitter, the
 * choice between the cloud engine and the local ones, the per-chunk
 * dispatch with its speaker and speed, the per-emotion pauses, the stitching
 * of chunk audio, and the Base64 form of the result. The engines themselves
 * are oracles: a request either yields audio or fails.
 */
module TtsEngine {
  import opened Wrappers
  import opened Strings
  import opened Emotions
  import opened Rewrites
  import VoiceMapper
  import AudioProcessor
  import Base64

  type Audio = AudioProcessor.Audio

  // ---------------------------------------------------------------------------
  // _split_text
  // ---------------------------------------------------------------------------

  /** The characters of the chunk delimiter `[.?!]+|…|—|\.\.\.`. */
  const ChunkDelims: set<char> := Terminals + {Ellipsis, EmDash}

  /** `re.match(r'^([.?!]+|…|—|\.\.\.)$', t)`: `t` is one whole delimiter. */
  predicate IsDelimiter(t: string)
  {
    t != [] && (AllIn(t, Terminals) || t == [Ellipsis] || t == [EmDash])
  }

  /** The comprehension's filter and map: stripped pieces that are neither blank nor a delimiter. */
  function Keep(parts: seq<string>): (chunks: seq<string>)
    ensures |chunks| <= |parts|
  {
    if parts == [] then []
    else
      var t := Strip(parts[0]);
      (if t != [] && !IsDelimiter(t) then [t] else []) + Keep(parts[1..])
  }

  /** `_split_text(text)`. */
  function SplitText(text: string): seq<string>
  {
    Keep(SplitKeep(text, ChunkDelims, Terminals))
  }

  /** Reference: the stripped, non-blank text pieces of a split (its even positions), in order. */
  function TextPieces(parts: seq<string>): seq<string>
    decreases |parts|
  {
    if parts == [] then []
    else
      var t := Strip(parts[0]);
      (if t != [] then [t] else []) + (if |parts| >= 2 then TextPieces(parts[2..]) else [])
  }

  /** No delimiter character is whitespace. */
  lemma {:induction false} DelimsNotSpace(c: char)
    requires c in ChunkDelims
    ensures !IsSpace(c)
  {
  }

  /** A delimiter match is its own strip and is one whole delimiter. */
  lemma {:induction false} TokenIsDelimiter(t: string)
    requires IsToken(t, ChunkDelims, Terminals)
    ensures Strip(t) == t && IsDelimiter(t)
  {
    DelimsNotSpace(t[0]);
    DelimsNotSpace(t[|t| - 1]);
    StripNoOp(t);
  }

  /** Stripped text free of delimiter characters is never a whole delimiter. */
  lemma {:induction false} TextNotDelimiter(p: string)
    requires NoneIn(p, ChunkDelims)
    ensures NoneIn(Strip(p), ChunkDelims)
    ensures Strip(p) != [] ==> !IsDelimiter(Strip(p))
  {
    StripNoneIn(p, ChunkDelims);
    var t := Strip(p);
    if t != [] {
      assert t[0] !in ChunkDelims;
    }
  }

  /** Dropping a text piece and a delimiter keeps a split alternating. */
  lemma {:induction false} AlternatesDrop2(parts: seq<string>)
    requires |parts| >= 2 && Alternates(parts, ChunkDelims, Terminals)
    ensures Alternates(parts[2..], ChunkDelims, Terminals)
  {
    var rest := parts[2..];
    forall i | 0 <= i < |rest| && i % 2 == 0 ensures NoneIn(rest[i], ChunkDelims) {
      assert rest[i] == parts[i + 2];
    }
    forall i | 0 <= i < |rest| && i % 2 == 1 ensures IsToken(rest[i], ChunkDelims, Terminals) {
      assert rest[i] == parts[i + 2];
    }
  }

  /** On an alternating split, the filter keeps exactly the non-blank text pieces. */
  lemma {:induction false} KeepTextPieces(parts: seq<string>)
    requires Alternates(parts, ChunkDelims, Terminals)
    ensures Keep(parts) == TextPieces(parts)
    decreases |parts|
  {
    if parts != [] {
      TextNotDelimiter(parts[0]);
      if |parts| >= 2 {
        TokenIsDelimiter(parts[1]);
        AlternatesDrop2(parts);
        KeepTextPieces(parts[2..]);
        assert parts[1..][1..] == parts[2..];
        assert Keep(parts[1..]) == Keep(parts[2..]);
      } else {
        assert parts[1..] == [];
      }
    }
  }

  /** Every reference piece is non-blank, stripped and free of delimiter characters. */
  lemma {:induction false} TextPiecesClean(parts: seq<string>)
    requires Alternates(parts, ChunkDelims, Terminals)
    ensures forall c :: c in TextPieces(parts) ==> c != [] && Strip(c) == c && NoneIn(c, ChunkDelims)
    decreases |parts|
  {
    if parts != [] {
      TextNotDelimiter(parts[0]);
      StripIdempotent(parts[0]);
      if |parts| >= 2 {
        AlternatesDrop2(parts);
        TextPiecesClean(parts[2..]);
      }
    }
  }

  /**
   * The chunks are the stripped non-blank text between delimiters, in input
   * order; each is non-empty, has no surrounding whitespace and contains
   * none of `.`, `?`, `!`, `…`, `—`.
   */
  lemma {:induction false} SplitTextSpec(text: string)
    ensures var parts := SplitKeep(text, ChunkDelims, Terminals);
      SplitText(text) == TextPieces(parts)
    ensures forall c :: c in SplitText(text) ==> c != [] && Strip(c) == c && NoneIn(c, ChunkDelims)
  {
    var parts := SplitKeep(text, ChunkDelims, Terminals);
    SplitKeepPieces(text, ChunkDelims, Terminals);
    KeepTextPieces(parts);
    TextPiecesClean(parts);
  }

  /** Blank text has no chunks; other text without a delimiter is one chunk, stripped. */
  lemma {:induction false} SplitTextSingle(text: string)
    requires NoneIn(text, ChunkDelims)
    ensures SplitText(text) == if IsBlank(text) then [] else [Strip(text)]
  {
    SplitKeepNone(text, ChunkDelims, Terminals);
    TextNotDelimiter(text);
  }

  /** Any blank text has no chunks. */
  lemma {:induction false} SplitTextBlank(text: string)
    requires IsBlank(text)
    ensures SplitText(text) == []
  {
    forall i | 0 <= i < |text| ensures text[i] !in ChunkDelims {
      if text[i] in ChunkDelims {
        DelimsNotSpace(text[i]);
      }
    }
    SplitTextSingle(text);
  }

  // ---------------------------------------------------------------------------
  // EMOTION_SPEAKERS, EMOTION_PAUSES
  // ---------------------------------------------------------------------------

  /** A VCTK speaker and its speed modifier. */
  datatype Speaker = Speaker(id: string, speedModifier: real)

  function SpeakerOf(e: Emotion): Speaker
  {
    match e
    case Joy => Speaker("p226", 1.0)
    case Anger => Speaker("p225", 1.05)
    case Sadness => Speaker("p229", 0.75)
    case Fear => Speaker("p231", 1.0)
    case Surprise => Speaker("p226", 1.0)
    case Disgust => Speaker("p228", 0.9)
    case Neutral => Speaker("p230", 0.9)
  }

  /** `EMOTION_SPEAKERS.get(emotion, EMOTION_SPEAKERS["neutral"])`. */
  function SpeakerFor(emotion: string): Speaker
  {
    SpeakerOf(OrNeutral(emotion))
  }

  /** `EMOTION_PAUSES`, in milliseconds. */
  function PauseOf(e: Emotion): nat
  {
    match e
    case Joy => 300
    case Anger => 600
    case Sadness => 400
    case Fear => 400
    case Surprise => 200
    case Disgust => 700
    case Neutral => 500
  }

  const DefaultPause: nat := 500

  /** `EMOTION_PAUSES.get(emotion, 500)`. */
  function PauseFor(emotion: string): nat
  {
    match Parse(emotion)
    case None => DefaultPause
    case Some(e) => PauseOf(e)
  }

  /**
   * The pause default is the neutral entry, so the pause follows the same
   * lookup as everything else keyed by emotion; every pause lies in [200, 700] ms.
   */
  lemma {:induction false} PauseLookup(emotion: string)
    ensures PauseFor(emotion) == PauseOf(OrNeutral(emotion))
    ensures 200 <= PauseFor(emotion) <= 700
    ensures Parse(emotion).None? ==> PauseFor(emotion) == DefaultPause
  {
  }

  // ---------------------------------------------------------------------------
  // _synthesize_chunk, _generate_vits, _generate_xtts
  // ---------------------------------------------------------------------------

  /** What a local engine is asked to speak: `tts_to_file`'s arguments. */
  datatype Request =
    | VitsRequest(text: string, speaker: string, speed: real)
    | XttsRequest(text: string, speakerWav: string, language: string)

  const ReferenceAudio: string := "reference.wav"

  /** `_synthesize_chunk`: XTTS for the key "xtts", VITS for every other key. */
  function SynthesizeChunk(text: string, emotion: string, modelKey: string, params: VoiceMapper.VoiceParameters): (r: Request)
    ensures r.text == text
    ensures r.XttsRequest? <==> modelKey == "xtts"
  {
    if modelKey == "xtts" then XttsRequest(text, ReferenceAudio, "en")
    else
      var conf := SpeakerFor(emotion);
      VitsRequest(text, conf.id, conf.speedModifier * params.rate)
  }

  /**
   * VITS speaks with the emotion's speaker at the table speed times the rate
   * modifier, an unknown emotion with the neutral speaker; XTTS ignores the
   * emotion and the voice parameters.
   */
  lemma {:induction false} DispatchSpec(text: string, emotion: string, emotion': string, key: string,
                                        params: VoiceMapper.VoiceParameters, params': VoiceMapper.VoiceParameters)
    ensures key != "xtts" ==>
      var r := SynthesizeChunk(text, emotion, key, params);
      r.speaker == SpeakerOf(OrNeutral(emotion)).id && r.speed == SpeakerOf(OrNeutral(emotion)).speedModifier * params.rate
    ensures key != "xtts" && Parse(emotion).None? ==>
      var r := SynthesizeChunk(text, emotion, key, params);
      r.speaker == "p230" && r.speed == 0.9 * params.rate
    ensures key == "xtts" ==> SynthesizeChunk(text, emotion, key, params) == SynthesizeChunk(text, emotion', key, params')
  {
  }

  /** A neutral voice at unit rate reads sadness at three quarters speed. */
  lemma {:induction false} SadnessSpeed()
    ensures SynthesizeChunk("hi", "sadness", "vits-emotion", VoiceMapper.Identity) == VitsRequest("hi", "p229", 0.75)
  {
  }

  // ---------------------------------------------------------------------------
  // _synthesize_stitched
  // ---------------------------------------------------------------------------

  /** `AudioSegment.empty()`. */
  const EmptyAudio: Audio := AudioProcessor.Silence(0, 1)

  /** The frame rate `AudioSegment.silent` uses when none is given. */
  const SilenceRate: int := 11025

  /** One pass of the loop: append the chunk's audio, and the pause unless it is the last chunk. */
  function Append(combined: Audio, outs: seq<Option<Audio>>, i: nat, pause: Audio): Audio
    requires i < |outs|
  {
    match outs[i]
    case None => combined
    case Some(seg) =>
      if i < |outs| - 1 then AudioProcessor.Then(AudioProcessor.Then(combined, seg), pause)
      else AudioProcessor.Then(combined, seg)
  }

  /** The loop from chunk `i` on; a chunk that fails is skipped. */
  function StitchFrom(combined: Audio, outs: seq<Option<Audio>>, i: nat, pause: Audio): Audio
    requires i <= |outs|
    decreases |outs| - i
  {
    if i == |outs| then combined
    else StitchFrom(Append(combined, outs, i, pause), outs, i + 1, pause)
  }

  /**
   * `_synthesize_stitched`. `skipStitch` is the value of the guard
   * `not combined`: when it holds, the whole text is one request and its
   * failure propagates (`None`); otherwise the chunks are stitched and no
   * chunk failure escapes.
   */
  function SynthesizeStitched(text: string, params: VoiceMapper.VoiceParameters, emotion: string, modelKey: string,
                              render: Request -> Option<Audio>, skipStitch: bool): (r: Option<Audio>)
    ensures !skipStitch ==> r.Some?
    ensures skipStitch ==> r == render(SynthesizeChunk(text, emotion, modelKey, params))
  {
    if skipStitch then render(SynthesizeChunk(text, emotion, modelKey, params))
    else
      var pause := AudioProcessor.Silence(PauseFor(emotion), SilenceRate);
      Some(StitchFrom(EmptyAudio, Outcomes(SplitText(text), emotion, modelKey, params, render), 0, pause))
  }

  /** What the chunk engine yields for each chunk, in order. */
  function Outcomes(chunks: seq<string>, emotion: string, modelKey: string, params: VoiceMapper.VoiceParameters,
                    render: Request -> Option<Audio>): (outs: seq<Option<Audio>>)
    ensures |outs| == |chunks|
    ensures forall i :: 0 <= i < |chunks| ==> outs[i] == render(SynthesizeChunk(chunks[i], emotion, modelKey, params))
  {
    seq(|chunks|, i requires 0 <= i < |chunks| => render(SynthesizeChunk(chunks[i], emotion, modelKey, params)))
  }

  /** Reference: the clips chunk `i` contributes: its audio if it has any, then a pause unless it is last. */
  function Own(outs: seq<Option<Audio>>, i: nat, pause: Audio): seq<Audio>
    requires i < |outs|
  {
    if outs[i].None? then []
    else [outs[i].value] + (if i < |outs| - 1 then [pause] else [])
  }

  /** Reference: the clips of chunks `i` on, in order. */
  function ClipsFrom(outs: seq<Option<Audio>>, i: nat, pause: Audio): seq<Audio>
    requires i <= |outs|
    decreases |outs| - i
  {
    if i == |outs| then [] else Own(outs, i, pause) + ClipsFrom(outs, i + 1, pause)
  }

  /** The segments a chain of appends joined, in order (the chain's left spine). */
  function Spine(a: Audio): seq<Audio>
  {
    if a.Then? then Spine(a.first) + [a.second] else [a]
  }

  /** Total length of a list of segments. */
  function TotalLength(clips: seq<Audio>): nat
  {
    if clips == [] then 0 else AudioProcessor.Length(clips[0]) + TotalLength(clips[1..])
  }

  lemma {:induction false} TotalLengthAppend(a: seq<Audio>, b: seq<Audio>)
    ensures TotalLength(a + b) == TotalLength(a) + TotalLength(b)
    decreases |a|
  {
    if a == [] {
      assert a + b == b;
    } else {
      assert (a + b)[1..] == a[1..] + b;
      TotalLengthAppend(a[1..], b);
    }
  }

  /** The length of a chain of appends is the sum of the lengths of its segments. */
  lemma {:induction false} SpineLength(a: Audio)
    ensures AudioProcessor.Length(a) == TotalLength(Spine(a))
  {
    if a.Then? {
      SpineLength(a.first);
      TotalLengthAppend(Spine(a.first), [a.second]);
    }
  }

  /** The loop appends exactly the reference clips, in order. */
  lemma {:induction false} StitchSpine(combined: Audio, outs: seq<Option<Audio>>, i: nat, pause: Audio)
    requires i <= |outs|
    ensures Spine(StitchFrom(combined, outs, i, pause)) == Spine(combined) + ClipsFrom(outs, i, pause)
    decreases |outs| - i
  {
    if i < |outs| {
      var next := Append(combined, outs, i, pause);
      StitchSpine(next, outs, i + 1, pause);
      StitchSpineStep(combined, outs, i, pause);
    } else {
      assert Spine(combined) + [] == Spine(combined);
    }
  }

  /** The inductive step of `StitchSpine`: one pass, then the rest of the loop. */
  lemma {:induction false} StitchSpineStep(combined: Audio, outs: seq<Option<Audio>>, i: nat, pause: Audio)
    requires i < |outs|
    requires Spine(StitchFrom(Append(combined, outs, i, pause), outs, i + 1, pause))
          == Spine(Append(combined, outs, i, pause)) + ClipsFrom(outs, i + 1, pause)
    ensures Spine(StitchFrom(combined, outs, i, pause)) == Spine(combined) + ClipsFrom(outs, i, pause)
  {
    AppendSpine(combined, outs, i, pause);
    var a, b, c := Spine(combined), Own(outs, i, pause), ClipsFrom(outs, i + 1, pause);
    assert (a + b) + c == a + (b + c);
  }

  /** One pass appends exactly the chunk's own clips. */
  lemma {:induction false} AppendSpine(combined: Audio, outs: seq<Option<Audio>>, i: nat, pause: Audio)
    requires i < |outs|
    ensures Spine(Append(combined, outs, i, pause)) == Spine(combined) + Own(outs, i, pause)
  {
    if outs[i].Some? {
      var seg := outs[i].value;
      if i < |outs| - 1 {
        assert Spine(AudioProcessor.Then(AudioProcessor.Then(combined, seg), pause)) == Spine(combined) + [seg] + [pause];
      }
    }
  }

  /** Chunks from `i` on that yield audio, and those of them that are not the last chunk. */
  function Voiced(outs: seq<Option<Audio>>, i: nat): nat
    requires i <= |outs|
    decreases |outs| - i
  {
    if i == |outs| then 0 else (if outs[i].Some? then 1 else 0) + Voiced(outs, i + 1)
  }

  function VoicedLength(outs: seq<Option<Audio>>, i: nat): nat
    requires i <= |outs|
    decreases |outs| - i
  {
    if i == |outs| then 0
    else (if outs[i].Some? then AudioProcessor.Length(outs[i].value) else 0) + VoicedLength(outs, i + 1)
  }

  /** Voiced chunks from `i` on that are not the last chunk: those a pause follows. */
  function Paused(outs: seq<Option<Audio>>, i: nat): nat
    requires i <= |outs|
    decreases |outs| - i
  {
    if i == |outs| then 0
    else (if outs[i].Some? && i < |outs| - 1 then 1 else 0) + Paused(outs, i + 1)
  }

  /** The reference clips last as long as the voiced chunks plus one pause per paused chunk. */
  lemma {:induction false} ClipsLength(outs: seq<Option<Audio>>, i: nat, pause: Audio)
    requires i <= |outs|
    ensures TotalLength(ClipsFrom(outs, i, pause))
      == VoicedLength(outs, i) + AudioProcessor.Length(pause) * Paused(outs, i)
    decreases |outs| - i
  {
    if i < |outs| {
      ClipsLength(outs, i + 1, pause);
      ClipsLengthStep(outs, i, pause);
    }
  }

  /** The inductive step of `ClipsLength`: the chunk's own clips, then the rest. */
  lemma {:induction false} ClipsLengthStep(outs: seq<Option<Audio>>, i: nat, pause: Audio)
    requires i < |outs|
    requires TotalLength(ClipsFrom(outs, i + 1, pause))
      == VoicedLength(outs, i + 1) + AudioProcessor.Length(pause) * Paused(outs, i + 1)
    ensures TotalLength(ClipsFrom(outs, i, pause))
      == VoicedLength(outs, i) + AudioProcessor.Length(pause) * Paused(outs, i)
  {
    TotalLengthAppend(Own(outs, i, pause), ClipsFrom(outs, i + 1, pause));
    OwnLength(outs, i, pause);
    var len := AudioProcessor.Length(pause);
    var b := if outs[i].Some? && i < |outs| - 1 then 1 else 0;
    assert Paused(outs, i) == b + Paused(outs, i + 1);
    Distribute(len, b, Paused(outs, i + 1));
  }

  lemma Distribute(a: int, b: int, c: int)
    ensures a * (b + c) == a * b + a * c
  {
  }

  lemma {:induction false} OwnLength(outs: seq<Option<Audio>>, i: nat, pause: Audio)
    requires i < |outs|
    ensures TotalLength(Own(outs, i, pause))
      == (if outs[i].Some? then AudioProcessor.Length(outs[i].value) else 0)
       + (if outs[i].Some? && i < |outs| - 1 then AudioProcessor.Length(pause) else 0)
  {
    if outs[i].Some? {
      var tail: seq<Audio> := if i < |outs| - 1 then [pause] else [];
      TotalLengthAppend([outs[i].value], tail);
      assert TotalLength([outs[i].value]) == AudioProcessor.Length(outs[i].value);
    }
  }

  /** Every voiced chunk but the last chunk is paused after. */
  lemma {:induction false} PausedVoiced(outs: seq<Option<Audio>>, i: nat)
    requires i <= |outs|
    ensures Paused(outs, i) + (if i < |outs| && outs[|outs| - 1].Some? then 1 else 0) == Voiced(outs, i)
    decreases |outs| - i
  {
    if i < |outs| {
      PausedVoiced(outs, i + 1);
    }
  }

  /**
   * Stitching appends, after the empty start, each voiced chunk's audio
   * followed by the pause unless it is the last chunk; failed chunks are
   * skipped. The result lasts as long as the voiced audio plus one pause for
   * every voiced chunk other than the last chunk.
   */
  lemma {:induction false} StitchPlan(text: string, params: VoiceMapper.VoiceParameters, emotion: string, modelKey: string,
                                      render: Request -> Option<Audio>)
    ensures var outs := Outcomes(SplitText(text), emotion, modelKey, params, render);
      var pause := AudioProcessor.Silence(PauseFor(emotion), SilenceRate);
      var r := SynthesizeStitched(text, params, emotion, modelKey, render, false).value;
      var last := if |outs| > 0 && outs[|outs| - 1].Some? then 1 else 0;
      && Spine(r) == [EmptyAudio] + ClipsFrom(outs, 0, pause)
      && AudioProcessor.Length(r) == VoicedLength(outs, 0) + PauseFor(emotion) * Paused(outs, 0)
      && Paused(outs, 0) + last == Voiced(outs, 0)
  {
    var outs := Outcomes(SplitText(text), emotion, modelKey, params, render);
    var pause := AudioProcessor.Silence(PauseFor(emotion), SilenceRate);
    assert AudioProcessor.Length(pause) == PauseFor(emotion);
    StitchLength(outs, pause);
    PausedVoiced(outs, 0);
  }

  /** Stitching whatever the chunks yielded: the appended clips and the total length. */
  lemma {:induction false} StitchLength(outs: seq<Option<Audio>>, pause: Audio)
    ensures var r := StitchFrom(EmptyAudio, outs, 0, pause);
      && Spine(r) == [EmptyAudio] + ClipsFrom(outs, 0, pause)
      && AudioProcessor.Length(r) == VoicedLength(outs, 0) + AudioProcessor.Length(pause) * Paused(outs, 0)
  {
    var r := StitchFrom(EmptyAudio, outs, 0, pause);
    StitchSpine(EmptyAudio, outs, 0, pause);
    SpineLength(r);
    TotalLengthAppend([EmptyAudio], ClipsFrom(outs, 0, pause));
    ClipsLength(outs, 0, pause);
  }

  // ---------------------------------------------------------------------------
  // synthesize_async
  // ---------------------------------------------------------------------------

  const DefaultModel: string := "vits-emotion"

  /** `model or DEFAULT_MODEL`: a missing or empty model name selects the default; never `None`. */
  function ModelKey(model: Option<string>): (key: Option<string>)
    ensures key.Some? && key.value != []
    ensures model.Some? && model.value != [] ==> key == model
  {
    if model.None? || model.value == [] then Some(DefaultModel) else model
  }

  /** The ElevenLabs request: `text_to_speech.convert`'s arguments. */
  datatype CloudRequest = CloudRequest(voiceId: string, text: string, modelId: string, settings: VoiceMapper.ElevenLabsSettings)

  const DefaultVoiceId: string := "21m00Tcm4TlvDq8ikWAM"

  function CloudRequestFor(text: string, params: VoiceMapper.VoiceParameters, voiceId: Option<string>): CloudRequest
  {
    var id := if voiceId.None? || voiceId.value == [] then DefaultVoiceId else voiceId.value;
    CloudRequest(id, text, "eleven_turbo_v2_5", VoiceMapper.ElevenLabsParams(params))
  }

  /** What `synthesize_async` returns the bytes of. */
  datatype Produced = FromCloud(data: seq<Base64.byte>) | FromLocal(audio: Audio)

  /** The configuration and engines `synthesize_async` relies on. */
  datatype Engines = Engines(
    useElevenLabs: bool,
    voiceId: Option<string>,
    cloud: CloudRequest -> Option<seq<Base64.byte>>,
    render: Request -> Option<Audio>,
    skipStitch: bool)

  /** The local path: the stitching engine with the given key. */
  function Local(text: string, params: VoiceMapper.VoiceParameters, emotion: string, key: string, engines: Engines): Option<Produced>
  {
    match SynthesizeStitched(text, params, emotion, key, engines.render, engines.skipStitch)
    case None => None
    case Some(a) => Some(FromLocal(a))
  }

  /**
   * `synthesize_async`: the cloud engine when the key says so, falling back
   * once to the local path if it fails; the local path otherwise. `None` is
   * an exception escaping to the caller.
   */
  function SynthesizeAsync(text: string, params: VoiceMapper.VoiceParameters, emotion: string, model: Option<string>,
                           engines: Engines): Option<Produced>
  {
    var key := ModelKey(model);
    if key == Some("elevenlabs") || (key.None? && engines.useElevenLabs) then
      match engines.cloud(CloudRequestFor(text, params, engines.voiceId))
      case Some(data) => Some(FromCloud(data))
      case None => Local(text, params, emotion, key.value, engines)
    else Local(text, params, emotion, key.value, engines)
  }

  /**
   * The cloud engine is asked exactly when "elevenlabs" is requested by name
   * (the `use_elevenlabs` setting never matters, since the key is never
   * `None`); a cloud failure runs the local path once, with VITS, exactly as
   * the default model would; every other key goes straight to the local path.
   */
  lemma {:induction false} SelectionSpec(text: string, params: VoiceMapper.VoiceParameters, emotion: string, model: Option<string>,
                                         engines: Engines, useElevenLabs: bool)
    ensures SynthesizeAsync(text, params, emotion, model, engines)
      == SynthesizeAsync(text, params, emotion, model, engines.(useElevenLabs := useElevenLabs))
    ensures model != Some("elevenlabs") ==>
      SynthesizeAsync(text, params, emotion, model, engines) == Local(text, params, emotion, ModelKey(model).value, engines)
    ensures model == Some("elevenlabs") ==>
      var req := CloudRequestFor(text, params, engines.voiceId);
      SynthesizeAsync(text, params, emotion, model, engines)
        == if engines.cloud(req).Some? then Some(FromCloud(engines.cloud(req).value))
           else SynthesizeAsync(text, params, emotion, None, engines)
  {
    if model == Some("elevenlabs") {
      ElevenLabsKeyIsVits(text, params, emotion, engines);
    }
  }

  /** After a cloud failure the key "elevenlabs" dispatches every request as the default key does. */
  lemma {:induction false} ElevenLabsKeyIsVits(text: string, params: VoiceMapper.VoiceParameters, emotion: string, engines: Engines)
    ensures Local(text, params, emotion, "elevenlabs", engines) == Local(text, params, emotion, DefaultModel, engines)
  {
    var chunks := SplitText(text);
    var outs := Outcomes(chunks, emotion, "elevenlabs", params, engines.render);
    var outs' := Outcomes(chunks, emotion, DefaultModel, params, engines.render);
    forall i | 0 <= i < |chunks| ensures outs[i] == outs'[i] {
      assert SynthesizeChunk(chunks[i], emotion, "elevenlabs", params) == SynthesizeChunk(chunks[i], emotion, DefaultModel, params);
    }
    assert outs == outs';
  }

  // ---------------------------------------------------------------------------
  // get_audio_base64
  // ---------------------------------------------------------------------------

  /** `get_audio_base64(audio_bytes)`. */
  function GetAudioBase64(data: seq<Base64.byte>): (r: string)
    ensures |r| == 4 * ((|data| + 2) / 3)
    ensures Base64.Decode(r) == Some(data)
  {
    Base64.EncodeLength(data);
    Base64.DecodeEncode(data);
    Base64.Encode(data)
  }
}
