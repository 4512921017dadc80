/**
 * The order in which `synthesize_speech` of `backend/main.py` composes the
 * components: strip and reject blank text, detect the emotion, map it to
 * voice parameters, describe them, enhance the punctuation, synthesise, and
 * encode the audio in Base64. Routing, validation and logging are not part of it.
 */
module Pipeline {
  import opened Wrappers
  import opened Strings
  import opened Rewrites
  import EmotionDetector
  import VoiceMapper
  import Preprocessor
  import TtsEngine
  import AudioProcessor
  import Base64

  /** The analysis and audio the endpoint returns. */
  datatype Response = Response(
    text: string,
    detection: EmotionDetector.Detection,
    info: EmotionDetector.Info,
    voice: VoiceMapper.VoiceParameters,
    description: string,
    audioBase64: string)

  /** HTTP 400 for blank text, HTTP 500 when a step raises, or the response. */
  datatype Outcome = BadRequest | Failed | Ok(response: Response)

  /**
   * `synthesize_speech`. The classifier loader, the speech engines, the
   * number formatting of the description and `save` (writing local audio
   * as WAV and reading the file back) are parameters. `apply_effects`,
   * `pitch_shift` and `reverb_amount` reach `synthesize_async` only as
   * ignored keyword arguments, so they are not parameters here.
   */
  function Synthesize(requestText: string, model: Option<string>, loader: Option<EmotionDetector.Classifier>,
                      engines: TtsEngine.Engines, save: AudioProcessor.Audio -> seq<Base64.byte>,
                      format: real -> string): (r: Outcome)
    ensures r == BadRequest <==> IsBlank(requestText)
    ensures r.Ok? ==> r.response.text == Strip(requestText) && !IsBlank(r.response.text)
    ensures r.Ok? ==> VoiceMapper.InRange(r.response.voice)
    ensures r.Ok? ==> Base64.Decode(r.response.audioBase64).Some?
  {
    var text := Strip(requestText);
    if text == [] then BadRequest
    else
      match EmotionDetector.DetectEmotion(text, loader)
      case None => Failed
      case Some(d) =>
        var voice := VoiceMapper.MapEmotionToVoice(d.emotion, d.intensity);
        var enhanced := Preprocessor.EnhancePunctuation(text, d.emotion, d.intensity);
        match TtsEngine.SynthesizeAsync(enhanced, voice, d.emotion, model, engines)
        case None => Failed
        case Some(produced) =>
          var bytes := if produced.FromCloud? then produced.data else save(produced.audio);
          Ok(Response(text, d, EmotionDetector.GetEmotionInfo(d.emotion), voice,
                      VoiceMapper.DescribeVoiceChanges(d.emotion, voice, format), TtsEngine.GetAudioBase64(bytes)))
  }

  /**
   * A non-blank request fails exactly when the classifier cannot be loaded
   * or no engine produces audio for the enhanced text; otherwise the voice
   * is the mapping of the detected emotion at its intensity.
   */
  lemma {:induction false} SynthesizeSteps(requestText: string, model: Option<string>, loader: Option<EmotionDetector.Classifier>,
                                           engines: TtsEngine.Engines, save: AudioProcessor.Audio -> seq<Base64.byte>,
                                           format: real -> string)
    requires !IsBlank(requestText)
    ensures var text := Strip(requestText);
      var r := Synthesize(requestText, model, loader, engines, save, format);
      && (loader.None? ==> r == Failed)
      && (loader.Some? ==>
          var d := EmotionDetector.DetectEmotion(text, loader).value;
          var voice := VoiceMapper.MapEmotionToVoice(d.emotion, d.intensity);
          var enhanced := Preprocessor.EnhancePunctuation(text, d.emotion, d.intensity);
          && (r == Failed <==> TtsEngine.SynthesizeAsync(enhanced, voice, d.emotion, model, engines).None?)
          && (r.Ok? ==> r.response.detection == d && r.response.voice == voice))
  {
    var text := Strip(requestText);
    assert text != [];
    assert !IsBlank(text) by {
      assert !IsSpace(text[0]);
    }
  }

  /**
   * The chunks `_split_text` produces from enhanced text, which the stitch
   * loop would send, carry none of the `.!?` the enhancer put in: the split
   * removes them.
   */
  lemma {:induction false} ChunksDropEndings(text: string, emotion: string, intensity: real)
    ensures var enhanced := Preprocessor.EnhancePunctuation(text, emotion, intensity);
      forall c :: c in TtsEngine.SplitText(enhanced) ==> c != [] && NoneIn(c, Terminals)
  {
    var enhanced := Preprocessor.EnhancePunctuation(text, emotion, intensity);
    TtsEngine.SplitTextSpec(enhanced);
    forall c | c in TtsEngine.SplitText(enhanced) ensures NoneIn(c, Terminals) {
      assert NoneIn(c, TtsEngine.ChunkDelims);
      forall i | 0 <= i < |c| ensures c[i] !in Terminals {
        assert c[i] !in TtsEngine.ChunkDelims;
      }
    }
  }

  /**
   * So every per-chunk request the stitch loop would build from enhanced
   * text is a chunk without `.!?`, whatever key picks the engine.
   */
  lemma {:induction false} StitchedRequestsUnpunctuated(text: string, emotion: string, intensity: real, key: string,
                                                        voice: VoiceMapper.VoiceParameters)
    ensures var chunks := TtsEngine.SplitText(Preprocessor.EnhancePunctuation(text, emotion, intensity));
      forall i :: 0 <= i < |chunks| ==>
        NoneIn(TtsEngine.SynthesizeChunk(chunks[i], emotion, key, voice).text, Terminals)
  {
    var chunks := TtsEngine.SplitText(Preprocessor.EnhancePunctuation(text, emotion, intensity));
    ChunksDropEndings(text, emotion, intensity);
    forall i | 0 <= i < |chunks|
      ensures NoneIn(TtsEngine.SynthesizeChunk(chunks[i], emotion, key, voice).text, Terminals)
    {
      assert chunks[i] in chunks;
    }
  }

  /**
   * The path that does run: the guard `not combined` holds for an empty
   * segment, so the local engine receives the whole enhanced text in one
   * request, which keeps the enhancer's `.!?` ending, and the outcome is
   * that request's.
   */
  lemma {:induction false} GuardedRequest(text: string, emotion: string, intensity: real, key: string,
                                          voice: VoiceMapper.VoiceParameters, engines: TtsEngine.Engines)
    requires engines.skipStitch
    ensures var enhanced := Preprocessor.EnhancePunctuation(text, emotion, intensity);
      var request := TtsEngine.SynthesizeChunk(enhanced, emotion, key, voice);
      var local := TtsEngine.Local(enhanced, voice, emotion, key, engines);
      && request.text == enhanced
      && (!IsBlank(text) && enhanced != [] ==> Preprocessor.EndsInTerminal(request.text))
      && (local.None? <==> engines.render(request).None?)
      && (local.Some? ==> local.value == TtsEngine.FromLocal(engines.render(request).value))
  {
    Preprocessor.EnhanceEnds(text, emotion, intensity);
  }
}
