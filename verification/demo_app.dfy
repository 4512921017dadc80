/**
 * The self-contained demo of `huggingface/app.py`: top-label emotion
 * detection, a single-suffix punctuation enhancer, a per-emotion speed
 * modifier clamped to [0.8, 1.5], and the request `generate_speech` hands to
 * the speech model. The classifier and the speech model are parameters.
 */
module DemoApp {
  import opened Wrappers
  import opened Strings
  import opened Emotions
  import opened Rewrites
  import EmotionDetector
  import AudioProcessor

  type Score = EmotionDetector.Score

  // ---------------------------------------------------------------------------
  // enhance_punctuation
  // ---------------------------------------------------------------------------

  /** The openings that make a surprised sentence a question. */
  const AskWords: seq<string> := ["what", "how", "why"]

  /** `any(text.lower().startswith(w) for w in ["what", "how", "why"])`. */
  predicate Asks(t: string)
  {
    exists i :: 0 <= i < |AskWords| && StartsWith(LowerStr(t), AskWords[i])
  }

  /**
   * The one ending the demo appends, chosen by an exact comparison of the
   * label: joy `!!` above 0.7 and `!` otherwise, sadness and fear `...`,
   * anger `!`, surprise `?!` for a question and `!!` otherwise, anything else `.`.
   */
  function Suffix(t: string, emotion: string, intensity: real): (r: string)
    ensures r != [] && AllIn(r, Terminals)
    ensures |r| <= 3
  {
    if emotion == "joy" then (if intensity > 0.7 then "!!" else "!")
    else if emotion == "sadness" then "..."
    else if emotion == "anger" then "!"
    else if emotion == "fear" then "..."
    else if emotion == "surprise" then (if Asks(t) then "?!" else "!!")
    else "."
  }

  /** The text the ending is appended to: stripped, with its trailing `.!?` run removed. */
  function Body(text: string): (t: string)
    ensures t == [] || t[|t| - 1] !in Terminals
    ensures StartsWith(Strip(text), t) && AllIn(Strip(text)[|t|..], Terminals)
  {
    DropTrailing(Strip(text), Terminals)
  }

  /** `enhance_punctuation(text, emotion, intensity)`. */
  function EnhancePunctuation(text: string, emotion: string, intensity: real): (r: string)
    ensures r != [] && r[|r| - 1] in Terminals
  {
    var t := Body(text);
    t + Suffix(t, emotion, intensity)
  }

  /**
   * The enhanced text is the stripped input with its `.!?` ending replaced:
   * the body is a prefix of the stripped input followed only by `.!?`, and the
   * whole trailing `.!?` run of the result is exactly the one suffix.
   */
  lemma {:induction false} EnhanceShape(text: string, emotion: string, intensity: real)
    ensures var t := Body(text);
      var r := EnhancePunctuation(text, emotion, intensity);
      && StartsWith(Strip(text), t)
      && AllIn(Strip(text)[|t|..], Terminals)
      && DropTrailing(r, Terminals) == t
      && TrailingRun(r, Terminals) == |Suffix(t, emotion, intensity)|
      && EndsWith(r, Suffix(t, emotion, intensity))
  {
    var t := Body(text);
    var e := Suffix(t, emotion, intensity);
    TrailingRunAppend(t, e, Terminals);
    DropTrailingAppend(t, e, Terminals);
    EndsWithConcat(t, e);
  }

  /** Text that already carries no whitespace at its ends and no `.!?` ending gets the suffix and nothing else. */
  lemma {:induction false} EnhancePlain(text: string, emotion: string, intensity: real)
    requires text == [] || (!IsSpace(text[0]) && !IsSpace(text[|text| - 1]) && text[|text| - 1] !in Terminals)
    ensures EnhancePunctuation(text, emotion, intensity) == text + Suffix(text, emotion, intensity)
  {
    StripNoOp(text);
    DropTrailingNone(text, Terminals);
  }

  /** The enhanced text neither starts nor ends with whitespace. */
  lemma {:induction false} EnhanceStripped(text: string, emotion: string, intensity: real)
    ensures Strip(EnhancePunctuation(text, emotion, intensity)) == EnhancePunctuation(text, emotion, intensity)
  {
    var t := Body(text);
    var e := Suffix(t, emotion, intensity);
    var r := EnhancePunctuation(text, emotion, intensity);
    assert r == t + e;
    if t != [] {
      var s := Strip(text);
      assert t == s[..|t|];
      assert r[0] == s[0];
    } else {
      TerminalNotSpace(r[0]);
    }
    TerminalNotSpace(r[|r| - 1]);
    StripNoOp(r);
  }

  lemma {:induction false} TerminalNotSpace(c: char)
    requires c in Terminals
    ensures !IsSpace(c)
  {
  }

  /** Enhancing an enhanced text again changes nothing. */
  lemma {:induction false} EnhanceIdempotent(text: string, emotion: string, intensity: real)
    ensures var r := EnhancePunctuation(text, emotion, intensity);
      EnhancePunctuation(r, emotion, intensity) == r
  {
    var r := EnhancePunctuation(text, emotion, intensity);
    EnhanceStripped(text, emotion, intensity);
    EnhanceShape(text, emotion, intensity);
    assert Body(r) == Body(text);
  }

  /** A surprised question ends in `?!`, any other surprised sentence in `!!`. */
  lemma {:induction false} SurpriseSuffix(t: string, intensity: real)
    ensures Suffix(t, "surprise", intensity) == "?!" <==> Asks(t)
    ensures !Asks(t) ==> Suffix(t, "surprise", intensity) == "!!"
  {
  }

  /** A label outside the five handled ones, a capitalised one included, ends the sentence with a single `.`. */
  lemma {:induction false} OtherSuffix(t: string, emotion: string, intensity: real)
    requires emotion !in {"joy", "sadness", "anger", "fear", "surprise"}
    ensures Suffix(t, emotion, intensity) == "."
  {
  }

  /** Only joy depends on the intensity, and only across 0.7. */
  lemma {:induction false} SuffixIntensity(t: string, emotion: string, a: real, b: real)
    requires emotion != "joy" || (a > 0.7 <==> b > 0.7)
    ensures Suffix(t, emotion, a) == Suffix(t, emotion, b)
  {
  }

  // ---------------------------------------------------------------------------
  // detect_emotion
  // ---------------------------------------------------------------------------

  /**
   * `max(results, key=score)` on the first list the classifier returned.
   * An empty outer list raises `IndexError` and an empty inner list
   * `ValueError`; both escape `generate_speech`, shown here as `None`.
   */
  function TopScore(results: seq<seq<Score>>): (r: Option<Score>)
    ensures r.Some? <==> |results| > 0 && |results[0]| > 0
    ensures r.Some? ==> r.value in results[0]
    ensures r.Some? ==> forall j :: 0 <= j < |results[0]| ==> results[0][j].score <= r.value.score
  {
    if |results| == 0 || |results[0]| == 0 then None
    else Some(results[0][EmotionDetector.ArgMax(results[0])])
  }

  /** Among equal top scores `max` keeps the first, as Python's `max` does. */
  lemma {:induction false} TopScoreFirst(results: seq<seq<Score>>, j: nat)
    requires TopScore(results).Some? && j < |results[0]|
    requires results[0][j].score == TopScore(results).value.score
    ensures exists i :: 0 <= i <= j && results[0][i] == TopScore(results).value
  {
    var i := EmotionDetector.ArgMax(results[0]);
    assert results[0][i] == TopScore(results).value;
    assert i <= j;
  }

  // ---------------------------------------------------------------------------
  // generate_speech: intensity, speed and colour
  // ---------------------------------------------------------------------------

  /** `min(1.0, confidence * 1.2)`. */
  function Intensity(confidence: real): (r: real)
    ensures r <= 1.0
    ensures r <= confidence * 1.2
  {
    if confidence * 1.2 <= 1.0 then confidence * 1.2 else 1.0
  }

  /**
   * For a confidence in [0, 1] the intensity lies between the confidence and
   * 1; it saturates at 1 exactly from a confidence of 5/6 on, and grows with the confidence.
   */
  lemma {:induction false} IntensityRange(confidence: real, other: real)
    requires 0.0 <= confidence <= 1.0
    ensures confidence <= Intensity(confidence) <= 1.0
    ensures Intensity(confidence) == 1.0 <==> confidence >= 5.0 / 6.0
    ensures confidence <= other ==> Intensity(confidence) <= Intensity(other)
  {
  }

  /** The per-emotion speed factor; a label outside the table keeps the base speed. */
  function SpeedModifier(emotion: string): (m: real)
    ensures 0.85 <= m <= 1.25
  {
    if emotion == "joy" then 1.15
    else if emotion == "anger" then 1.20
    else if emotion == "sadness" then 0.85
    else if emotion == "fear" then 1.25
    else if emotion == "surprise" then 1.20
    else if emotion == "disgust" then 0.95
    else 1.0
  }

  /** Sadness and disgust slow the voice down, neutral and unknown labels keep it, the others speed it up. */
  lemma {:induction false} SpeedModifierSigns(emotion: string)
    ensures SpeedModifier(emotion) < 1.0 <==> emotion == "sadness" || emotion == "disgust"
    ensures SpeedModifier(emotion) == 1.0 <==> Parse(emotion) == Some(Neutral) || Parse(emotion).None?
  {
  }

  const MinSpeed: real := 0.8
  const MaxSpeed: real := 1.5

  /** `max(0.8, min(1.5, speed * speed_modifier))`. */
  function FinalSpeed(speed: real, emotion: string): (r: real)
    ensures MinSpeed <= r <= MaxSpeed
    ensures MinSpeed <= speed * SpeedModifier(emotion) <= MaxSpeed ==> r == speed * SpeedModifier(emotion)
  {
    AudioProcessor.Clamp(speed * SpeedModifier(emotion), MinSpeed, MaxSpeed)
  }

  /** A faster base speed never gives a slower voice. */
  lemma {:induction false} FinalSpeedMonotone(a: real, b: real, emotion: string)
    requires a <= b
    ensures FinalSpeed(a, emotion) <= FinalSpeed(b, emotion)
  {
    var m := SpeedModifier(emotion);
    assert a * m <= b * m;
  }

  /** On the slider's range [0.8, 1.3] a neutral text is spoken at the base speed. */
  lemma {:induction false} NeutralKeepsSpeed(speed: real)
    requires 0.8 <= speed <= 1.3
    ensures FinalSpeed(speed, "neutral") == speed
  {
  }

  /** The display colour of `EMOTION_INFO`. */
  function Color(e: Emotion): string
  {
    match e
    case Joy => "#FFD93D"
    case Anger => "#FF6B6B"
    case Sadness => "#74B9FF"
    case Fear => "#A29BFE"
    case Surprise => "#FFEAA7"
    case Disgust => "#81C784"
    case Neutral => "#B0BEC5"
  }

  /** `EMOTION_INFO.get(emotion, EMOTION_INFO["neutral"])["color"]`. */
  function ColorOf(emotion: string): string
  {
    Color(OrNeutral(emotion))
  }

  /** Every emotion has its own colour, and a label outside the table takes the neutral one. */
  lemma {:induction false} ColorOfSpec(emotion: string, e: Emotion, e': Emotion)
    ensures Color(e) == Color(e') <==> e == e'
    ensures Parse(emotion).None? ==> ColorOf(emotion) == Color(Neutral)
    ensures ColorOf(Label(e)) == Color(e)
  {
    OrNeutralLabel(e);
  }

  // ---------------------------------------------------------------------------
  // generate_speech
  // ---------------------------------------------------------------------------

  /** What the demo asks the speech model for: the enhanced text at the final speed, in English. */
  datatype SpeechRequest = SpeechRequest(text: string, speed: real)

  /**
   * The outcome shown to the user: a rejected blank input, the spoken
   * request with the detected label, its confidence and colour, or a speech
   * model error.
   */
  datatype Reply =
    | Blank
    | Spoken(request: SpeechRequest, emotion: string, confidence: real, color: string)
    | SpeechError

  /**
   * `generate_speech(text, speed)`. `classify` stands for the text
   * classification pipeline (`None` when it raises) and `speak` for loading
   * the speech model and writing the file (`false` when either raises).
   * Classifier failures are outside the `try` and escape, as `None`.
   */
  function GenerateSpeech(text: string, speed: real, classify: string -> Option<seq<seq<Score>>>,
                          speak: SpeechRequest -> bool): (r: Option<Reply>)
    ensures r == Some(Blank) <==> IsBlank(text)
    ensures r.None? <==> !IsBlank(text) && (classify(Strip(text)).None? || TopScore(classify(Strip(text)).value).None?)
    ensures r.Some? && r.value.Spoken? ==>
      && speak(r.value.request)
      && MinSpeed <= r.value.request.speed <= MaxSpeed
      && r.value.request.text != [] && r.value.request.text[|r.value.request.text| - 1] in Terminals
  {
    if IsBlank(text) then Some(Blank)
    else
      var t := Strip(text);
      match classify(t)
      case None => None
      case Some(results) =>
        match TopScore(results)
        case None => None
        case Some(top) => Some(Respond(t, top, speed, speak))
  }

  /** The part of `generate_speech` after detection: enhance, pick the speed, speak. */
  function Respond(t: string, top: Score, speed: real, speak: SpeechRequest -> bool): (r: Reply)
    ensures r.Spoken? || r.SpeechError?
    ensures r.Spoken? ==> speak(r.request) && r.emotion == top.key && r.confidence == top.score
  {
    var request := SpeechRequest(EnhancePunctuation(t, top.key, Intensity(top.score)), FinalSpeed(speed, top.key));
    if speak(request) then Spoken(request, top.key, top.score, ColorOf(top.key))
    else SpeechError
  }

  /** Surrounding whitespace makes no difference: the classifier and the enhancer both see the stripped text. */
  lemma {:induction false} GenerateStripInvariant(text: string, speed: real, classify: string -> Option<seq<seq<Score>>>,
                                                  speak: SpeechRequest -> bool)
    ensures GenerateSpeech(Strip(text), speed, classify, speak) == GenerateSpeech(text, speed, classify, speak)
  {
    var s := Strip(text);
    StripIdempotent(text);
    BlankStrip(text);
    if !IsBlank(text) {
      assert GenerateSpeech(s, speed, classify, speak) == GenerateSpeech(text, speed, classify, speak);
    }
  }

  /** A text is blank exactly when its strip is. */
  lemma {:induction false} BlankStrip(text: string)
    ensures IsBlank(Strip(text)) <==> IsBlank(text)
  {
    var s := Strip(text);
    if IsBlank(text) {
      assert s == [];
    } else {
      assert !IsSpace(s[0]);
    }
  }

  /**
   * When speech succeeds the spoken text is the input with only its `.!?`
   * ending replaced by the suffix of the top label, and the speed is the
   * clamped product of the base speed and that label's factor.
   */
  lemma {:induction false} GenerateSpoken(text: string, speed: real, classify: string -> Option<seq<seq<Score>>>,
                                          speak: SpeechRequest -> bool)
    requires !IsBlank(text) && classify(Strip(text)).Some?
    requires TopScore(classify(Strip(text)).value).Some?
    ensures var top := TopScore(classify(Strip(text)).value).value;
      var r := GenerateSpeech(text, speed, classify, speak).value;
      var body := Body(text);
      && (r.Spoken? || r.SpeechError?)
      && (r.Spoken? ==>
          && r.emotion == top.key && r.confidence == top.score
          && DropTrailing(r.request.text, Terminals) == body
          && EndsWith(r.request.text, Suffix(body, top.key, Intensity(top.score)))
          && r.request.speed == FinalSpeed(speed, top.key))
  {
    var t := Strip(text);
    var top := TopScore(classify(t).value).value;
    assert GenerateSpeech(text, speed, classify, speak) == Some(Respond(t, top, speed, speak));
    StripIdempotent(text);
    assert Body(t) == Body(text);
    EnhanceShape(t, top.key, Intensity(top.score));
  }
}
