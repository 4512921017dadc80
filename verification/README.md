# Empathy Engine: a Dafny model of the emotion-to-speech pipeline

The Empathy Engine reads a piece of text and classifies its emotion. It turns
that emotion and its intensity into voice parameters, rewrites the
punctuation so that the speech engine pauses and stresses the way the emotion
suggests, and synthesises speech. The engine contains a loop that would
synthesise the text chunk by chunk and stitch the pieces together with
emotion-specific silences. Its guard is always taken, though, so the code sends
the whole enhanced text to the speech engine in one request. The model states
both the path that runs and the stitch plan of the loop that is never reached.
The audio comes back Base64-encoded. This project models that core as pure Dafny functions over
immutable data and proves what each step guarantees.

Modules follow the source files:

- `Wrappers`: `Option`.
- `Strings`: Python's `str.strip` (`Strip`), `str.isspace` (`IsSpace`), ASCII lower-casing (`LowerStr`), trailing-character runs (`DropTrailing`) and `join` (`Join`).
- `Rewrites`: the regular-expression substitutions and splits the source uses.
  - `re.sub(r'\s+', ' ')` is `CollapseSpace`, `re.sub(r'—\s*—', '—')` is `MergeDashes` and `re.sub(r'\.{4,}', '...')` is `SquashDots`.
  - The whole-word, case-insensitive, first-match-only keyword marking is `MarkFirst`, applied over a keyword list by `MarkEach`.
  - `re.split` with a capturing group is `SplitKeep`.
- `Emotions`: the seven labels (`Emotion`, `Label`, `Parse`).
- `Preprocessor`: `backend/text_preprocessor.py`.
  - `enhance_punctuation` is `EnhancePunctuation`.
  - The per-emotion helpers are `EnhanceJoy`, `EnhanceAnger`, `EnhanceSadness`, `EnhanceFear`, `EnhanceSurprise` and `EnhanceDisgust`.
  - `_clean_punctuation` is `CleanPunctuation`, and `PAUSE_MAP` is `Pause`.
- `VoiceMapper`: `backend/voice_mapper.py`.
  - `EMOTION_VOICE_PROFILES` is `ProfileOf`, and `map_emotion_to_voice` is `MapEmotionToVoice`.
  - `get_elevenlabs_params` is `ElevenLabsParams`, and `describe_voice_changes` is `DescribeVoiceChanges`, built on `DescribeParts`.
- `EmotionDetector`: `backend/emotion_detector.py`, the post-processing of the classifier's scores. `detect_emotion` is `DetectEmotion`, and `get_emotion_info` is `GetEmotionInfo`.
- `Base64`: section 4 of RFC 4648. `Encode` is the encoder, and `Decode` is a strict decoder used as its inverse.
- `AudioProcessor`: `backend/audio_processor.py` over a symbolic audio algebra (`Audio`).
  - `process_audio` is `ProcessAudio`, and `normalize_audio` is `NormalizeAudio`.
  - `apply_pitch_shift` is `PitchShift`, and `apply_reverb` is `ApplyReverb`.
  - `get_emotion_effects` is `GetEmotionEffects`.
- `TtsEngine`: `backend/tts_engine.py`.
  - `synthesize_async` is `SynthesizeAsync`.
  - `_synthesize_stitched` is `SynthesizeStitched`, with the local path in `Local`.
  - `_split_text` is `SplitText`, and `_synthesize_chunk` together with `_generate_vits` and `_generate_xtts` is `SynthesizeChunk`.
  - `get_audio_base64` is `GetAudioBase64`.
- `DemoApp`: `huggingface/app.py`.
  - `enhance_punctuation` is `EnhancePunctuation`, and `detect_emotion` is `TopScore`.
  - `generate_speech` is `GenerateSpeech`, with its engine step in `Respond`.
- `Pipeline`: the composition in `synthesize_speech` of `backend/main.py` (`Synthesize`).

Everything the source gets from outside is a function-valued parameter:

- the transformer classifier;
- the speech engines (VITS, XTTS, ElevenLabs);
- the audio library (WAV decode and encode, loudness, the pitch-shift ratio);
- the writing of audio files.

A failure of any of them is `None`. Floating-point numbers are `real`.

Behaviours of the code that the model keeps as written:

- `enhance_punctuation` returns `""` for punctuation-only input such as `"?!"`. Its trailing fragment without `.!?` is dropped when the text has any `.!?` elsewhere (`EnhancePunctuationOnly`, `EnhanceDropsTail`).
- The neutral pause `". "` follows a segment that already ends in `.`, so `"Hello there. How are you."` becomes `"Hello there.. How are you."`.
- In `_synthesize_stitched` the guard `if not combined` is always taken, with or without pydub. `combined` is either an empty `AudioSegment`, whose length is zero and which is therefore falsy, or `None`. The chunk loop is never reached, and the whole enhanced text, including the `.!?` the enhancer added, goes to a single chunk synthesis (`Pipeline.GuardedRequest`). The model makes the guard an explicit boolean `skipStitch` and proves both branches. The stitch-plan lemmas describe the unreachable loop.
- `get_emotion_classifier` re-raises a load failure, so `detect_emotion` fails rather than falling back. The model returns `None`.
- `synthesize_async` falls back from ElevenLabs to the local stitching engine once. The selection does not depend on `use_elevenlabs`, because `model or DEFAULT_MODEL` is never `None`.
- `apply_pitch_shift` changes the frame rate and then resets it. The result keeps the frame rate, but not its duration: shifting up shortens the audio (`AudioProcessor.PitchShiftLength`).
- `huggingface/app.py` uses its own colours, which differ from the backend's `get_emotion_info`.

## Model

| member | source | states |
|---|---|---|
| `Strings.Strip` | backend/main.py:176 | the stripped text is empty exactly when the input is all whitespace, and otherwise neither of its ends is whitespace |
| `Strings.StripIdempotent` | huggingface/app.py:93 | stripping twice gives the same text as stripping once |
| `Strings.LowerStr` | backend/text_preprocessor.py:71 | lowering keeps the length and lowers each character on its own |
| `Strings.LowerStrIdempotent` | backend/text_preprocessor.py:71 | lowering an already lowered label changes nothing |
| `Strings.DropTrailing` | huggingface/app.py:32 | removing a trailing run leaves a prefix that does not end in the set, and everything removed was in the set |
| `Strings.DropTrailingAppend` | backend/text_preprocessor.py:149 | removing a trailing run undoes appending characters of that set to text that does not end in it |
| `Emotions.ParseLabel` | backend/emotion_detector.py:14 | each of the seven labels parses back to its emotion |
| `Emotions.Parse` | backend/voice_mapper.py:106 | a string parses exactly when it is one of the seven labels, and then to the emotion with that label |
| `Emotions.OrNeutral` | backend/voice_mapper.py:106 | a known label gives its emotion and any other string gives neutral, the lookup default the source uses throughout |
| `Rewrites.CollapseNoDoubleSpace` | backend/text_preprocessor.py:194 | after the whitespace collapse no two adjacent characters are both whitespace |
| `Rewrites.CollapseAppend` | backend/text_preprocessor.py:194 | the whitespace collapse commutes with appending text that contains no whitespace |
| `Rewrites.MergeDashesNoDoubleSpace` | backend/text_preprocessor.py:195 | merging dashes never puts two whitespace characters side by side |
| `Rewrites.MergeDashesAppend` | backend/text_preprocessor.py:195 | merging dashes commutes with appending text that contains neither a dash nor whitespace |
| `Rewrites.SquashDotsNoFourDots` | backend/text_preprocessor.py:222 | after squashing dots no run of dots is four long |
| `Rewrites.SquashDotsAppend` | backend/text_preprocessor.py:222 | squashing dots commutes with appending at most three dots to text that does not end in a dot |
| `Rewrites.FindWord` | backend/text_preprocessor.py:165 | the position found is a whole-word match at or after the start, and no earlier position matches; `None` means no position matches |
| `Rewrites.MarkFirstAppend` | backend/text_preprocessor.py:160-165 | marking the first occurrence of a keyword commutes with appending `.!?` |
| `Rewrites.MarkEachNone` | backend/text_preprocessor.py:160-165 | keywords that match nowhere leave the text unchanged |
| `Rewrites.MarkEachLastOutside` | backend/text_preprocessor.py:160-165 | the keyword loop never makes the text end in a character the template cannot end in |
| `Rewrites.SplitKeep` | backend/text_preprocessor.py:87 | the split has an odd number of pieces: text, then pairs of delimiter and text |
| `Rewrites.SplitKeepConcat` | backend/text_preprocessor.py:87 | concatenating the pieces of the split gives back the input |
| `Rewrites.SplitKeepPieces` | backend/text_preprocessor.py:87 | the pieces alternate between delimiter-free text and delimiter matches |
| `Rewrites.SplitKeepNone` | backend/text_preprocessor.py:87 | text without a delimiter splits into itself alone |
| `Rewrites.SplitKeepSome` | backend/text_preprocessor.py:87 | text with a delimiter splits into at least three pieces |
| `Rewrites.SplitKeepTail` | backend/text_preprocessor.py:87 | text after the last delimiter only replaces the last, empty piece |
| `Preprocessor.EnhanceEnds` | backend/text_preprocessor.py:56-143 | blank text comes back unchanged, and otherwise the result is empty or ends in `.!?` |
| `Preprocessor.EnhanceSentences` | backend/text_preprocessor.py:87-140 | text with `.!?` becomes the emotion's pause joined over the transformed fragments, none of which contains `.!?` |
| `Preprocessor.PairsSegments` | backend/text_preprocessor.py:91-118 | the loop over text and punctuation pairs equals the reference definition over the non-blank fragments |
| `Preprocessor.FragmentsClean` | backend/text_preprocessor.py:87-92 | the stripped text fragments of the split contain no `.!?` |
| `Preprocessor.EnhanceDropsTail` | backend/text_preprocessor.py:91 | a trailing fragment without `.!?` after text ending in `.!?` does not reach the result |
| `Preprocessor.EnhancePunctuationOnly` | backend/text_preprocessor.py:87-140 | text made only of `.!?` gives the empty string |
| `Preprocessor.EnhanceNoPunctuation` | backend/text_preprocessor.py:121-136 | text without `.!?` is the emotion's transform of the stripped text, and it ends in `.!?` |
| `Preprocessor.NeutralCleanAbsorbed` | backend/text_preprocessor.py:124-125 | cleaning a neutral single sentence before the cleaner runs again changes nothing |
| `Preprocessor.EnhanceUnknownLabel` | backend/text_preprocessor.py:111-112 | an unknown label is enhanced exactly as neutral |
| `Preprocessor.EnhanceLowersLabel` | backend/text_preprocessor.py:71 | the label is compared case-insensitively |
| `Preprocessor.TransformEnds` | backend/text_preprocessor.py:99-112 | every emotion's transform of non-blank text ends in `.!?` |
| `Preprocessor.JoyEnding` | backend/text_preprocessor.py:146-167 | joy drops trailing dots, emphasises the positive words above 0.6 and ends in `!!`, `!` or `.` by intensity |
| `Preprocessor.JoyExample` | backend/text_preprocessor.py:146-167 | `"I love this"` at joy 0.8 becomes `"I love! this!!"` |
| `Preprocessor.AngerEnding` | backend/text_preprocessor.py:170-197 | anger marks, collapses whitespace and merges dashes before its ending, and has no doubled whitespace |
| `Preprocessor.SadnessEnding` | backend/text_preprocessor.py:200-225 | sadness ends in its trail-off, never in `..` at intensity 0.5 or below, and has no doubled whitespace and no four-dot run |
| `Preprocessor.FearEnding` | backend/text_preprocessor.py:228-253 | fear ends in its trail-off, never in `..` at intensity 0.5 or below, and has no doubled whitespace |
| `Preprocessor.SurpriseEnd` | backend/text_preprocessor.py:264-276 | the surprise ending is non-empty and made of `.!?` only |
| `Preprocessor.SurpriseEnding` | backend/text_preprocessor.py:256-278 | surprise keeps the text before its trailing `.!?` run and replaces that run by the surprise ending |
| `Preprocessor.DisgustEnding` | backend/text_preprocessor.py:281-302 | disgust ends in exactly one `.` and has no doubled whitespace |
| `Preprocessor.CleanPunctuation` | backend/text_preprocessor.py:305-313 | the cleaned text starts with the stripped text, at most one character longer, and ends in `.!?` |
| `Preprocessor.CleanIdempotent` | backend/text_preprocessor.py:305-313 | cleaning twice gives the same text as cleaning once |
| `Preprocessor.CleanFragment` | backend/text_preprocessor.py:305-313 | a fragment without `.!?` is stripped and given a full stop |
| `VoiceMapper.MapEmotionToVoice` | backend/voice_mapper.py:92-133 | every multiplier lies in [0.8, 1.25] and stability, similarity and style lie in [0, 1] |
| `VoiceMapper.Clamp` | backend/voice_mapper.py:109 | the intensity is clamped to [0, 1] and left alone inside it |
| `VoiceMapper.MapClamped` | backend/voice_mapper.py:109 | mapping an intensity equals mapping its clamp |
| `VoiceMapper.MapAtZero` | backend/voice_mapper.py:114-124 | at intensity 0 or below every emotion gives the neutral parameters |
| `VoiceMapper.MapNeutral` | backend/voice_mapper.py:32-89 | neutral gives the neutral parameters at every intensity |
| `VoiceMapper.MapUnknown` | backend/voice_mapper.py:106 | an unknown label maps as neutral |
| `VoiceMapper.MapMonotone` | backend/voice_mapper.py:114-116 | each multiplier moves with intensity in the direction of its profile's delta |
| `VoiceMapper.MapJoyFull` | backend/voice_mapper.py:92-133 | joy at 1.0 gives rate 1.15, pitch 1.10 and volume 1.10 |
| `VoiceMapper.MapSadnessHalf` | backend/voice_mapper.py:92-133 | sadness at 0.5 gives rate 0.90, pitch 0.925 and volume 0.925 |
| `VoiceMapper.ElevenLabsParams` | backend/voice_mapper.py:156-171 | the ElevenLabs settings always ask for speaker boost |
| `VoiceMapper.ElevenLabsInRange` | backend/voice_mapper.py:156-171 | the ElevenLabs settings of any mapping lie in [0, 1], and neutral gives 0.75, 0.75 and 0 |
| `VoiceMapper.PartForSpec` | backend/voice_mapper.py:186-189 | an aspect is described exactly when it changes by more than 1%, with its size and the up word exactly when it increases |
| `VoiceMapper.DescribePartsSpec` | backend/voice_mapper.py:174-205 | the description names exactly the aspects that change by more than 1%, in rate, pitch, volume order, each with its true size and direction |
| `VoiceMapper.DescribeNeutralMessage` | backend/voice_mapper.py:201-202 | the neutral message is returned exactly when no aspect changes by more than 1% |
| `VoiceMapper.DescribeJoyFull` | backend/voice_mapper.py:174-205 | joy at 1.0 is described as 15% faster, 10% higher and 10% louder |
| `EmotionDetector.DetectEmotion` | backend/emotion_detector.py:38-97 | blank text gives the neutral fallback without the classifier, and other text fails only when the classifier cannot be loaded |
| `EmotionDetector.Truncate` | backend/emotion_detector.py:65 | the classifier sees at most the first 512 characters, and all of shorter text |
| `EmotionDetector.DetectSeesPrefix` | backend/emotion_detector.py:65 | two texts with the same first 512 characters get the same detection |
| `EmotionDetector.DetectFallback` | backend/emotion_detector.py:88-97 | a failing classifier or an empty score list gives the same fallback as blank text |
| `EmotionDetector.DetectPrimary` | backend/emotion_detector.py:68-80 | the scores are the dictionary of the results, where a later duplicate label wins; the label is the first one with the highest score; the intensity follows the neutral score |
| `EmotionDetector.ToDictSpec` | backend/emotion_detector.py:72 | each label's value is its last score, and the labels keep the order of their first appearance |
| `EmotionDetector.ArgMax` | backend/emotion_detector.py:75-76 | the chosen entry has the highest score, and every earlier entry scores strictly less |
| `EmotionDetector.IntensityBounds` | backend/emotion_detector.py:79-80 | for scores in [0, 1] the intensity lies between half the confidence and the confidence, and equals it when the neutral score is 0 |
| `EmotionDetector.FallbackScores` | backend/emotion_detector.py:14 | the fallback scores all seven labels at 0, and every emotion has a label in that list |
| `EmotionDetector.DetectOtherLabel` | backend/emotion_detector.py:72-86 | a label outside the seven is passed through as the detected emotion |
| `EmotionDetector.EmotionInfoLookup` | backend/emotion_detector.py:100-120 | an unknown label gets the neutral entry, and a known label's display name is the label with its first letter capitalised |
| `Base64.DecodeEncode` | backend/tts_engine.py:256-257 | decoding the encoding gives the bytes back |
| `Base64.EncodeLength` | backend/tts_engine.py:256-257 | the encoding has four characters for every started group of three bytes |
| `Base64.EncodeAlphabet` | backend/tts_engine.py:256-257 | every character of the encoding is in the Base64 alphabet or is padding, and padding only ends the encoding |
| `AudioProcessor.ProcessAudio` | backend/audio_processor.py:55-60 | without the audio library, or with bytes it cannot decode, the original bytes come back |
| `AudioProcessor.ProcessExports` | backend/audio_processor.py:13-60 | decodable audio is normalised, pitch-shifted and reverberated in that order, each only when asked for, and then exported; if the export fails, the original bytes come back |
| `AudioProcessor.Plan` | backend/audio_processor.py:39-48 | at most three steps, one per effect; `PlanGates` gives the gating and the order |
| `AudioProcessor.PlanGates` | backend/audio_processor.py:39-48 | each effect runs exactly when its gate is open, with its own argument, and the effects keep their order |
| `AudioProcessor.NormalizeGain` | backend/audio_processor.py:74 | the normalising gain lies in [-20, 20] dB |
| `AudioProcessor.NormalizeTowardsTarget` | backend/audio_processor.py:63-76 | audio between -40 and 0 dBFS is brought to -20 dBFS, and louder or quieter audio moves 20 dB towards it |
| `AudioProcessor.NormalizeAudio` | backend/audio_processor.py:63-76 | normalising keeps the length and the frame rate |
| `AudioProcessor.Trunc` | backend/audio_processor.py:94 | `int()` truncates towards zero |
| `AudioProcessor.PitchShift` | backend/audio_processor.py:79-102 | the pitch-shifted audio keeps the input's frame rate |
| `AudioProcessor.PitchShiftLength` | backend/audio_processor.py:91-102 | a factor of at least one never lengthens the audio and shortens it whenever the intermediate rate rises; a lower intermediate rate never shortens it |
| `AudioProcessor.PitchShiftRates` | backend/audio_processor.py:79-102 | the shifted rate is the truncated product of rate and ratio, is unchanged at ratio 1 and grows with the ratio; the result keeps the frame rate |
| `AudioProcessor.ReverbShape` | backend/audio_processor.py:105-147 | reverb is the attenuated dry signal overlaid with four reflections, each the delayed, attenuated signal trimmed to the original length |
| `AudioProcessor.ReverbClamped` | backend/audio_processor.py:116-119 | the amount is clamped to [0, 1], and an amount of 0 or below returns the audio itself |
| `AudioProcessor.TapGains` | backend/audio_processor.py:122-139 | the dry attenuation is exactly `-6 * amount` dB, so it lies in [-6, 0) dB, and later taps are quieter, each gain in (-20, -12] dB |
| `AudioProcessor.ReverbMonotone` | backend/audio_processor.py:130-139 | more reverb lowers the dry level and raises every reflection |
| `AudioProcessor.MixLayers` | backend/audio_processor.py:134-145 | the reflection loop overlays one trimmed reflection per tap and keeps the base and the length |
| `AudioProcessor.EffectsPresets` | backend/audio_processor.py:151-164 | every preset normalises with reverb in [0, 1] and pitch in [-12, 12]; neutral and unknown labels only normalise, and every other emotion runs all three effects |
| `TtsEngine.SplitTextSpec` | backend/tts_engine.py:209-210 | the chunks are the stripped non-blank text pieces of the split in order, and none contains `.?!…—` |
| `TtsEngine.SplitTextSingle` | backend/tts_engine.py:209-210 | text without a delimiter is one stripped chunk, or none when blank |
| `TtsEngine.SplitTextBlank` | backend/tts_engine.py:209-210 | blank text gives no chunks |
| `TtsEngine.PauseLookup` | backend/tts_engine.py:52-60 | the pause is the emotion's entry, between 200 and 700 ms, and 500 ms for an unknown label |
| `TtsEngine.SynthesizeChunk` | backend/tts_engine.py:212-217 | a chunk goes to XTTS exactly when the model key is `xtts`, with its text unchanged |
| `TtsEngine.DispatchSpec` | backend/tts_engine.py:212-238 | VITS uses the emotion's speaker, with its speed modifier times the rate modifier, falling back to p230 at 0.9; XTTS ignores the emotion and the voice parameters |
| `TtsEngine.SadnessSpeed` | backend/tts_engine.py:219-223 | neutral parameters for sadness ask VITS for speaker p229 at speed 0.75 |
| `TtsEngine.SynthesizeStitched` | backend/tts_engine.py:182-207 | with the guard taken, the whole text is one chunk synthesis; otherwise stitching always produces audio |
| `TtsEngine.StitchSpine` | backend/tts_engine.py:194-205 | the stitched audio is the sequence of successful chunk clips, each followed by a pause unless it is the last chunk |
| `TtsEngine.ClipsLength` | backend/tts_engine.py:194-205 | the stitched length is the voiced length plus one pause for every successful chunk that is not the last |
| `TtsEngine.StitchPlan` | backend/tts_engine.py:182-207 | stitching the chunks of a text yields their clips and pauses, its length is the voiced length plus the emotion's pause per pause, and there is one pause fewer than clips exactly when the last chunk succeeds |
| `TtsEngine.ModelKey` | backend/tts_engine.py:162 | the model key is never empty, and it is the requested model when one is given |
| `TtsEngine.SelectionSpec` | backend/tts_engine.py:158-180 | only the `elevenlabs` model tries the cloud, falling back once to local synthesis; every other key is synthesised locally; the `use_elevenlabs` flag changes nothing |
| `TtsEngine.ElevenLabsKeyIsVits` | backend/tts_engine.py:173-180 | after the cloud fails, the `elevenlabs` key synthesises locally exactly as the default VITS model |
| `TtsEngine.GetAudioBase64` | backend/tts_engine.py:256-257 | the Base64 text has four characters per started group of three bytes and decodes back to the bytes |
| `DemoApp.Suffix` | huggingface/app.py:34-48 | the appended ending is one to three characters of `.!?` |
| `DemoApp.Body` | huggingface/app.py:31-32 | the body is the stripped text with its trailing `.!?` run removed: a prefix of it, followed there only by `.!?`, and not ending in `.!?` itself |
| `DemoApp.EnhancePunctuation` | huggingface/app.py:29-50 | the demo enhancement is never empty and ends in `.!?` |
| `DemoApp.EnhanceShape` | huggingface/app.py:29-50 | the result is the stripped text without its trailing `.!?` run, followed by exactly the emotion's ending |
| `DemoApp.EnhanceIdempotent` | huggingface/app.py:29-50 | enhancing the result again with the same emotion and intensity changes nothing |
| `DemoApp.EnhanceStripped` | huggingface/app.py:31 | the result has no surrounding whitespace |
| `DemoApp.SurpriseSuffix` | huggingface/app.py:45-46 | surprise ends in `?!` exactly when the text starts with what, how or why, and in `!!` otherwise |
| `DemoApp.OtherSuffix` | huggingface/app.py:47-48 | any other emotion ends in `.` |
| `DemoApp.SuffixIntensity` | huggingface/app.py:34-48 | only joy's ending depends on the intensity, through the 0.7 threshold |
| `DemoApp.TopScore` | huggingface/app.py:76-86 | the top result exists exactly when the first result list is non-empty, it is one of its entries and no entry scores higher |
| `DemoApp.TopScoreFirst` | huggingface/app.py:82 | the top result is the first entry with the highest score |
| `DemoApp.Intensity` | huggingface/app.py:100 | the intensity is at most 1 and at most 1.2 times the confidence |
| `DemoApp.IntensityRange` | huggingface/app.py:100 | the intensity lies between the confidence and 1, reaches 1 exactly from confidence 5/6 and grows with the confidence |
| `DemoApp.SpeedModifier` | huggingface/app.py:104-112 | the speed modifier lies in [0.85, 1.25] |
| `DemoApp.SpeedModifierSigns` | huggingface/app.py:104-112 | only sadness and disgust slow down, and only neutral and unknown labels keep the speed |
| `DemoApp.FinalSpeed` | huggingface/app.py:114-115 | the final speed lies in [0.8, 1.5] and is the modified speed whenever that lies in the range |
| `DemoApp.FinalSpeedMonotone` | huggingface/app.py:114-115 | a faster requested speed never gives a slower final speed |
| `DemoApp.NeutralKeepsSpeed` | huggingface/app.py:104-115 | neutral keeps every requested speed in [0.8, 1.3] |
| `DemoApp.ColorOfSpec` | huggingface/app.py:18-26 | the seven colours are distinct, and an unknown label gets the neutral colour |
| `DemoApp.GenerateSpeech` | huggingface/app.py:88-140 | blank text is refused before classifying; a missing classifier result fails; speech is only reported when the engine succeeded, at a speed in [0.8, 1.5], on text ending in `.!?` |
| `DemoApp.Respond` | huggingface/app.py:117-140 | the engine step either speaks or reports an error, and it speaks only when the engine succeeded, carrying the top label and score |
| `DemoApp.GenerateStripInvariant` | huggingface/app.py:90-93 | surrounding whitespace does not change the outcome |
| `DemoApp.GenerateSpoken` | huggingface/app.py:93-131 | spoken output carries the top label and score, the stripped text with its ending replaced by the emotion's, and the clamped speed |
| `Pipeline.Synthesize` | backend/main.py:166-254 | blank text is refused with 400; a success returns the stripped text, in-range voice parameters and decodable Base64 audio |
| `Pipeline.SynthesizeSteps` | backend/main.py:183-218 | without a classifier the request fails; otherwise it fails exactly when synthesis of the enhanced text fails, and the voice is the mapping of the detected emotion at its intensity |
| `Pipeline.ChunksDropEndings` | backend/main.py:201-218 | the chunks `_split_text` produces from enhanced text, which the stitch loop would send, are non-empty and contain none of the `.!?` the enhancer added |
| `Pipeline.StitchedRequestsUnpunctuated` | backend/main.py:201-218 | every per-chunk request the stitch loop would build from enhanced text carries a chunk without `.!?` |
| `Pipeline.GuardedRequest` | backend/tts_engine.py:185-192 | on the path that runs, the local engine gets the whole enhanced text as one request, ending in `.!?` when the input is not blank and the result is not empty, and the outcome is that request's |

## Left out

- Rewrites.MatchesAt: `\b` and `\w` are ASCII only. Python's `re` treats non-ASCII letters as word characters. For `"éhate it"` with disgust at 0.9 the model marks `hate`, giving `"é— hate — it."`, while the source gives `"éhate it."`.
- Strings.Lower: case-insensitive matching is ASCII only. Python's `re.IGNORECASE` also folds characters such as `ſ` to `s`. For `"so ſick"` with disgust at 0.9 the source marks `ſick`, giving `"so — ſick —."`, while the model gives `"so ſick."`.
- `enhance_punctuation` has a default `intensity=0.5` (backend/text_preprocessor.py:56). Every caller passes the intensity, so the model has no default.
- The `logger.debug` call at backend/text_preprocessor.py:142 and the other logging are left out. They have no effect on results.
- `EMOTION_PUNCTUATION` (backend/text_preprocessor.py:13-53) is left out. It is looked up at line 72 and never used.
- Python floats are modelled as exact `real` numbers. Thresholds such as 0.6, 0.7 and 0.5 compare exactly, with no rounding.
- `round(…, 4)` on the confidence, scores and intensity of `detect_emotion` is left out. Rounding has no exact meaning over reals.
- Number formatting is a parameter `format` and is left out. This covers `:.0f` in `describe_voice_changes` and `:.0%` and `:.2f` in the demo's display strings.
- The emoji fields of `get_emotion_info` and `EMOTION_INFO` are left out. They, `capitalize()` and the other display strings of the demo are presentation only.
- `get_pyttsx3_params` (backend/voice_mapper.py:136-153) is left out. Nothing in the pipeline calls it.
- `get_available_models` (backend/tts_engine.py:66) is left out. It is a static list for the UI.
- Loading and caching of models, the singleton engines, the `torch.load` patch (backend/tts_engine.py:20-27) and the generation of XTTS reference audio are left out. They are I/O and process setup.
- File names, temporary directories, `OUTPUT_DIR` and reading files back are left out. Writing local audio and reading it back is the parameter `save`.
- The classifier, the three speech engines and the audio library are parameters, not models.
  - The pitch ratio `2 ** (semitones / 12.0)` comes from the parameter `rateChange`, because Dafny has no real exponentiation.
  - Loudness in dBFS comes from `level`.
- AudioProcessor.ProcessAudio: an exception raised inside normalisation, pitch shift or reverb is not modelled. Only decode and export failures return the original bytes. The model does not claim that the exported bytes differ from the input.
- `AudioSegment.empty()` is the silent segment of length 0. Lengths are whole milliseconds. Re-spawning samples at a new frame rate scales the length by the ratio of the rates, rounded down; resampling keeps it.
- `process_audio` is not called from `synthesize_speech`. The `apply_effects`, `pitch_shift` and `reverb_amount` arguments are absorbed by `**kwargs` in `synthesize_async`, so the pipeline does not pass them.
- The error messages built from `str(e)` are left out, in both `synthesize_speech` and the demo. Errors are `Failed` and `SpeechError`.
- The demo's `detect_emotion` takes `classifier(text)[0]` as the score list. The model takes the nested shape that `top_k=None` produces. An exception there is `None`.
- The ElevenLabs voice id and model id constants are carried as data. The network call itself is the `cloud` parameter.
- Concurrency is left out: `async`, `run_in_executor`, and the event loop.
- The FastAPI application is left out: routing, CORS, static files, the other endpoints, startup and shutdown, and `config.py`.
- The Gradio interface of the demo (huggingface/app.py:143-242) is left out.
