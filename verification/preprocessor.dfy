/**
 * The emotion-aware punctuation enhancer of `backend/text_preprocessor.py`:
 * seven per-emotion sentence transforms, the split on runs of `.!?`, and the
 * re-join with a per-emotion pause separator.
 */
module Preprocessor {
  import opened Wrappers
  import opened Strings
  import opened Rewrites
  import opened Emotions

  // ---------------------------------------------------------------------------
  // Keyword lists and replacement templates
  // ---------------------------------------------------------------------------

  const JoyWords: seq<string> := ["love", "great", "amazing", "wonderful", "happy", "excited", "fantastic"]
  const AngerWords: seq<string> := ["never", "always", "can't", "won't", "hate", "sick", "tired"]
  const SadWords: seq<string> := ["lost", "gone", "never", "miss", "wish", "sorry", "alone"]
  const FearWords: seq<string> := ["don't", "can't", "won't", "what", "please", "help", "stop"]
  const DisgustWords: seq<string> := ["hate", "disgusting", "awful", "terrible", "gross", "sick"]

  /** Prefixes that make the surprise transform treat a sentence as a question. */
  const QuestionStarts: seq<string> := ["what", "how", "why", "when", "where", "who", "is", "are", "did", "do", "can"]

  /** `\1!` */
  const JoyMark: Mark := Mark([], "!")
  /** `— \1` */
  const AngerMark: Mark := Mark([EmDash, ' '], [])
  /** `... \1` */
  const SadMark: Mark := Mark("... ", [])
  /** `\1 —` */
  const FearMark: Mark := Mark([], [' ', EmDash])
  /** `— \1 —` */
  const DisgustMark: Mark := Mark([EmDash, ' '], [' ', EmDash])

  predicate Keywords(words: seq<string>)
  {
    forall i :: 0 <= i < |words| ==> IsKeyword(words[i])
  }

  /** The joy list holds plain keywords, so no marking can reach a trailing `.!?` run. */
  lemma {:induction false} KeywordsJoy()
    ensures Keywords(JoyWords)
  {
  }

  /** The sadness list holds plain keywords. */
  lemma {:induction false} KeywordsSad()
    ensures Keywords(SadWords)
  {
  }

  /** The fear list holds plain keywords. */
  lemma {:induction false} KeywordsFear()
    ensures Keywords(FearWords)
  {
  }

  /** The disgust list holds plain keywords. */
  lemma {:induction false} KeywordsDisgust()
    ensures Keywords(DisgustWords)
  {
  }

  /** The string ends in `.`, `!` or `?`. */
  predicate EndsInTerminal(s: string)
  {
    s != [] && s[|s| - 1] in Terminals
  }

  // ---------------------------------------------------------------------------
  // The seven sentence transforms
  // ---------------------------------------------------------------------------

  /** The keyword pass of a transform: every word of `words` marked with `mark` when `on`, else nothing. */
  function Emphasize(t: string, words: seq<string>, mark: Mark, on: bool): string
  {
    if on then MarkEach(t, words, mark) else t
  }

  /**
   * The first steps shared by the anger, sadness, fear and disgust transforms:
   * strip, drop the trailing run of `drop`, then the keyword pass.
   */
  function Marked(text: string, drop: set<char>, words: seq<string>, mark: Mark, on: bool): string
  {
    Emphasize(DropTrailing(Strip(text), drop), words, mark, on)
  }

  /** `_enhance_joy`: drop trailing dots, add an intensity-chosen ending, mark positive words with `!`. */
  function EnhanceJoy(text: string, intensity: real): string
  {
    var t := DropTrailing(Strip(text), {'.'}) + JoyEnd(intensity);
    Emphasize(t, JoyWords, JoyMark, intensity > 0.6)
  }

  /** The joy ending: `!!` above 0.7, `!` above 0.4, else `.`. */
  function JoyEnd(intensity: real): string
  {
    if intensity > 0.7 then "!!" else if intensity > 0.4 then "!" else "."
  }

  /** `_enhance_anger`: drop trailing dots, put `— ` before negative words, forceful ending, collapse. */
  function EnhanceAnger(text: string, intensity: real): string
  {
    var t := Marked(text, {'.'}, AngerWords, AngerMark, intensity > 0.6);
    MergeDashes(CollapseSpace(t + AngerEnd(intensity)))
  }

  /** The anger ending; both branches above 0.4 give `!`. */
  function AngerEnd(intensity: real): string
  {
    if intensity > 0.7 then "!" else if intensity > 0.4 then "!" else "."
  }

  /** The ending of the sadness and fear transforms: `...` above 0.5, else `.`. */
  function TrailOff(intensity: real): string
  {
    if intensity > 0.5 then "..." else "."
  }

  /** `_enhance_sadness`: drop the trailing `.!?` run, `... ` before sad words, trailing ellipsis. */
  function EnhanceSadness(text: string, intensity: real): string
  {
    var t := Marked(text, Terminals, SadWords, SadMark, intensity > 0.6);
    CollapseSpace(SquashDots(t + TrailOff(intensity)))
  }

  /** `_enhance_fear`: drop the trailing `.!?` run, ` —` after fear words, uncertain ending. */
  function EnhanceFear(text: string, intensity: real): string
  {
    var t := Marked(text, Terminals, FearWords, FearMark, intensity > 0.6);
    MergeDashes(CollapseSpace(t + TrailOff(intensity)))
  }

  /** The lower-cased sentence starts with one of the question prefixes (plain prefix, not a whole word). */
  predicate IsQuestion(t: string)
  {
    exists i :: 0 <= i < |QuestionStarts| && StartsWith(LowerStr(t), QuestionStarts[i])
  }

  /** The surprise ending: `?!`/`?` after a question prefix, `!!`/`!` otherwise, the longer one above 0.6. */
  function SurpriseEnd(t: string, intensity: real): (r: string)
    ensures r != [] && AllIn(r, Terminals)
  {
    if IsQuestion(t) then (if intensity > 0.6 then "?!" else "?")
    else (if intensity > 0.6 then "!!" else "!")
  }

  /** `_enhance_surprise`: drop the trailing `.!?` run, then a question or exclamation ending. */
  function EnhanceSurprise(text: string, intensity: real): string
  {
    var t := DropTrailing(Strip(text), Terminals);
    t + SurpriseEnd(t, intensity)
  }

  /** `_enhance_disgust`: drop the trailing `.!?` run, `— w —` around disgust words, dismissive `.`. */
  function EnhanceDisgust(text: string, intensity: real): string
  {
    var t := Marked(text, Terminals, DisgustWords, DisgustMark, intensity > 0.6);
    MergeDashes(CollapseSpace(t + "."))
  }

  /**
   * `_clean_punctuation`: strip and make sure the text ends in `.!?`. The
   * source indexes the last character, so it demands non-blank input.
   */
  function CleanPunctuation(text: string): (r: string)
    requires !IsBlank(text)
    ensures EndsInTerminal(r) && !IsBlank(r)
    ensures StartsWith(r, Strip(text)) && |r| <= |Strip(text)| + 1
  {
    var t := Strip(text);
    if t[|t| - 1] in Terminals then t else t + "."
  }

  /** The per-emotion dispatch of the loop body; any other label takes the cleaner. */
  function Transform(e: Emotion, s: string, intensity: real): string
    requires !IsBlank(s)
  {
    match e
    case Joy => EnhanceJoy(s, intensity)
    case Anger => EnhanceAnger(s, intensity)
    case Sadness => EnhanceSadness(s, intensity)
    case Fear => EnhanceFear(s, intensity)
    case Surprise => EnhanceSurprise(s, intensity)
    case Disgust => EnhanceDisgust(s, intensity)
    case Neutral => CleanPunctuation(s)
  }

  /** `PAUSE_MAP`, keyed by emotion; the `". "` default coincides with the neutral entry. */
  function Pause(e: Emotion): string
  {
    match e
    case Joy => "  "
    case Anger => [' ', EmDash, ' ']
    case Sadness => "... "
    case Fear => "... "
    case Surprise => "  "
    case Disgust => [' ', EmDash, ' ']
    case Neutral => ". "
  }

  // ---------------------------------------------------------------------------
  // enhance_punctuation
  // ---------------------------------------------------------------------------

  /** `re.split(r'([.!?]+)', text)` */
  function SplitSentences(text: string): seq<string>
  {
    SplitKeep(text, Terminals, Terminals)
  }

  /** A sentence transform, defined on every non-blank sentence. */
  ghost predicate Total(f: string --> string)
  {
    forall s :: !IsBlank(s) ==> f.requires(s)
  }

  /** A sentence transform that always leaves `.`, `!` or `?` at the end. */
  ghost predicate Punctuates(f: string --> string)
  {
    Total(f) && forall s :: !IsBlank(s) ==> EndsInTerminal(f(s))
  }

  /** The dispatch of the loop body for one emotion and intensity, as a function value. */
  function Sentence(e: Emotion, intensity: real): (f: string --> string)
    ensures Total(f)
  {
    s requires !IsBlank(s) => Transform(e, s, intensity)
  }

  /**
   * The loop over `range(0, len(parts) - 1, 2)`: each text piece that has a
   * punctuation run after it is stripped, skipped when blank, transformed,
   * and given its captured run (or `.`) if the transform left no `.!?` at the end.
   */
  function Pairs(parts: seq<string>, transform: string --> string): seq<string>
    requires Total(transform)
    decreases |parts|
  {
    if |parts| < 2 then []
    else
      var sentence := Strip(parts[0]);
      var punct := parts[1];
      var rest := Pairs(parts[2..], transform);
      if sentence == [] then rest
      else
        var t := transform(sentence);
        var t := if EndsInTerminal(t) then t else t + (if punct != [] then punct else ".");
        [t] + rest
  }

  /** The single-sentence branch: the cleaner runs first when asked (label `"neutral"`), then the transform. */
  function Single(piece: string, cleanFirst: bool, transform: string --> string): string
    requires !IsBlank(piece) && Total(transform)
  {
    var s := Strip(piece);
    var s := if cleanFirst then CleanPunctuation(s) else s;
    transform(s)
  }

  /**
   * The body of `enhance_punctuation` for a given sentence transform and pause:
   * blank text is returned as is, otherwise the split pieces go through the
   * loop, a text without any punctuation run through the single-sentence
   * branch, and the results are joined with the pause.
   */
  function EnhanceWith(text: string, cleanFirst: bool, transform: string --> string, pause: string): string
    requires Total(transform)
  {
    if IsBlank(text) then text
    else
      var parts := SplitSentences(text);
      var processed := Pairs(parts, transform);
      var processed := if |parts| == 1 && !IsBlank(parts[0]) then processed + [Single(parts[0], cleanFirst, transform)] else processed;
      Join(pause, processed)
  }

  /** `enhance_punctuation(text, emotion, intensity)`: the label is lower-cased and selects transform and pause. */
  function EnhancePunctuation(text: string, name: string, intensity: real): string
  {
    var lowered := LowerStr(name);
    var e := OrNeutral(lowered);
    EnhanceWith(text, lowered == "neutral", Sentence(e, intensity), Pause(e))
  }

  // ---------------------------------------------------------------------------
  // Endings of the transforms
  // ---------------------------------------------------------------------------

  /** The keyword pass leaves an appended `.!?` ending alone. */
  lemma {:induction false} EmphasizeAppend(t: string, e: string, words: seq<string>, mark: Mark, on: bool)
    requires Keywords(words) && AllIn(e, Terminals)
    ensures Emphasize(t + e, words, mark, on) == Emphasize(t, words, mark, on) + e
  {
    if on {
      MarkEachAppend(t, e, words, mark);
    }
  }

  /** A marked sentence does not end in a character of `drop` when the template does not add one. */
  lemma {:induction false} MarkedLast(text: string, drop: set<char>, words: seq<string>, mark: Mark, on: bool)
    requires Keywords(words) && EndsOutside(mark, drop)
    ensures LastOutside(Marked(text, drop, words, mark, on), drop)
  {
    if on {
      MarkEachLastOutside(DropTrailing(Strip(text), drop), words, mark, drop);
    }
  }

  /**
   * Joy: the result ends in the intensity-chosen ending (`!!` above 0.7, `!`
   * above 0.4, else `.`), and the emphasis marks only touch the sentence body.
   */
  lemma {:induction false} JoyEnding(text: string, intensity: real)
    ensures var r := EnhanceJoy(text, intensity);
      && r == Emphasize(DropTrailing(Strip(text), {'.'}), JoyWords, JoyMark, intensity > 0.6) + JoyEnd(intensity)
      && EndsWith(r, JoyEnd(intensity))
  {
    var body := DropTrailing(Strip(text), {'.'});
    KeywordsJoy();
    EmphasizeAppend(body, JoyEnd(intensity), JoyWords, JoyMark, intensity > 0.6);
    EndsWithConcat(Emphasize(body, JoyWords, JoyMark, intensity > 0.6), JoyEnd(intensity));
  }

  /**
   * Anger: the result ends in `!` above 0.4 and in `.` otherwise, the
   * clean-up leaves the ending in place, and no whitespace is doubled.
   */
  lemma {:induction false} AngerEnding(text: string, intensity: real)
    ensures var r := EnhanceAnger(text, intensity);
      var t := Marked(text, {'.'}, AngerWords, AngerMark, intensity > 0.6);
      && r == MergeDashes(CollapseSpace(t)) + AngerEnd(intensity)
      && EndsWith(r, AngerEnd(intensity))
      && NoDoubleSpace(r)
  {
    DashTail(Marked(text, {'.'}, AngerWords, AngerMark, intensity > 0.6), AngerEnd(intensity));
  }

  /** An ending appended to a string that does not end in `.`: it ends the result, and a lone `.` stays lone. */
  lemma {:induction false} AppendEnding(x: string, ending: string)
    requires LastOutside(x, {'.'})
    ensures EndsWith(x + ending, ending)
    ensures ending == "." ==> !EndsWith(x + ending, "..")
  {
    EndsWithConcat(x, ending);
    var r := x + ending;
    if x != [] && ending == "." {
      assert r[|r| - 2] == x[|x| - 1];
    }
  }

  /**
   * The clean-up shared by the anger, fear and disgust transforms: collapsing
   * whitespace and merging dashes leave an appended `.!?` ending in place.
   */
  lemma {:induction false} DashTail(t: string, ending: string)
    requires ending != [] && AllIn(ending, Terminals)
    ensures var r := MergeDashes(CollapseSpace(t + ending));
      && r == MergeDashes(CollapseSpace(t)) + ending
      && EndsWith(r, ending)
      && NoDoubleSpace(r)
      && (ending == "." && LastOutside(t, {'.'}) ==> !EndsWith(r, ".."))
  {
    CollapseAppend(t, ending, false);
    MergeDashesAppend(CollapseSpace(t), ending);
    CollapseNoDoubleSpace(t + ending, false);
    MergeDashesNoDoubleSpace(CollapseSpace(t + ending));
    var x := MergeDashes(CollapseSpace(t));
    if LastOutside(t, {'.'}) {
      DashBodyLast(t);
      AppendEnding(x, ending);
    } else {
      EndsWithConcat(x, ending);
    }
  }

  /**
   * Sadness: the result ends in `...` above 0.5 and in a single `.` otherwise,
   * with no doubled whitespace and no run of four dots.
   */
  lemma {:induction false} SadnessEnding(text: string, intensity: real)
    ensures var r := EnhanceSadness(text, intensity);
      && EndsWith(r, TrailOff(intensity))
      && (intensity <= 0.5 ==> !EndsWith(r, ".."))
      && NoDoubleSpace(r) && NoFourDots(r)
  {
    var t := Marked(text, Terminals, SadWords, SadMark, intensity > 0.6);
    KeywordsSad();
    MarkedLast(text, Terminals, SadWords, SadMark, intensity > 0.6);
    SadnessTail(t, TrailOff(intensity));
  }

  /** Collapsing spaces and merging dashes keeps a last character other than `.` off `.`. */
  lemma {:induction false} DashBodyLast(t: string)
    requires LastOutside(t, {'.'})
    ensures LastOutside(MergeDashes(CollapseSpace(t)), {'.'})
  {
    if t != [] {
      CollapseLastNot(t, false, '.');
      if CollapseSpace(t) != [] {
        MergeDashesLastNot(CollapseSpace(t), '.');
      }
    }
  }

  /** Squashing dots and collapsing spaces keeps a last character other than `.` off `.`. */
  lemma {:induction false} SadBodyLast(t: string)
    requires LastOutside(t, {'.'})
    ensures LastOutside(CollapseSpace(SquashDots(t)), {'.'})
  {
    if t != [] {
      SquashDotsLastNot(t);
      CollapseLastNot(SquashDots(t), false, '.');
    }
  }

  /** The clean-up of the sadness transform after the ending is appended to a body not ending in `.!?`. */
  lemma {:induction false} SadnessTail(t: string, ending: string)
    requires LastOutside(t, Terminals)
    requires ending == "..." || ending == "."
    ensures var r := CollapseSpace(SquashDots(t + ending));
      && r == CollapseSpace(SquashDots(t)) + ending
      && EndsWith(r, ending)
      && (ending == "." ==> !EndsWith(r, ".."))
      && NoDoubleSpace(r) && NoFourDots(r)
  {
    var x := CollapseSpace(SquashDots(t));
    var r := CollapseSpace(SquashDots(t + ending));
    assert r == x + ending by {
      SquashDotsAppend(t, ending);
      CollapseAppend(SquashDots(t), ending, false);
    }
    assert NoFourDots(r) && NoDoubleSpace(r) by {
      SquashDotsNoFourDots(t + ending);
      CollapseNoFourDots(SquashDots(t + ending), false);
      CollapseNoDoubleSpace(SquashDots(t + ending), false);
    }
    LastOutsideDot(t);
    SadBodyLast(t);
    AppendEnding(x, ending);
  }

  /** A sentence whose last character is not one of `.!?` does not end in `.` either. */
  lemma {:induction false} LastOutsideDot(t: string)
    requires LastOutside(t, Terminals)
    ensures LastOutside(t, {'.'})
  {
    if t != [] {
      assert '.' in Terminals;
    }
  }

  /**
   * The shared tail of fear and disgust: a marked sentence, an ending from
   * `.!?`, collapsed spaces and merged dashes end in that ending, never in
   * `..` when the ending is a single `.`, and hold no doubled whitespace.
   */
  lemma {:induction false} MarkedDashTail(text: string, words: seq<string>, mark: Mark, on: bool, ending: string)
    requires Keywords(words) && EndsOutside(mark, Terminals)
    requires ending != [] && AllIn(ending, Terminals)
    ensures var r := MergeDashes(CollapseSpace(Marked(text, Terminals, words, mark, on) + ending));
      && EndsWith(r, ending)
      && (ending == "." ==> !EndsWith(r, ".."))
      && NoDoubleSpace(r)
  {
    var t := Marked(text, Terminals, words, mark, on);
    MarkedLast(text, Terminals, words, mark, on);
    LastOutsideDot(t);
    DashTail(t, ending);
  }

  /**
   * Fear: the result ends in `...` above 0.5 and in a single `.` otherwise,
   * with no doubled whitespace.
   */
  lemma {:induction false} FearEnding(text: string, intensity: real)
    ensures var r := EnhanceFear(text, intensity);
      && EndsWith(r, TrailOff(intensity))
      && (intensity <= 0.5 ==> !EndsWith(r, ".."))
      && NoDoubleSpace(r)
  {
    KeywordsFear();
    MarkedDashTail(text, FearWords, FearMark, intensity > 0.6, TrailOff(intensity));
  }

  /** Disgust: the result always ends in a single `.`, with no doubled whitespace. */
  lemma {:induction false} DisgustEnding(text: string, intensity: real)
    ensures var r := EnhanceDisgust(text, intensity);
      EndsWith(r, ".") && !EndsWith(r, "..") && NoDoubleSpace(r)
  {
    KeywordsDisgust();
    MarkedDashTail(text, DisgustWords, DisgustMark, intensity > 0.6, ".");
  }

  /**
   * Surprise: the result is the cleaned sentence followed by its ending, and
   * removing the trailing `.!?` run of the result gives back the cleaned sentence.
   */
  lemma {:induction false} SurpriseEnding(text: string, intensity: real)
    ensures var r := EnhanceSurprise(text, intensity);
      var body := DropTrailing(Strip(text), Terminals);
      && DropTrailing(r, Terminals) == body
      && EndsWith(r, SurpriseEnd(body, intensity))
      && |r| == |body| + |SurpriseEnd(body, intensity)|
  {
    var body := DropTrailing(Strip(text), Terminals);
    var ending := SurpriseEnd(body, intensity);
    DropTrailingAppend(body, ending, Terminals);
    EndsWithConcat(body, ending);
  }

  /** The cleaner is idempotent. */
  lemma {:induction false} CleanIdempotent(text: string)
    requires !IsBlank(text)
    ensures CleanPunctuation(CleanPunctuation(text)) == CleanPunctuation(text)
  {
    var r := CleanPunctuation(text);
    StripNoOp(r);
  }

  /** On a split fragment the cleaner appends exactly one `.` to the stripped text. */
  lemma {:induction false} CleanFragment(f: string)
    requires !IsBlank(f) && NoneIn(f, Terminals)
    ensures CleanPunctuation(f) == Strip(f) + "."
    ensures NoneIn(Strip(f), Terminals)
  {
    StripNoneIn(f, Terminals);
  }

  /** A string ending in a string that ends in `.!?` ends in `.!?` too. */
  lemma {:induction false} EndsWithTerminal(r: string, x: string)
    requires EndsWith(r, x) && EndsInTerminal(x)
    ensures EndsInTerminal(r)
  {
    assert r[|r| - 1] == r[|r| - |x|..][|x| - 1];
  }

  /** Every transform ends its sentence in `.`, `!` or `?`. */
  lemma {:induction false} TransformEnds(e: Emotion, s: string, intensity: real)
    requires !IsBlank(s)
    ensures EndsInTerminal(Transform(e, s, intensity))
  {
    match e
    case Joy =>
      JoyEnding(s, intensity);
      EndsWithTerminal(EnhanceJoy(s, intensity), JoyEnd(intensity));
    case Anger =>
      AngerEnding(s, intensity);
      EndsWithTerminal(EnhanceAnger(s, intensity), AngerEnd(intensity));
    case Sadness =>
      SadnessEnding(s, intensity);
      EndsWithTerminal(EnhanceSadness(s, intensity), TrailOff(intensity));
    case Fear =>
      FearEnding(s, intensity);
      EndsWithTerminal(EnhanceFear(s, intensity), TrailOff(intensity));
    case Surprise =>
      SurpriseEnding(s, intensity);
      EndsWithTerminal(EnhanceSurprise(s, intensity), SurpriseEnd(DropTrailing(Strip(s), Terminals), intensity));
    case Disgust =>
      DisgustEnding(s, intensity);
      EndsWithTerminal(EnhanceDisgust(s, intensity), ".");
    case Neutral =>
  }

  /** The dispatch, as a function value, always punctuates. */
  lemma {:induction false} SentencePunctuates(e: Emotion, intensity: real)
    ensures Punctuates(Sentence(e, intensity))
  {
    var f := Sentence(e, intensity);
    forall s | !IsBlank(s) ensures EndsInTerminal(f(s)) {
      TransformEnds(e, s, intensity);
    }
  }

  // ---------------------------------------------------------------------------
  // The whole enhancer
  // ---------------------------------------------------------------------------

  /** The text pieces the loop visits: every even-indexed piece except the last one. */
  function Fragments(parts: seq<string>): seq<string>
    decreases |parts|
  {
    if |parts| < 2 then [] else [parts[0]] + Fragments(parts[2..])
  }

  /** Reference definition of the loop: every non-blank fragment, stripped and transformed, in order. */
  function Segments(frags: seq<string>, transform: string --> string): seq<string>
    requires Total(transform)
    decreases |frags|
  {
    if frags == [] then []
    else (if IsBlank(frags[0]) then [] else [transform(Strip(frags[0]))]) + Segments(frags[1..], transform)
  }

  /** With a transform that punctuates, the loop computes the reference segments: its fallback never fires. */
  lemma {:induction false} PairsSegments(parts: seq<string>, transform: string --> string)
    requires Punctuates(transform)
    ensures Pairs(parts, transform) == Segments(Fragments(parts), transform)
    decreases |parts|
  {
    if |parts| >= 2 {
      PairsSegments(parts[2..], transform);
      var frags := Fragments(parts);
      assert frags[0] == parts[0] && frags[1..] == Fragments(parts[2..]);
    }
  }

  /** Every string of the list ends in `.`, `!` or `?`. */
  predicate AllEndInTerminal(segs: seq<string>)
  {
    forall i :: 0 <= i < |segs| ==> EndsInTerminal(segs[i])
  }

  /** Every segment ends in `.`, `!` or `?` supplied by its transform. */
  lemma {:induction false} SegmentsEnd(frags: seq<string>, transform: string --> string)
    requires Punctuates(transform)
    ensures AllEndInTerminal(Segments(frags, transform))
    decreases |frags|
  {
    if frags != [] {
      SegmentsEnd(frags[1..], transform);
      var rest := Segments(frags[1..], transform);
      var head := if IsBlank(frags[0]) then [] else [transform(Strip(frags[0]))];
      assert Segments(frags, transform) == head + rest;
      forall i | 0 <= i < |head + rest| ensures EndsInTerminal((head + rest)[i]) {
        if i >= |head| {
          assert (head + rest)[i] == rest[i - |head|];
        }
      }
    }
  }

  /** The fragments of a split hold no `.`, `!` or `?`. */
  lemma {:induction false} FragmentsClean(parts: seq<string>)
    requires Alternates(parts, Terminals, Terminals)
    ensures var frags := Fragments(parts);
      forall i :: 0 <= i < |frags| ==> NoneIn(frags[i], Terminals)
    decreases |parts|
  {
    if |parts| >= 2 {
      var tail := parts[2..];
      assert Alternates(tail, Terminals, Terminals) by {
        forall i | 0 <= i < |tail|
          ensures i % 2 == 0 ==> NoneIn(tail[i], Terminals)
          ensures i % 2 == 1 ==> IsToken(tail[i], Terminals, Terminals)
        {
          assert tail[i] == parts[i + 2];
          assert (i + 2) % 2 == i % 2;
        }
      }
      FragmentsClean(tail);
      var frags := Fragments(parts);
      assert frags == [parts[0]] + Fragments(tail);
      assert NoneIn(parts[0], Terminals);
      forall i | 0 <= i < |frags| ensures NoneIn(frags[i], Terminals) {
        if i > 0 {
          assert frags[i] == Fragments(tail)[i - 1];
        }
      }
    }
  }

  /** The last piece of a split never reaches the loop. */
  lemma {:induction false} FragmentsIgnoreLast(parts: seq<string>, q: string)
    requires |parts| % 2 == 1
    ensures Fragments(parts[..|parts| - 1] + [q]) == Fragments(parts)
    decreases |parts|
  {
    var parts' := parts[..|parts| - 1] + [q];
    if |parts| == 1 {
      assert parts' == [q];
    } else {
      assert parts'[0] == parts[0];
      assert parts'[2..] == parts[2..][..|parts| - 3] + [q];
      FragmentsIgnoreLast(parts[2..], q);
    }
  }

  /** Blank input comes back unchanged; any other output is empty or ends in `.`, `!` or `?`. */
  lemma {:induction false} EnhanceWithEnds(text: string, cleanFirst: bool, transform: string --> string, pause: string)
    requires Punctuates(transform)
    ensures var r := EnhanceWith(text, cleanFirst, transform, pause);
      && (IsBlank(text) ==> r == text)
      && (!IsBlank(text) ==> r == [] || EndsInTerminal(r))
  {
    if !IsBlank(text) {
      var parts := SplitSentences(text);
      var processed := Pairs(parts, transform);
      assert AllEndInTerminal(processed) by {
        PairsSegments(parts, transform);
        SegmentsEnd(Fragments(parts), transform);
      }
      var all := if |parts| == 1 && !IsBlank(parts[0]) then processed + [Single(parts[0], cleanFirst, transform)] else processed;
      assert EnhanceWith(text, cleanFirst, transform, pause) == Join(pause, all);
      assert all == [] || EndsInTerminal(all[|all| - 1]) by {
        if |parts| == 1 && !IsBlank(parts[0]) {
          assert all[|all| - 1] == Single(parts[0], cleanFirst, transform);
        } else if all != [] {
          assert all[|all| - 1] == processed[|processed| - 1];
        }
      }
      if all != [] {
        JoinEndsWith(pause, all);
        EndsWithTerminal(Join(pause, all), all[|all| - 1]);
      }
    }
  }

  /** `EnhanceWithEnds` for the enhancer itself. */
  lemma {:induction false} EnhanceEnds(text: string, name: string, intensity: real)
    ensures var r := EnhancePunctuation(text, name, intensity);
      && (IsBlank(text) ==> r == text)
      && (!IsBlank(text) ==> r == [] || EndsInTerminal(r))
  {
    var lowered := LowerStr(name);
    var e := OrNeutral(lowered);
    SentencePunctuates(e, intensity);
    EnhanceWithEnds(text, lowered == "neutral", Sentence(e, intensity), Pause(e));
  }

  /**
   * With at least one punctuation run, the result is the pause joining the
   * transformed non-blank fragments, and those fragments hold no `.!?`.
   */
  lemma {:induction false} EnhanceWithSentences(text: string, cleanFirst: bool, transform: string --> string, pause: string)
    requires Punctuates(transform)
    requires !IsBlank(text) && !NoneIn(text, Terminals)
    ensures var frags := Fragments(SplitSentences(text));
      && (forall i :: 0 <= i < |frags| ==> NoneIn(frags[i], Terminals))
      && EnhanceWith(text, cleanFirst, transform, pause) == Join(pause, Segments(frags, transform))
  {
    var parts := SplitSentences(text);
    SplitKeepSome(text, Terminals, Terminals);
    SplitKeepPieces(text, Terminals, Terminals);
    FragmentsClean(parts);
    PairsSegments(parts, transform);
  }

  /**
   * With at least one punctuation run, the enhancer joins the per-emotion
   * transforms of the non-blank fragments with the per-emotion pause, and the
   * fragments hold no `.!?`: every terminal in the output comes from a transform.
   */
  lemma {:induction false} EnhanceSentences(text: string, name: string, intensity: real)
    requires !IsBlank(text) && !NoneIn(text, Terminals)
    ensures var e := OrNeutral(LowerStr(name));
      var frags := Fragments(SplitSentences(text));
      && (forall i :: 0 <= i < |frags| ==> NoneIn(frags[i], Terminals))
      && EnhancePunctuation(text, name, intensity) == Join(Pause(e), Segments(frags, Sentence(e, intensity)))
  {
    var lowered := LowerStr(name);
    var e := OrNeutral(lowered);
    SentencePunctuates(e, intensity);
    EnhanceWithSentences(text, lowered == "neutral", Sentence(e, intensity), Pause(e));
  }

  /** Text after the last punctuation run is dropped. */
  lemma {:induction false} EnhanceWithDropsTail(p: string, q: string, cleanFirst: bool, transform: string --> string, pause: string)
    requires Punctuates(transform)
    requires EndsInTerminal(p) && NoneIn(q, Terminals)
    ensures EnhanceWith(p + q, cleanFirst, transform, pause) == EnhanceWith(p, cleanFirst, transform, pause)
  {
    assert (p + q)[|p| - 1] == p[|p| - 1];
    assert !IsBlank(p) && !IsBlank(p + q);
    SplitKeepTail(p, q, Terminals, Terminals);
    var sp := SplitSentences(p);
    var sq := SplitSentences(p + q);
    assert sq == sp[..|sp| - 1] + [q];
    FragmentsIgnoreLast(sp, q);
    PairsSegments(sp, transform);
    PairsSegments(sq, transform);
    assert Pairs(sq, transform) == Pairs(sp, transform);
    assert EnhanceWith(p + q, cleanFirst, transform, pause) == Join(pause, Pairs(sq, transform));
    assert EnhanceWith(p, cleanFirst, transform, pause) == Join(pause, Pairs(sp, transform));
  }

  /** Text after the last punctuation run is dropped by the enhancer. */
  lemma {:induction false} EnhanceDropsTail(p: string, q: string, name: string, intensity: real)
    requires EndsInTerminal(p) && NoneIn(q, Terminals)
    ensures EnhancePunctuation(p + q, name, intensity) == EnhancePunctuation(p, name, intensity)
  {
    var lowered := LowerStr(name);
    var e := OrNeutral(lowered);
    SentencePunctuates(e, intensity);
    EnhanceWithDropsTail(p, q, lowered == "neutral", Sentence(e, intensity), Pause(e));
  }

  /** Input made only of punctuation yields the empty string. */
  lemma {:induction false} EnhancePunctuationOnly(text: string, name: string, intensity: real)
    requires text != [] && AllIn(text, Terminals)
    ensures EnhancePunctuation(text, name, intensity) == []
  {
    SplitKeepAllRun(text, Terminals, Terminals);
    assert !IsSpace(text[0]);
    var f := Sentence(OrNeutral(LowerStr(name)), intensity);
    assert Pairs([[], text, []], f) == Pairs([[]], f);
  }

  /** Non-blank input without punctuation goes through the single-sentence branch. */
  lemma {:induction false} EnhanceWithSingle(text: string, cleanFirst: bool, transform: string --> string, pause: string)
    requires Total(transform) && !IsBlank(text) && NoneIn(text, Terminals)
    ensures EnhanceWith(text, cleanFirst, transform, pause) == Single(text, cleanFirst, transform)
  {
    SplitKeepNone(text, Terminals, Terminals);
    assert Pairs([text], transform) == [];
  }

  /** Cleaning before the cleaner changes nothing. */
  lemma {:induction false} SingleNeutral(text: string, intensity: real)
    requires !IsBlank(text)
    ensures Single(text, true, Sentence(Neutral, intensity)) == Transform(Neutral, Strip(text), intensity)
  {
    CleanIdempotent(Strip(text));
  }

  /** The enhancer is the generic loop with the transform and pause its lower-cased label selects. */
  lemma {:induction false} EnhanceUnfold(text: string, name: string, intensity: real)
    ensures var lowered := LowerStr(name);
      var e := OrNeutral(lowered);
      EnhancePunctuation(text, name, intensity) == EnhanceWith(text, lowered == "neutral", Sentence(e, intensity), Pause(e))
  {
  }

  /** Applying the dispatch function value runs the transform. */
  lemma {:induction false} SentenceApply(e: Emotion, intensity: real, s: string)
    requires !IsBlank(s)
    ensures Sentence(e, intensity)(s) == Transform(e, s, intensity)
  {
  }

  /** `EnhanceNoPunctuation` for the label `"neutral"`, which cleans before the cleaner. */
  lemma {:induction false} NoPunctuationNeutral(text: string, name: string, intensity: real)
    requires !IsBlank(text) && NoneIn(text, Terminals)
    requires LowerStr(name) == "neutral"
    ensures EnhancePunctuation(text, name, intensity) == Transform(OrNeutral(LowerStr(name)), Strip(text), intensity)
  {
    OrNeutralLabel(Neutral);
    EnhanceUnfold(text, name, intensity);
    EnhanceWithSingle(text, true, Sentence(Neutral, intensity), Pause(Neutral));
    SingleNeutral(text, intensity);
  }

  /** `EnhanceNoPunctuation` for every other label. */
  lemma {:induction false} NoPunctuationOther(text: string, name: string, intensity: real)
    requires !IsBlank(text) && NoneIn(text, Terminals)
    requires LowerStr(name) != "neutral"
    ensures EnhancePunctuation(text, name, intensity) == Transform(OrNeutral(LowerStr(name)), Strip(text), intensity)
  {
    var e := OrNeutral(LowerStr(name));
    EnhanceUnfold(text, name, intensity);
    EnhanceWithSingle(text, false, Sentence(e, intensity), Pause(e));
    SentenceApply(e, intensity, Strip(text));
  }

  /** Non-blank input without punctuation is one segment, ending in `.`, `!` or `?`. */
  lemma {:induction false} EnhanceNoPunctuation(text: string, name: string, intensity: real)
    requires !IsBlank(text) && NoneIn(text, Terminals)
    ensures var r := EnhancePunctuation(text, name, intensity);
      && r == Transform(OrNeutral(LowerStr(name)), Strip(text), intensity)
      && EndsInTerminal(r)
  {
    if LowerStr(name) == "neutral" {
      NoPunctuationNeutral(text, name, intensity);
    } else {
      NoPunctuationOther(text, name, intensity);
    }
    TransformEnds(OrNeutral(LowerStr(name)), Strip(text), intensity);
  }

  /** Cleaning first makes no difference to a transform that absorbs the cleaner. */
  lemma {:induction false} EnhanceWithCleanFirst(text: string, transform: string --> string, pause: string)
    requires Total(transform)
    requires forall s :: !IsBlank(s) ==> transform(CleanPunctuation(s)) == transform(s)
    ensures EnhanceWith(text, true, transform, pause) == EnhanceWith(text, false, transform, pause)
  {
    var parts := SplitSentences(text);
    if !IsBlank(text) && |parts| == 1 && !IsBlank(parts[0]) {
      assert Single(parts[0], true, transform) == Single(parts[0], false, transform);
    }
  }

  /** A label the table does not know is not `"neutral"` and lands on the neutral entry. */
  lemma {:induction false} UnknownIsNeutral(lowered: string)
    requires Parse(lowered).None?
    ensures lowered != "neutral" && OrNeutral(lowered) == Neutral
  {
    ParseLabel(Neutral);
  }

  /** The label `"neutral"` runs the neutral transform with the cleaner first. */
  lemma {:induction false} NeutralUnfold(text: string, intensity: real)
    ensures EnhancePunctuation(text, "neutral", intensity)
      == EnhanceWith(text, true, Sentence(Neutral, intensity), Pause(Neutral))
  {
    assert LowerStr("neutral") == "neutral";
    OrNeutralLabel(Neutral);
    EnhanceUnfold(text, "neutral", intensity);
  }

  /** The neutral transform is the cleaner. */
  lemma {:induction false} TransformNeutral(s: string, intensity: real)
    requires !IsBlank(s)
    ensures Transform(Neutral, s, intensity) == CleanPunctuation(s)
  {
  }

  /** The neutral transform already cleans, so cleaning first makes no difference. */
  lemma {:induction false} NeutralCleanAbsorbed(text: string, intensity: real)
    ensures var f := Sentence(Neutral, intensity);
      EnhanceWith(text, true, f, Pause(Neutral)) == EnhanceWith(text, false, f, Pause(Neutral))
  {
    var f := Sentence(Neutral, intensity);
    forall s | !IsBlank(s) ensures f(CleanPunctuation(s)) == f(s) {
      var c := CleanPunctuation(s);
      SentenceApply(Neutral, intensity, c);
      SentenceApply(Neutral, intensity, s);
      TransformNeutral(c, intensity);
      TransformNeutral(s, intensity);
      CleanIdempotent(s);
    }
    EnhanceWithCleanFirst(text, f, Pause(Neutral));
  }

  /** Any label outside the six emotional ones behaves exactly as `"neutral"`. */
  lemma {:induction false} EnhanceUnknownLabel(text: string, name: string, intensity: real)
    requires Parse(LowerStr(name)).None?
    ensures EnhancePunctuation(text, name, intensity) == EnhancePunctuation(text, "neutral", intensity)
  {
    UnknownIsNeutral(LowerStr(name));
    EnhanceUnfold(text, name, intensity);
    NeutralUnfold(text, intensity);
    NeutralCleanAbsorbed(text, intensity);
  }

  /** The label is lower-cased first, so its case does not matter. */
  lemma {:induction false} EnhanceLowersLabel(text: string, name: string, intensity: real)
    ensures EnhancePunctuation(text, name, intensity) == EnhancePunctuation(text, LowerStr(name), intensity)
  {
    LowerStrIdempotent(name);
  }

  /** The first joy keyword of the worked example: "love" occurs once, at position 2, and gains a `!`. */
  lemma {:induction false} JoyMarkLove(text: string)
    requires text == "I love this"
    ensures MarkFirst(text, "love", JoyMark) == "I love! this"
  {
    assert MatchesAt(text, "love", 2);
    assert !MatchesAt(text, "love", 0) && !MatchesAt(text, "love", 1);
    assert FindWord(text, "love", 0) == Some(2);
  }

  /** None of the other joy keywords occurs in the marked worked example. */
  lemma {:induction false} JoyRestAbsent(marked: string)
    requires marked == "I love! this"
    ensures forall i, q :: 0 <= i < |JoyWords[1..]| ==> !MatchesAt(marked, JoyWords[1..][i], q)
  {
    var rest := JoyWords[1..];
    forall i | 0 <= i < |rest| ensures forall q :: !MatchesAt(marked, rest[i], q) {
      NoMatchHead(marked, rest[i]);
    }
  }

  /** The emphasis step of the worked example: only "love" occurs, and it gains a `!`. */
  lemma {:induction false} JoyMarksExample(text: string)
    requires text == "I love this"
    ensures MarkEach(text, JoyWords, JoyMark) == "I love! this"
  {
    var marked := "I love! this";
    JoyMarkLove(text);
    JoyRestAbsent(marked);
    MarkEachNone(marked, JoyWords[1..], JoyMark);
  }

  /** On a stripped sentence without punctuation, label `"joy"` runs the joy transform alone. */
  lemma {:induction false} JoyLabel(text: string, intensity: real)
    requires NoneIn(text, Terminals) && text != [] && !IsSpace(text[0]) && !IsSpace(text[|text| - 1])
    ensures EnhancePunctuation(text, "joy", intensity) == EnhanceJoy(text, intensity)
  {
    assert LowerStr("joy") == "joy" && OrNeutral("joy") == Joy;
    StripNoOp(text);
    EnhanceNoPunctuation(text, "joy", intensity);
  }

  /** A stripped sentence not ending in `.` at joy intensity above 0.7: the marked text plus `!!`. */
  lemma {:induction false} JoyHighBody(text: string, intensity: real)
    requires text == [] || (!IsSpace(text[0]) && !IsSpace(text[|text| - 1]) && text[|text| - 1] != '.')
    requires intensity > 0.7
    ensures EnhanceJoy(text, intensity) == MarkEach(text, JoyWords, JoyMark) + "!!"
  {
    StripNoOp(text);
    DropTrailingNone(text, {'.'});
    JoyEnding(text, intensity);
  }

  /** The worked example: ("I love this", joy, 0.8) gives "I love! this!!". */
  lemma {:induction false} JoyExample(text: string)
    requires text == "I love this"
    ensures EnhancePunctuation(text, "joy", 0.8) == "I love! this!!"
  {
    assert NoneIn(text, Terminals) && !IsSpace(text[0]) && !IsSpace(text[|text| - 1]);
    JoyLabel(text, 0.8);
    StripNoOp(text);
    JoyHighBody(text, 0.8);
    JoyMarksExample(text);
  }
}
