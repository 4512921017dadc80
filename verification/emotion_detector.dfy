/**
 * The score post-processing of `backend/emotion_detector.py`. The classifier
 * is an oracle: loading it may fail, and running it returns the model's list
 * of (label, score) pairs or fails.
 */
module EmotionDetector {
  import opened Wrappers
  import opened Strings
  import opened Emotions

  /** One `{'label': ..., 'score': ...}` item, and one entry of the `all_scores` dict. */
  datatype Score = Score(key: string, score: real)

  /** The classifier's answer: a flat list of items, or a list of such lists (one per input). */
  datatype Raw = Flat(items: seq<Score>) | Nested(lists: seq<seq<Score>>)

  /** A loaded classifier; `None` is an inference call that raised. */
  type Classifier = string -> Option<Raw>

  /** The dictionary `detect_emotion` returns; `scores` is `all_scores` in insertion order. */
  datatype Detection = Detection(emotion: string, confidence: real, scores: seq<Score>, intensity: real)

  /** The classifier sees at most this many characters. */
  const MaxInput: nat := 512

  // ---------------------------------------------------------------------------
  // Ordered dictionaries
  // ---------------------------------------------------------------------------

  /** The keys of an ordered dict, in insertion order. */
  function Keys(d: seq<Score>): seq<string>
  {
    seq(|d|, i requires 0 <= i < |d| => d[i].key)
  }

  /** No key occurs twice. */
  predicate DistinctKeys(d: seq<Score>)
  {
    forall i, j :: 0 <= i < j < |d| ==> d[i].key != d[j].key
  }

  /** `d.get(k)`. */
  function Get(d: seq<Score>, k: string): Option<real>
  {
    if d == [] then None
    else if d[0].key == k then Some(d[0].score)
    else Get(d[1..], k)
  }

  /** `d[k] = v`: a present key keeps its position and takes the new value; a new key goes last. */
  function Put(d: seq<Score>, k: string, v: real): (r: seq<Score>)
    ensures |r| == |d| || |r| == |d| + 1
  {
    if d == [] then [Score(k, v)]
    else if d[0].key == k then [Score(k, v)] + d[1..]
    else [d[0]] + Put(d[1..], k, v)
  }

  /** `{item['label']: item['score'] for item in items}`. */
  function ToDict(items: seq<Score>): seq<Score>
  {
    if items == [] then []
    else
      var last := items[|items| - 1];
      Put(ToDict(items[..|items| - 1]), last.key, last.score)
  }

  /** Reference: the score of the last item with label `k`. */
  function LastScore(items: seq<Score>, k: string): Option<real>
  {
    if items == [] then None
    else if items[|items| - 1].key == k then Some(items[|items| - 1].score)
    else LastScore(items[..|items| - 1], k)
  }

  /** Reference: the labels of `items` in order of first occurrence, each once. */
  function FirstOccurrences(names: seq<string>): seq<string>
  {
    if names == [] then []
    else
      var prior := FirstOccurrences(names[..|names| - 1]);
      if names[|names| - 1] in prior then prior else prior + [names[|names| - 1]]
  }

  /** Putting a key reads it back, leaves every other key's value alone, and places the key as a dict does. */
  lemma {:induction false} PutSpec(d: seq<Score>, k: string, v: real)
    ensures Get(Put(d, k, v), k) == Some(v)
    ensures forall k' :: k' != k ==> Get(Put(d, k, v), k') == Get(d, k')
    ensures Keys(Put(d, k, v)) == if k in Keys(d) then Keys(d) else Keys(d) + [k]
  {
    PutGet(d, k, v);
    forall k' | k' != k ensures Get(Put(d, k, v), k') == Get(d, k') {
      PutGetOther(d, k, v, k');
    }
    PutKeys(d, k, v);
  }

  lemma {:induction false} PutGet(d: seq<Score>, k: string, v: real)
    ensures Get(Put(d, k, v), k) == Some(v)
    decreases |d|
  {
    if d != [] && d[0].key != k {
      PutGet(d[1..], k, v);
    }
  }

  lemma {:induction false} PutGetOther(d: seq<Score>, k: string, v: real, k': string)
    requires k' != k
    ensures Get(Put(d, k, v), k') == Get(d, k')
    decreases |d|
  {
    if d != [] && d[0].key != k {
      PutGetOther(d[1..], k, v, k');
    }
  }

  /** The keys of a non-empty dict: its first key, then the rest's. */
  lemma KeysCons(d: seq<Score>)
    requires d != []
    ensures Keys(d) == [d[0].key] + Keys(d[1..])
  {
  }

  lemma {:induction false} PutKeys(d: seq<Score>, k: string, v: real)
    ensures Keys(Put(d, k, v)) == if k in Keys(d) then Keys(d) else Keys(d) + [k]
    decreases |d|
  {
    var r := Put(d, k, v);
    if d == [] {
      assert Keys(r) == [k];
    } else {
      KeysCons(d);
      KeysCons(r);
      if d[0].key == k {
        assert r[1..] == d[1..];
      } else {
        PutKeys(d[1..], k, v);
        assert r[1..] == Put(d[1..], k, v);
      }
    }
  }

  /**
   * The dict comprehension keeps, for each label, the score of its last
   * item, and orders the labels by their first occurrence.
   */
  lemma {:induction false} ToDictSpec(items: seq<Score>)
    ensures forall k :: Get(ToDict(items), k) == LastScore(items, k)
    ensures Keys(ToDict(items)) == FirstOccurrences(Keys(items))
    decreases |items|
  {
    if items != [] {
      var p := items[..|items| - 1];
      var last := items[|items| - 1];
      ToDictSpec(p);
      PutSpec(ToDict(p), last.key, last.score);
      assert Keys(items)[..|items| - 1] == Keys(p);
    }
  }

  /** The keys of the comprehension are distinct. */
  lemma {:induction false} ToDictDistinct(items: seq<Score>)
    ensures DistinctKeys(ToDict(items))
    decreases |items|
  {
    if items != [] {
      var p := items[..|items| - 1];
      var last := items[|items| - 1];
      ToDictDistinct(p);
      PutDistinct(ToDict(p), last.key, last.score);
    }
  }

  /** `d[k] = v` keeps the keys distinct. */
  lemma {:induction false} PutDistinct(d: seq<Score>, k: string, v: real)
    requires DistinctKeys(d)
    ensures DistinctKeys(Put(d, k, v))
    decreases |d|
  {
    var r := Put(d, k, v);
    PutSpec(d, k, v);
    forall i, j | 0 <= i < j < |r| ensures r[i].key != r[j].key {
      assert Keys(r)[i] == r[i].key && Keys(r)[j] == r[j].key;
      if k in Keys(d) {
        assert Keys(d)[i] == d[i].key && Keys(d)[j] == d[j].key;
      } else {
        if j < |d| {
          assert Keys(d)[i] == d[i].key && Keys(d)[j] == d[j].key;
        } else {
          assert Keys(d)[i] == d[i].key;
        }
      }
    }
  }

  // ---------------------------------------------------------------------------
  // The primary emotion and its intensity
  // ---------------------------------------------------------------------------

  /** `max(d, key=d.get)`: the position of the first entry with the largest score. */
  function ArgMax(d: seq<Score>): (i: nat)
    requires d != []
    ensures i < |d|
    ensures forall j :: 0 <= j < |d| ==> d[j].score <= d[i].score
    ensures forall j :: 0 <= j < i ==> d[j].score < d[i].score
  {
    if |d| == 1 then 0
    else
      var j := ArgMax(d[..|d| - 1]);
      if d[|d| - 1].score > d[j].score then |d| - 1 else j
  }

  function Min(a: real, b: real): real
  {
    if a <= b then a else b
  }

  /** `min(1.0, confidence * (1 - neutral_score * 0.5))`. */
  function Intensity(confidence: real, neutral: real): real
  {
    Min(1.0, confidence * (1.0 - neutral * 0.5))
  }

  /** With scores in [0, 1], the intensity lies between half the confidence and the confidence. */
  lemma {:induction false} IntensityBounds(confidence: real, neutral: real)
    requires 0.0 <= confidence <= 1.0 && 0.0 <= neutral <= 1.0
    ensures confidence / 2.0 <= Intensity(confidence, neutral) <= confidence
    ensures neutral == 0.0 ==> Intensity(confidence, neutral) == confidence
  {
    var f := 1.0 - neutral * 0.5;
    assert 0.5 <= f <= 1.0;
    assert confidence * f <= confidence * 1.0 by {
      assert confidence * (1.0 - f) >= 0.0;
    }
    assert confidence * f >= confidence * 0.5 by {
      assert confidence * (f - 0.5) >= 0.0;
    }
  }

  // ---------------------------------------------------------------------------
  // detect_emotion
  // ---------------------------------------------------------------------------

  /** `{label: 0.0 for label in labels}`. */
  function Zeros(names: seq<string>): (d: seq<Score>)
    ensures Keys(d) == names
    ensures forall i :: 0 <= i < |d| ==> d[i].score == 0.0
  {
    seq(|names|, i requires 0 <= i < |names| => Score(names[i], 0.0))
  }

  /** The neutral answer for blank input, an empty result and a failed inference. */
  function Fallback(): Detection
  {
    Detection("neutral", 1.0, Zeros(DetectorLabels), 0.0)
  }

  /**
   * The neutral answer scores every label of the model at zero, and each of
   * those labels names one of the seven emotions the tables know, each once.
   */
  lemma {:induction false} FallbackScores()
    ensures Keys(Fallback().scores) == DetectorLabels
    ensures forall i :: 0 <= i < |Fallback().scores| ==> Fallback().scores[i].score == 0.0
    ensures forall i :: 0 <= i < |DetectorLabels| ==> Parse(DetectorLabels[i]).Some?
    ensures forall e: Emotion :: Label(e) in DetectorLabels
  {
    forall e: Emotion ensures Label(e) in DetectorLabels {
      match e
      case Anger => assert DetectorLabels[0] == Label(e);
      case Disgust => assert DetectorLabels[1] == Label(e);
      case Fear => assert DetectorLabels[2] == Label(e);
      case Joy => assert DetectorLabels[3] == Label(e);
      case Neutral => assert DetectorLabels[4] == Label(e);
      case Sadness => assert DetectorLabels[5] == Label(e);
      case Surprise => assert DetectorLabels[6] == Label(e);
    }
    forall i | 0 <= i < |DetectorLabels| ensures Parse(DetectorLabels[i]).Some? {
      ParseLabelAt(i);
    }
  }

  lemma ParseLabelAt(i: nat)
    requires i < |DetectorLabels|
    ensures Parse(DetectorLabels[i]).Some?
  {
    var e := [Anger, Disgust, Fear, Joy, Neutral, Sadness, Surprise][i];
    assert DetectorLabels[i] == Label(e);
    ParseLabel(e);
  }

  /** `text[:512]`. */
  function Truncate(text: string): (r: string)
    ensures |r| <= MaxInput && |r| <= |text| && r == text[..|r|]
    ensures |text| <= MaxInput ==> r == text
  {
    if |text| <= MaxInput then text else text[..MaxInput]
  }

  /** `results[0] if isinstance(results[0], list) else results`, empty when `results` is empty. */
  function ScoreList(raw: Raw): seq<Score>
  {
    match raw
    case Flat(items) => items
    case Nested(lists) => if lists == [] then [] else lists[0]
  }

  /**
   * Everything after the classifier call: an empty answer (including an empty
   * score list, on which `max` raises) or a failed call falls back to neutral.
   */
  function FromResults(results: Option<Raw>): Detection
  {
    var items := if results.Some? then ScoreList(results.value) else [];
    if items == [] then Fallback()
    else
      var d := ToDict(items);
      assert d != [] by {
        ToDictSpec(items);
        assert Keys(items)[0] in FirstOccurrences(Keys(items)) by {
          FirstOccurrencesContains(Keys(items), 0);
        }
      }
      var i := ArgMax(d);
      var confidence := d[i].score;
      Detection(d[i].key, confidence, d, Intensity(confidence, Get(d, "neutral").GetOr(0.0)))
  }

  /** Every label occurs among the first occurrences. */
  lemma {:induction false} FirstOccurrencesContains(names: seq<string>, i: nat)
    requires i < |names|
    ensures names[i] in FirstOccurrences(names)
    decreases |names|
  {
    var p := names[..|names| - 1];
    if i < |names| - 1 {
      FirstOccurrencesContains(p, i);
      assert p[i] == names[i];
    }
  }

  /**
   * `detect_emotion(text)` for a classifier loader. Blank text never loads or
   * runs the classifier; a load failure (`loader == None`) is not caught and
   * propagates, which the model writes as `None`.
   */
  function DetectEmotion(text: string, loader: Option<Classifier>): (r: Option<Detection>)
    ensures IsBlank(text) ==> r == Some(Fallback())
    ensures !IsBlank(text) ==> (r.None? <==> loader.None?)
  {
    if IsBlank(text) then Some(Fallback())
    else match loader
      case None => None
      case Some(classify) => Some(FromResults(classify(Truncate(text))))
  }

  /** The classifier only sees the first 512 characters: texts that agree on them get the same answer. */
  lemma {:induction false} DetectSeesPrefix(a: string, b: string, classify: Classifier)
    requires !IsBlank(a) && !IsBlank(b)
    requires Truncate(a) == Truncate(b)
    ensures DetectEmotion(a, Some(classify)) == DetectEmotion(b, Some(classify))
  {
  }

  /** An empty answer or a failed inference gives the same neutral result as blank input. */
  lemma {:induction false} DetectFallback(text: string, classify: Classifier)
    requires !IsBlank(text)
    requires var res := classify(Truncate(text)); res.None? || ScoreList(res.value) == []
    ensures DetectEmotion(text, Some(classify)) == Some(Fallback())
    ensures DetectEmotion(text, Some(classify)) == DetectEmotion("", Some(classify))
  {
  }

  /**
   * A non-empty answer: the label is the first key, in insertion order, with
   * the largest score; the confidence is that label's score, which for a
   * repeated label is its last score; the intensity follows the formula with
   * the neutral score defaulting to 0.
   */
  lemma {:induction false} DetectPrimary(text: string, classify: Classifier)
    requires !IsBlank(text)
    requires var res := classify(Truncate(text)); res.Some? && ScoreList(res.value) != []
    ensures var items := ScoreList(classify(Truncate(text)).value);
      var r := DetectEmotion(text, Some(classify)).value;
      var d := ToDict(items);
      && r.scores == d
      && Keys(d) == FirstOccurrences(Keys(items))
      && Some(r.confidence) == LastScore(items, r.emotion)
      && (forall k, s :: LastScore(items, k) == Some(s) ==> s <= r.confidence)
      && (forall i :: 0 <= i < |d| && d[i].key == r.emotion ==>
            forall j :: 0 <= j < i ==> d[j].score < r.confidence)
      && r.intensity == Intensity(r.confidence, LastScore(items, "neutral").GetOr(0.0))
  {
    var items := ScoreList(classify(Truncate(text)).value);
    var r := DetectEmotion(text, Some(classify)).value;
    var d := ToDict(items);
    ToDictSpec(items);
    ToDictDistinct(items);
    var m := ArgMax(d);
    assert r.emotion == d[m].key && r.confidence == d[m].score;
    GetAt(d, m);
    forall k, s | LastScore(items, k) == Some(s) ensures s <= r.confidence {
      var i := GetSome(d, k);
    }
    forall i | 0 <= i < |d| && d[i].key == r.emotion
      ensures forall j :: 0 <= j < i ==> d[j].score < r.confidence
    {
      assert i == m;
    }
  }

  /** In a dict with distinct keys, the entry at position `i` is what `get` returns for its key. */
  lemma {:induction false} GetAt(d: seq<Score>, i: nat)
    requires DistinctKeys(d) && i < |d|
    ensures Get(d, d[i].key) == Some(d[i].score)
    decreases |d|
  {
    if i > 0 {
      assert d[0].key != d[i].key;
      assert DistinctKeys(d[1..]) by {
        forall a, b | 0 <= a < b < |d| - 1 ensures d[1..][a].key != d[1..][b].key {
          assert d[1..][a] == d[a + 1] && d[1..][b] == d[b + 1];
        }
      }
      GetAt(d[1..], i - 1);
    }
  }

  /** A key that `get` finds sits at some position of the dict, with that score. */
  lemma {:induction false} GetSome(d: seq<Score>, k: string) returns (i: nat)
    requires Get(d, k).Some?
    ensures i < |d| && d[i].key == k && d[i].score == Get(d, k).value
    decreases |d|
  {
    if d[0].key == k {
      i := 0;
    } else {
      var j := GetSome(d[1..], k);
      i := j + 1;
    }
  }

  /** The label is not restricted to the seven the tables know: it is whatever the classifier says. */
  lemma {:induction false} DetectOtherLabel(text: string, classify: Classifier)
    requires !IsBlank(text)
    requires classify(Truncate(text)) == Some(Flat([Score("meh", 0.9), Score("joy", 0.1)]))
    ensures DetectEmotion(text, Some(classify)) == Some(Detection("meh", 0.9, [Score("meh", 0.9), Score("joy", 0.1)], 0.9))
  {
    var items := [Score("meh", 0.9), Score("joy", 0.1)];
    assert items[..1] == [Score("meh", 0.9)];
    assert ToDict([Score("meh", 0.9)]) == [Score("meh", 0.9)];
    assert "meh" != "joy" by {
      assert "meh"[0] != "joy"[0];
    }
    assert ToDict(items) == items;
    assert ArgMax(items) == 0 by {
      assert items[..1] == [Score("meh", 0.9)];
    }
    assert Get(items, "neutral") == None by {
      assert "meh"[0] != "neutral"[0] && "joy"[0] != "neutral"[0];
    }
  }

  // ---------------------------------------------------------------------------
  // get_emotion_info
  // ---------------------------------------------------------------------------

  /** The display entry of an emotion (its emoji is not modelled). */
  datatype Info = Info(name: string, color: string)

  function InfoOf(e: Emotion): Info
  {
    match e
    case Joy => Info("Joy", "#FFD700")
    case Anger => Info("Anger", "#FF4757")
    case Sadness => Info("Sadness", "#5B7FFF")
    case Fear => Info("Fear", "#9B59B6")
    case Surprise => Info("Surprise", "#00D9FF")
    case Disgust => Info("Disgust", "#2ECC71")
    case Neutral => Info("Neutral", "#A0A0A0")
  }

  /** `get_emotion_info(emotion)`: exact-match lookup, neutral for anything else. */
  function GetEmotionInfo(s: string): Info
  {
    InfoOf(OrNeutral(s))
  }

  /**
   * A label outside the table shows the neutral entry; a known label shows
   * its own entry, whose display name is the label with a capital first letter.
   */
  lemma {:induction false} EmotionInfoLookup(s: string)
    ensures Parse(s).None? ==> GetEmotionInfo(s) == GetEmotionInfo("neutral")
    ensures Parse(s).Some? ==>
      var n := GetEmotionInfo(s).name;
      |n| == |s| && n[1..] == s[1..] && n[0] == (s[0] as int - 32) as char
  {
    OrNeutralLabel(Neutral);
  }
}
