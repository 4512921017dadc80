/** The closed set of emotion labels every component keys its tables on. */
module Emotions {
  import opened Wrappers

  datatype Emotion = Joy | Anger | Sadness | Fear | Surprise | Disgust | Neutral

  /** The lower-case name the classifier and the tables use. */
  function Label(e: Emotion): string
  {
    match e
    case Joy => "joy"
    case Anger => "anger"
    case Sadness => "sadness"
    case Fear => "fear"
    case Surprise => "surprise"
    case Disgust => "disgust"
    case Neutral => "neutral"
  }

  /** Exact-match lookup of a name, as a Python dict lookup keyed on the name does it. */
  function Parse(name: string): (r: Option<Emotion>)
    ensures r.Some? ==> Label(r.value) == name
    ensures r.None? <==> forall e: Emotion :: Label(e) != name
  {
    if name == "joy" then Some(Joy)
    else if name == "anger" then Some(Anger)
    else if name == "sadness" then Some(Sadness)
    else if name == "fear" then Some(Fear)
    else if name == "surprise" then Some(Surprise)
    else if name == "disgust" then Some(Disgust)
    else if name == "neutral" then Some(Neutral)
    else None
  }

  /** Every name parses back to its emotion. */
  lemma {:induction false} ParseLabel(e: Emotion)
    ensures Parse(Label(e)) == Some(e)
  {
  }

  /** `TABLE.get(name, TABLE["neutral"])`: the emotion a table lookup lands on. */
  function OrNeutral(name: string): (e: Emotion)
    ensures Parse(name).Some? ==> e == Parse(name).value
    ensures Parse(name).None? ==> e == Neutral
  {
    Parse(name).GetOr(Neutral)
  }

  /** A table lookup by an emotion's own name lands on that emotion. */
  lemma {:induction false} OrNeutralLabel(e: Emotion)
    ensures OrNeutral(Label(e)) == e
  {
    ParseLabel(e);
  }

  /** `EMOTION_LABELS` of the detector, in its order. */
  const DetectorLabels: seq<string> := ["anger", "disgust", "fear", "joy", "neutral", "sadness", "surprise"]
}
