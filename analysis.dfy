/** The `VideoAnalysis` record that the translate endpoint and its client
    exchange, with the fixed list of free-text fields the endpoint translates. */
module Analysis {
  import opened Wrappers

  /** One entry of `keyMoments`: a timestamp and what happens there. */
  datatype KeyMoment = KeyMoment(timestamp: string, description: string)

  /** The eight free-text fields of a record. */
  datatype TextField =
    | Summary | Setting | Mood | Emotions | People | Topic | TweetSuggestion | TitleSuggestions

  /** The fields the endpoint translates, in the order it visits them. */
  const TextFields: seq<TextField> :=
    [Summary, Setting, Mood, Emotions, People, Topic, TweetSuggestion, TitleSuggestions]

  /** A record as it travels as JSON: every named key is optional (None is an
      absent key); `others` holds every key outside the eleven named ones,
      each with its value's JSON text, which nothing here inspects. */
  datatype VideoAnalysis = VideoAnalysis(
    summary: Option<string>,
    setting: Option<string>,
    mood: Option<string>,
    emotions: Option<string>,
    people: Option<string>,
    topic: Option<string>,
    tweetSuggestion: Option<string>,
    titleSuggestions: Option<string>,
    keyMoments: Option<seq<KeyMoment>>,
    error: Option<string>,
    rawText: Option<string>,
    others: map<string, string>)
  {
    /** `record[field]` for a text field. */
    function Get(f: TextField): Option<string> {
      match f
      case Summary => summary
      case Setting => setting
      case Mood => mood
      case Emotions => emotions
      case People => people
      case Topic => topic
      case TweetSuggestion => tweetSuggestion
      case TitleSuggestions => titleSuggestions
    }

    /** `record[field] = v`: the named field takes v and nothing else changes. */
    function With(f: TextField, v: Option<string>): (r: VideoAnalysis)
      ensures r.Get(f) == v
      ensures forall g :: g != f ==> r.Get(g) == Get(g)
      ensures r.keyMoments == keyMoments && r.error == error && r.rawText == rawText
      ensures r.others == others
    {
      match f
      case Summary => this.(summary := v)
      case Setting => this.(setting := v)
      case Mood => this.(mood := v)
      case Emotions => this.(emotions := v)
      case People => this.(people := v)
      case Topic => this.(topic := v)
      case TweetSuggestion => this.(tweetSuggestion := v)
      case TitleSuggestions => this.(titleSuggestions := v)
    }
  }

  /** The record `{}`. */
  const EmptyAnalysis: VideoAnalysis :=
    VideoAnalysis(None, None, None, None, None, None, None, None, None, None, None, map[])

  predicate Distinct(fs: seq<TextField>) {
    forall i, j :: 0 <= i < j < |fs| ==> fs[i] != fs[j]
  }

  /** Where a field stands in TextFields. */
  function Position(f: TextField): (k: nat)
    ensures k < |TextFields| && TextFields[k] == f
  {
    match f
    case Summary => 0
    case Setting => 1
    case Mood => 2
    case Emotions => 3
    case People => 4
    case Topic => 5
    case TweetSuggestion => 6
    case TitleSuggestions => 7
  }

  /** TextFields lists each text field once ... */
  lemma TextFieldsDistinct()
    ensures Distinct(TextFields)
  {
  }

  /** ... and misses none. */
  lemma TextFieldsComplete()
    ensures forall f :: f in TextFields
  {
    forall f ensures f in TextFields {
      assert TextFields[Position(f)] == f;
    }
  }

  /** A field of a list without repetitions does not occur after its own
      position, and the rest of the list has no repetitions either. */
  lemma DistinctAfter(fs: seq<TextField>, i: nat)
    requires Distinct(fs) && i < |fs|
    ensures fs[i] !in fs[i + 1..] && Distinct(fs[i + 1..])
  {
  }
}
