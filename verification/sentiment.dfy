/** The threshold part of `analyze_sentiment`.  The polarity score itself
    comes from a lexical sentiment library outside this model, so it is an
    input here; a score of `None` stands for the library raising, which the
    source swallows and reports as Neutral. */
module SentimentAnalysis {
  import opened Wrappers

  datatype Sentiment = Positive | Negative | Neutral

  /** Scores strictly above this are Positive. */
  const PositiveThreshold: real := 0.1
  /** Scores strictly below this are Negative. */
  const NegativeThreshold: real := -0.1

  /** Buckets a polarity score into one of the three classes.  Both
      comparisons are strict, so the two thresholds themselves are Neutral. */
  function Bucket(polarity: real): (s: Sentiment)
    ensures s == Positive <==> polarity > 0.1
    ensures s == Negative <==> polarity < -0.1
    ensures s == Neutral <==> -0.1 <= polarity <= 0.1
  {
    if polarity > PositiveThreshold then Positive
    else if polarity < NegativeThreshold then Negative
    else Neutral
  }

  /** `analyze_sentiment`: a failed scoring is Neutral, a score is bucketed. */
  function AnalyzeSentiment(score: Option<real>): (s: Sentiment)
    ensures s == Positive <==> score.Some? && score.value > 0.1
    ensures s == Negative <==> score.Some? && score.value < -0.1
    ensures score.None? ==> s == Neutral
  {
    match score
    case None => Neutral
    case Some(p) => Bucket(p)
  }

  /** The order Negative < Neutral < Positive. */
  function Rank(s: Sentiment): int {
    match s
    case Negative => -1
    case Neutral => 0
    case Positive => 1
  }

  /** A higher score never lands in a lower class. */
  lemma BucketMonotone(p: real, q: real)
    requires p <= q
    ensures Rank(Bucket(p)) <= Rank(Bucket(q))
  {
  }

  /** Both thresholds are Neutral. */
  lemma ThresholdsAreNeutral()
    ensures Bucket(0.1) == Neutral && Bucket(-0.1) == Neutral
  {
  }

  /** The label the source stores in each processed article and uses as a
      key of the sentiment distribution. */
  function Label(s: Sentiment): string {
    match s
    case Positive => "Positive"
    case Negative => "Negative"
    case Neutral => "Neutral"
  }

  /** Distinct classes have distinct labels. */
  lemma LabelInjective(s: Sentiment, t: Sentiment)
    ensures Label(s) == Label(t) ==> s == t
  {
  }
}
