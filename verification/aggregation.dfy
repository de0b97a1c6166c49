/** `generate_report`: classify every fetched article, tag its topics, and
    count the sentiment classes.  The fetched list is an input (the feed
    request is outside this model) and so is the polarity scorer. */
module Aggregation {
  import opened Wrappers
  import opened Text
  import opened Topics
  import opened SentimentAnalysis

  /** A fetched feed item. */
  datatype Article = Article(title: string, link: string, summary: string, source: string)

  /** One entry of the report's article list. */
  datatype ProcessedArticle = ProcessedArticle(title: string, summary: string, sentiment: Sentiment, topics: seq<string>)

  /** The integers behind the "Positive Ratio" text: positives over total,
      or the literal "0%" the source prints when the total is zero. */
  datatype Ratio = Fraction(positive: nat, total: nat) | ZeroPercent

  datatype Report = Report(
    company: string,
    articles: seq<ProcessedArticle>,
    distribution: map<Sentiment, nat>,
    positiveRatio: Ratio)

  /** The polarity library applied to a text; `None` when it raises. */
  type Scorer = string -> Option<real>

  /** A distribution entry, 0 when the class was never seen (`dict.get(k, 0)`
      and the `defaultdict(int)` default). */
  function Count(d: map<Sentiment, nat>, s: Sentiment): nat {
    if s in d then d[s] else 0
  }

  /** The sum of the distribution's values; its keys can only be the three classes. */
  function Total(d: map<Sentiment, nat>): nat {
    Count(d, Positive) + Count(d, Negative) + Count(d, Neutral)
  }

  function Sentiments(ps: seq<ProcessedArticle>): seq<Sentiment> {
    seq(|ps|, i requires 0 <= i < |ps| => ps[i].sentiment)
  }

  /** One loop iteration: the sentiment comes from the title alone, the
      topics from the title and summary joined by a space. */
  function Process(score: Scorer, a: Article): (p: ProcessedArticle)
    ensures p.title == a.title && p.summary == a.summary
    ensures p.sentiment == Positive <==> score(a.title).Some? && score(a.title).value > PositiveThreshold
    ensures p.sentiment == Negative <==> score(a.title).Some? && score(a.title).value < NegativeThreshold
    ensures score(a.title).None? ==> p.sentiment == Neutral
    ensures p.topics == ExtractTopics(a.title + " " + a.summary)
  {
    ProcessedArticle(a.title, a.summary, AnalyzeSentiment(score(a.title)), ExtractTopics(a.title + " " + a.summary))
  }

  /** The loop over the fetched articles, keeping their order. */
  function ProcessAll(score: Scorer, articles: seq<Article>): (r: seq<ProcessedArticle>)
    ensures |r| == |articles|
    ensures forall i :: 0 <= i < |articles| ==> r[i] == Process(score, articles[i])
  {
    if |articles| == 0 then [] else [Process(score, articles[0])] + ProcessAll(score, articles[1..])
  }

  /** The counting of the loop (`sentiment_counts[sentiment] += 1`), one
      sentiment at a time in list order; only classes that occur become keys. */
  function Tally(ss: seq<Sentiment>): (d: map<Sentiment, nat>)
    ensures forall s :: Count(d, s) == multiset(ss)[s]
    ensures forall s :: s in d <==> s in ss
    ensures forall s :: s in d ==> d[s] >= 1
  {
    if |ss| == 0 then map[]
    else
      var init := ss[..|ss| - 1];
      var last := ss[|ss| - 1];
      assert ss == init + [last];
      var d := Tally(init);
      d[last := Count(d, last) + 1]
  }

  /** Every element is in exactly one of the three classes. */
  lemma {:induction false} ClassesPartition(ss: seq<Sentiment>)
    ensures multiset(ss)[Positive] + multiset(ss)[Negative] + multiset(ss)[Neutral] == |ss|
  {
    if |ss| > 0 {
      ClassesPartition(ss[1..]);
      assert ss == [ss[0]] + ss[1..];
      var m, rest := multiset(ss), multiset(ss[1..]);
      assert m == multiset{ss[0]} + rest;
      assert m[ss[0]] == rest[ss[0]] + 1;
      assert forall s :: s != ss[0] ==> m[s] == rest[s];
    }
  }

  /** `generate_report` after the fetch: absent for an empty list; otherwise
      one processed article per fetched one, in order, with counts that add
      up to the number of articles. */
  function GenerateReport(company: string, fetched: seq<Article>, score: Scorer): (r: Option<Report>)
    ensures r.None? <==> |fetched| == 0
    ensures r.Some? ==> r.value.company == company && |r.value.articles| == |fetched|
    ensures r.Some? ==> forall i :: 0 <= i < |fetched| ==>
              && r.value.articles[i].title == fetched[i].title
              && r.value.articles[i].summary == fetched[i].summary
              && r.value.articles[i].sentiment == AnalyzeSentiment(score(fetched[i].title))
              && r.value.articles[i].topics == ExtractTopics(fetched[i].title + " " + fetched[i].summary)
    ensures r.Some? ==> forall s :: Count(r.value.distribution, s) == multiset(Sentiments(r.value.articles))[s]
    ensures r.Some? ==> forall s :: s in r.value.distribution ==> r.value.distribution[s] >= 1
    ensures r.Some? ==> Total(r.value.distribution) == |fetched| > 0
    ensures r.Some? ==> r.value.positiveRatio == Fraction(Count(r.value.distribution, Positive), |fetched|)
  {
    if |fetched| == 0 then None
    else
      var processed := ProcessAll(score, fetched);
      var counts := Tally(Sentiments(processed));
      ClassesPartition(Sentiments(processed));
      var total := Total(counts);
      var ratio := if total > 0 then Fraction(Count(counts, Positive), total) else ZeroPercent;
      Some(Report(company, processed, counts, ratio))
  }

  /** The positive count never exceeds the total, so the ratio is at most one. */
  lemma {:induction false} PositiveAtMostTotal(company: string, fetched: seq<Article>, score: Scorer)
    requires |fetched| > 0
    ensures var r := GenerateReport(company, fetched, score).value;
      r.positiveRatio.Fraction? && r.positiveRatio.positive <= r.positiveRatio.total
  {
  }

  /** Articles with the same title get the same sentiment, whatever their summaries. */
  lemma {:induction false} SentimentFromTitleOnly(company: string, fetched: seq<Article>, score: Scorer, i: nat, j: nat)
    requires i < |fetched| && j < |fetched| && fetched[i].title == fetched[j].title
    ensures var r := GenerateReport(company, fetched, score).value;
      r.articles[i].sentiment == r.articles[j].sentiment
  {
  }

  /** A distribution that counts Positive, Negative, Positive and keeps
      only the classes seen. */
  lemma ScenarioDistribution(d: map<Sentiment, nat>, ss: seq<Sentiment>)
    requires ss == [Positive, Negative, Positive]
    requires forall s :: Count(d, s) == multiset(ss)[s]
    requires forall s :: s in d ==> d[s] >= 1
    ensures d == map[Positive := 2, Negative := 1]
  {
    var expected := map[Positive := 2, Negative := 1];
    assert ss == [Positive] + [Negative] + [Positive];
    assert multiset(ss)[Positive] == 2 && multiset(ss)[Negative] == 1 && multiset(ss)[Neutral] == 0;
    assert Positive in d && Negative in d && Neutral !in d;
    forall s: Sentiment ensures s in d <==> s in expected {
      assert s.Positive? || s.Negative? || s.Neutral?;
    }
    assert d.Keys == expected.Keys;
    assert forall s :: s in d ==> d[s] == expected[s];
  }

  /** The classes of three titles scored 0.4, -0.2 and 0.15. */
  lemma ScenarioSentiments(fetched: seq<Article>, score: Scorer, ss: seq<Sentiment>)
    requires |fetched| == 3
    requires score(fetched[0].title) == Some(0.4)
    requires score(fetched[1].title) == Some(-0.2)
    requires score(fetched[2].title) == Some(0.15)
    requires |ss| == |fetched| && forall i :: 0 <= i < |fetched| ==> ss[i] == AnalyzeSentiment(score(fetched[i].title))
    ensures ss == [Positive, Negative, Positive]
  {
    assert ss[0] == Positive && ss[1] == Negative && ss[2] == Positive;
  }

  /** Three articles scored 0.4, -0.2 and 0.15 give two Positive and one
      Negative, and a positive ratio of two in three. */
  lemma {:induction false} ThreeArticleScenario(company: string, fetched: seq<Article>, score: Scorer)
    requires |fetched| == 3
    requires score(fetched[0].title) == Some(0.4)
    requires score(fetched[1].title) == Some(-0.2)
    requires score(fetched[2].title) == Some(0.15)
    ensures var r := GenerateReport(company, fetched, score).value;
      && Sentiments(r.articles) == [Positive, Negative, Positive]
      && r.distribution == map[Positive := 2, Negative := 1]
      && r.positiveRatio == Fraction(2, 3)
  {
    var r := GenerateReport(company, fetched, score).value;
    ScenarioSentiments(fetched, score, Sentiments(r.articles));
    ScenarioDistribution(r.distribution, Sentiments(r.articles));
  }
}
