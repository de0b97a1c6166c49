/** `generate_hindi_summary`: the report rendered for narration.  The model
    keeps the structure of the text (company, the recomputed total, the
    three per-class counts, and up to three numbered headlines with their
    translated sentiment labels) rather than its exact whitespace. */
module Localization {
  import opened Wrappers
  import opened SentimentAnalysis
  import opened Aggregation

  /** The fixed message for an absent report ("no report is available"). */
  const NoReportMessage: string := "कोई रिपोर्ट उपलब्ध नहीं है"

  /** The three-entry label translation table. */
  const SentimentMap: map<string, string> := map[
    "Positive" := "सकारात्मक",
    "Negative" := "नकारात्मक",
    "Neutral" := "तटस्थ"
  ]

  /** At most this many articles are listed. */
  const MaxHeadlines: nat := 3

  /** `sentiment_map.get(word, word)`: translated when known, unchanged otherwise. */
  function Translate(word: string): (r: string)
    ensures word in SentimentMap ==> r == SentimentMap[word] && r in SentimentMap.Values
    ensures word !in SentimentMap ==> r == word
    ensures r != word <==> word in SentimentMap
  {
    if word in SentimentMap then SentimentMap[word] else word
  }

  /** Every label a classifier produces has a translation, so the raw-label
      fallback is never what a listed article shows. */
  lemma LabelsAreTranslated(s: Sentiment)
    ensures Label(s) in SentimentMap
    ensures Translate(Label(s)) in SentimentMap.Values
    ensures Translate(Label(s)) != Label(s)
  {
  }

  /** Distinct classes stay distinct after translation. */
  lemma TranslationInjective(s: Sentiment, t: Sentiment)
    ensures Translate(Label(s)) == Translate(Label(t)) ==> s == t
  {
  }

  /** One numbered entry of the "top news" list. */
  datatype Headline = Headline(number: nat, title: string, feeling: string)

  datatype Summary =
    | Unavailable(message: string)
    | Digest(company: string, total: nat, positive: nat, negative: nat, neutral: nat, headlines: seq<Headline>)

  function Min(a: nat, b: nat): nat {
    if a <= b then a else b
  }

  /** `enumerate(articles, first)`: each article with its number, its title and
      its translated label. */
  function Enumerate(ps: seq<ProcessedArticle>, first: nat): (hs: seq<Headline>)
    ensures |hs| == |ps|
    ensures forall i :: 0 <= i < |ps| ==>
              hs[i] == Headline(first + i, ps[i].title, Translate(Label(ps[i].sentiment)))
  {
    if |ps| == 0 then [] else [Headline(first, ps[0].title, Translate(Label(ps[0].sentiment)))] + Enumerate(ps[1..], first + 1)
  }

  /** `generate_hindi_summary`: the fixed message for an absent report;
      otherwise the counts, their sum as the total, and the first three
      articles numbered from 1 in report order. */
  function HindiSummary(report: Option<Report>): (s: Summary)
    ensures report.None? <==> s == Unavailable(NoReportMessage)
    ensures report.Some? ==> s.Digest? && s.company == report.value.company
    ensures report.Some? ==>
              && s.positive == Count(report.value.distribution, Positive)
              && s.negative == Count(report.value.distribution, Negative)
              && s.neutral == Count(report.value.distribution, Neutral)
              && s.total == s.positive + s.negative + s.neutral
    ensures report.Some? ==> |s.headlines| == Min(MaxHeadlines, |report.value.articles|)
    ensures report.Some? ==> forall i :: 0 <= i < |s.headlines| ==>
              && s.headlines[i].number == i + 1
              && s.headlines[i].title == report.value.articles[i].title
              && s.headlines[i].feeling == Translate(Label(report.value.articles[i].sentiment))
  {
    match report
    case None => Unavailable(NoReportMessage)
    case Some(r) =>
      var positive := Count(r.distribution, Positive);
      var negative := Count(r.distribution, Negative);
      var neutral := Count(r.distribution, Neutral);
      var top := r.articles[..Min(MaxHeadlines, |r.articles|)];
      Digest(r.company, positive + negative + neutral, positive, negative, neutral, Enumerate(top, 1))
  }

  /** The whole pipeline after the fetch: no articles gives the fixed message;
      otherwise the summary's total is the number of fetched articles and it
      lists the first (at most three) fetched titles, in order, each with the
      translation of the class of its title's score. */
  lemma {:induction false} SummaryOfGeneratedReport(company: string, fetched: seq<Article>, score: Scorer)
    ensures var s := HindiSummary(GenerateReport(company, fetched, score));
      && (s == Unavailable(NoReportMessage) <==> |fetched| == 0)
      && (|fetched| > 0 ==>
            && s.total == |fetched|
            && |s.headlines| == Min(MaxHeadlines, |fetched|)
            && forall i :: 0 <= i < |s.headlines| ==>
                 && s.headlines[i].title == fetched[i].title
                 && s.headlines[i].feeling == Translate(Label(AnalyzeSentiment(score(fetched[i].title))))
                 && s.headlines[i].feeling in SentimentMap.Values)
  {
    forall s: Sentiment {
      LabelsAreTranslated(s);
    }
  }
}
