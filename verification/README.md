# Company news sentiment analyzer — Dafny model of the report pipeline

The application fetches recent headlines about a company and classifies each
headline's sentiment. It tags each article with topics from a fixed keyword
table, then aggregates the results into a report. Finally it renders a Hindi
summary of that report for speech synthesis. This project models the pure
part of that pipeline in `app.py`:

- **Topic tagger** (`TOPIC_KEYWORDS`, `extract_topics`), in `topics.dfy`. The
  ASCII lowercasing and substring search it relies on are in `text.dfy`. A topic
  is attached when one of its keywords occurs anywhere in the lowercased text.
  Topics come out in table order. The empty text, and a text with no match,
  get `["General"]`.
- **Sentiment bucketing** (the threshold branch of `analyze_sentiment`), in
  `sentiment.dfy`. A polarity above 0.1 is Positive and one below -0.1 is
  Negative. Everything else is Neutral, including both thresholds. A scoring
  failure is Neutral too.
- **Report aggregation** (`generate_report` after the fetch), in
  `aggregation.dfy`. An empty article list gives an absent report. Otherwise
  the result has one processed article per fetched one, in order. Sentiment is
  read from the title alone. Topics come from title, a space, and summary.
  Each sentiment class has a count. Only classes that occur appear in the
  distribution, and the counts add up to the number of articles.
- **Hindi summary** (`generate_hindi_summary`), in `localization.dfy`. An
  absent report gives the fixed "no report available" message. Otherwise the
  summary holds the three counts and their sum as the total. It also lists
  the first three articles, numbered from 1. Each one shows its sentiment label
  passed through the three-entry translation table. A label missing from the
  table would be shown unchanged.

The polarity scorer is a parameter, `Scorer = string -> Option<real>`. `None`
stands for the library raising an exception. The list of fetched articles is
an input. `wrappers.dfy` holds the `Option` type used for the absent report.

Three details of the code:
- Topics come out as an ordered list, in table order, with no duplicates.
- The "0%" positive-ratio branch (`app.py:96`) cannot be reached. An empty
  article list returns `None` before the ratio is computed, and
  `GenerateReport` proves that the ratio is always positives over the article
  count.
- The distribution is copied (`app.py:95`) before `sentiment_counts['Positive']`
  is read on the next line. So that read, which inserts a 0 entry into the
  `defaultdict`, never adds a key to the report. The model proves that every
  key in the distribution has a count of at least 1.

## Model

| member | source | states |
|---|---|---|
| Text.Lower | app.py:60 | lowercasing keeps the length and maps each ASCII capital to its small letter, leaving every other character alone |
| Text.LowerIdempotent | app.py:60 | a lowercased text has no capitals left, so lowercasing it again changes nothing |
| Text.Contains | app.py:64 | the empty keyword is found in every text, and a keyword is only found in a text at least as long |
| Text.ContainsIff | app.py:64 | the substring test `keyword in text_lower` holds exactly when the keyword occurs at some position of the text |
| Text.FoundAfterLowering | app.py:60-64 | lowercasing keeps occurrences: a word found in the text is found, lowercased, in the lowercased text |
| Topics.TopicKeywordsWellFormed | app.py:13-19 | the fixed table has five distinct topic names, none of them "General", and no empty keyword |
| Topics.Matching | app.py:61-65 | the topics collected are a subsequence of the table's names (table order kept), and a name is collected exactly when one of its keywords occurs in the text |
| Topics.Tag | app.py:55-67 | the empty text gets exactly ["General"]; the result is never empty; it is ["General"] or a duplicate-free subsequence of the topic names; a topic is included iff one of its keywords occurs in the lowercased text; "General" is included (and is then the whole result) iff no topic matches |
| Topics.TagIsMatching | app.py:63-67 | when some topic matches, the result is exactly the list of matching names, with no "General" |
| Topics.ExtractTopics | app.py:55-67 | over the fixed table: the empty text gets ["General"]; each topic is included iff one of its keywords occurs in the lowercased text; the result is ["General"] iff no topic matches |
| Topics.TagCaseInsensitive | app.py:60 | over any well-formed table, tagging a text and tagging its lowercase form give the same topics |
| Topics.CaseInsensitive | app.py:55-67 | `extract_topics` gives a text and its lowercase form the same topics |
| TopicExamples.BatteryHeadlineTagged | app.py:55-67 | "New EV Battery Launch" is tagged "Electric Vehicles" despite its capitals |
| TopicExamples.UnrelatedHeadlineIsGeneral | app.py:60-67 | "Apple Q3 Results" is tagged exactly ["General"]: after lowercasing it still lacks a letter of every keyword |
| TopicExamples.TeslaHeadlineTopics | app.py:55-67 | "Tesla stock soars on EV breakthrough" is tagged exactly ["Electric Vehicles", "Stock Market", "Innovation"], in that order; Regulations and Autonomous Vehicles are ruled out |
| SentimentAnalysis.Bucket | app.py:47-51 | Positive iff the score is above 0.1, Negative iff below -0.1, Neutral iff within [-0.1, 0.1] including both ends |
| SentimentAnalysis.AnalyzeSentiment | app.py:43-53 | a Positive or Negative verdict only comes from an actual score past the threshold; a failed scoring is Neutral |
| SentimentAnalysis.BucketMonotone | app.py:47-51 | a higher score never falls into a lower class |
| SentimentAnalysis.ThresholdsAreNeutral | app.py:47-51 | the scores 0.1 and -0.1 are both Neutral, because the comparisons are strict |
| SentimentAnalysis.LabelInjective | app.py:48-51 | the three classes have three different labels |
| Aggregation.Process | app.py:79-87 | a processed article keeps the title and summary; it is Positive iff the title's score exists and is above 0.1, Negative iff below -0.1, and Neutral when scoring fails; its topics are those of the title, a space and the summary |
| Aggregation.ProcessAll | app.py:78-87 | one processed record per article, same length and order as the fetched list |
| Aggregation.Tally | app.py:75-80 | each class's count equals its number of occurrences; a class is a key iff it occurs; every key's count is at least 1 |
| Aggregation.ClassesPartition | app.py:89 | the three class counts of any list of sentiments add up to its length |
| Aggregation.GenerateReport | app.py:69-100 | absent iff no articles; titles and summaries are copied unchanged, in order; sentiment comes from the title's score and topics from title + " " + summary; counts match occurrences, every key is at least 1, and they add up to the article count (> 0); the ratio is positives over the article count |
| Aggregation.PositiveAtMostTotal | app.py:96 | in a produced report the positive count never exceeds the total |
| Aggregation.SentimentFromTitleOnly | app.py:79 | two articles with the same title get the same sentiment, whatever their summaries |
| Aggregation.ThreeArticleScenario | app.py:75-96 | titles scored 0.4, -0.2 and 0.15 give Positive, Negative, Positive, the distribution {Positive: 2, Negative: 1} and a ratio of 2 in 3 |
| Localization.LabelsAreTranslated | app.py:123-130 | every class label is in the translation table, so a listed article never shows the untranslated fallback |
| Localization.TranslationInjective | app.py:123-127 | different classes have different translations |
| Localization.Translate | app.py:123-130 | a label in the table gets its Hindi entry; any other word comes back unchanged; the result differs from the word iff the word is in the table |
| Localization.Enumerate | app.py:122-131 | the listed articles are numbered consecutively from the first number, each with its title and its translated label |
| Localization.HindiSummary | app.py:102-133 | absent report iff the fixed fallback message; otherwise the per-class counts are the distribution's entries (0 when missing), the total is their sum, and exactly min(3, article count) articles are listed, numbered from 1, in report order, with translated labels |
| Localization.SummaryOfGeneratedReport | app.py:69-133 | over the whole pipeline, the summary is the fallback iff no article was fetched; otherwise its total equals the number of fetched articles, and it lists the first min(3, n) fetched titles in order, each with the translated class of its title's score |

## Left out

- Fetching (`fetch_news`, app.py:21-41): the HTTP request, the RSS/XML parsing, the placeholder strings for missing fields and the cap of 5 items are not modelled. The fetched list is an input of any length. On a fetch error the source returns an empty list, which the model treats as an empty input. The code also puts the company name into the URL without escaping it; that is outside the model.
- Polarity scoring (TextBlob, app.py:46) is foreign floating-point code. The model takes it as the `Scorer` parameter, and an exception (app.py:52-53) is a `None` score.
- SentimentAnalysis.Bucket: compares exact reals rather than IEEE doubles. The double nearest 0.1 is slightly above one tenth, so the model may differ from the code only for scores within one rounding step of a threshold.
- The percentage text of the positive ratio (`:.1%`, app.py:96) involves float rounding and formatting. The model keeps the two integers behind it.
- Text.Lower: lowercases ASCII letters only, whereas Python's `str.lower()` also lowercases non-ASCII letters. That can change the tags, because some non-ASCII letters lowercase to ASCII ones. The Kelvin sign U+212A lowercases to 'k', so "STOC" followed by a Kelvin sign is tagged Stock Market by the source but ["General"] by the model. For text whose only letters are ASCII, the two agree.
- Localization.HindiSummary: returns a structured summary, not the exact text of the triple-quoted f-strings. Line breaks, indentation and the fixed Hindi headings are not modelled. The company name, the counts, the numbered titles and the translated labels are.
- Speech synthesis (gTTS), the `hindi_summary.mp3` file, the audio widgets and the rest of the Streamlit interface (app.py:135-183) are I/O and presentation.
