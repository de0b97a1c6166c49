/** The keyword-based topic tagger (`TOPIC_KEYWORDS` and `extract_topics`).
    A topic is attached to a text when one of its keywords occurs in the
    lowercased text as a plain substring; a text with no match, and the
    empty text, get the single label "General". */
module Topics {
  import opened Text

  datatype Topic = Topic(name: string, keywords: seq<string>)

  /** The fixed topic table, in definition order (Python dictionaries keep
      insertion order, and the tagger walks the table in that order). */
  const TopicKeywords: seq<Topic> := [
    Topic("Electric Vehicles", ["ev", "electric vehicle", "battery", "charging"]),
    Topic("Stock Market", ["stock", "share", "investment", "market cap"]),
    Topic("Innovation", ["innovation", "breakthrough", "new tech", "invention"]),
    Topic("Regulations", ["regulation", "law", "legal", "compliance"]),
    Topic("Autonomous Vehicles", ["self-driving", "autonomous", "fsd", "autopilot"])
  ]

  /** The fallback label. */
  const General: string := "General"

  function Names(table: seq<Topic>): seq<string> {
    seq(|table|, i requires 0 <= i < |table| => table[i].name)
  }

  predicate Distinct<T(==)>(s: seq<T>) {
    forall i, j :: 0 <= i < j < |s| ==> s[i] != s[j]
  }

  /** `xs` is obtained from `ys` by deleting elements, keeping the order. */
  ghost predicate Subsequence<T>(xs: seq<T>, ys: seq<T>)
    decreases |ys|
  {
    if |xs| == 0 then true
    else if |ys| == 0 then false
    else (xs[0] == ys[0] && Subsequence(xs[1..], ys[1..])) || Subsequence(xs, ys[1..])
  }

  lemma {:induction false} SubsequenceMembers<T>(xs: seq<T>, ys: seq<T>)
    requires Subsequence(xs, ys)
    ensures forall x :: x in xs ==> x in ys
    decreases |ys|
  {
    if |xs| > 0 {
      if xs[0] == ys[0] && Subsequence(xs[1..], ys[1..]) {
        SubsequenceMembers(xs[1..], ys[1..]);
        assert forall x :: x in xs ==> x == xs[0] || x in xs[1..];
      } else {
        SubsequenceMembers(xs, ys[1..]);
      }
    }
  }

  /** Deleting elements from a duplicate-free sequence cannot create duplicates. */
  lemma {:induction false} SubsequenceDistinct<T>(xs: seq<T>, ys: seq<T>)
    requires Subsequence(xs, ys)
    requires Distinct(ys)
    ensures Distinct(xs)
    decreases |ys|
  {
    if |xs| > 0 {
      assert Distinct(ys[1..]) by {
        forall i, j | 0 <= i < j < |ys| - 1 ensures ys[1..][i] != ys[1..][j] {
          assert ys[1..][i] == ys[i + 1] && ys[1..][j] == ys[j + 1];
        }
      }
      if xs[0] == ys[0] && Subsequence(xs[1..], ys[1..]) {
        SubsequenceDistinct(xs[1..], ys[1..]);
        SubsequenceMembers(xs[1..], ys[1..]);
        assert ys[0] !in ys[1..] by {
          forall j | 0 <= j < |ys| - 1 ensures ys[1..][j] != ys[0] {
            assert ys[1..][j] == ys[j + 1];
          }
        }
        forall i, j | 0 <= i < j < |xs| ensures xs[i] != xs[j] {
          if i == 0 {
            assert xs[j] == xs[1..][j - 1];
          } else {
            assert xs[i] == xs[1..][i - 1] && xs[j] == xs[1..][j - 1];
          }
        }
      } else {
        SubsequenceDistinct(xs, ys[1..]);
      }
    }
  }

  /** The table's names are distinct, none of them is the fallback label,
      and no keyword is empty. */
  predicate WellFormed(table: seq<Topic>) {
    && Distinct(Names(table))
    && General !in Names(table)
    && forall i, k :: 0 <= i < |table| && k in table[i].keywords ==> |k| > 0
  }

  lemma TopicKeywordsWellFormed()
    ensures WellFormed(TopicKeywords)
  {
  }

  /** Some keyword of topic `t` occurs in `text` (Python's `any(...)`). */
  predicate Mentions(text: string, t: Topic) {
    exists k :: k in t.keywords && Contains(text, k)
  }

  /** The names of the topics of `table` that `text` mentions, in table order. */
  function Matching(table: seq<Topic>, text: string): (r: seq<string>)
    ensures Subsequence(r, Names(table))
    ensures forall x :: x in r <==> exists i :: 0 <= i < |table| && table[i].name == x && Mentions(text, table[i])
  {
    if |table| == 0 then []
    else
      var rest := Matching(table[1..], text);
      assert Names(table[1..]) == Names(table)[1..];
      assert forall i :: 0 < i < |table| ==> table[i] == table[1..][i - 1];
      if Mentions(text, table[0]) then [table[0].name] + rest else rest
  }

  /** The tagger over an arbitrary well-formed table: the empty text and a
      text that mentions no topic get exactly `["General"]`; otherwise the
      mentioned topics, each once, in table order. */
  function Tag(table: seq<Topic>, text: string): (r: seq<string>)
    requires WellFormed(table)
    ensures |text| == 0 ==> r == [General]
    ensures |r| > 0
    ensures r == [General] || (Subsequence(r, Names(table)) && Distinct(r))
    ensures forall i :: 0 <= i < |table| ==> (table[i].name in r <==> Mentions(Lower(text), table[i]))
    ensures General in r <==> forall i :: 0 <= i < |table| ==> !Mentions(Lower(text), table[i])
    ensures r == [General] <==> forall i :: 0 <= i < |table| ==> !Mentions(Lower(text), table[i])
  {
    assert forall i :: 0 <= i < |table| ==> Names(table)[i] == table[i].name;
    if |text| == 0 then
      assert forall i :: 0 <= i < |table| ==> !Mentions(Lower(text), table[i]);
      [General]
    else
      var topics := Matching(table, Lower(text));
      SubsequenceMembers(topics, Names(table));
      SubsequenceDistinct(topics, Names(table));
      if |topics| > 0 then
        assert topics[0] in topics;
        topics
      else [General]
  }

  /** `extract_topics`: the tagger over the fixed table. */
  function ExtractTopics(text: string): (r: seq<string>)
    ensures |text| == 0 ==> r == [General]
    ensures forall i :: 0 <= i < |TopicKeywords| ==>
              (TopicKeywords[i].name in r <==> Mentions(Lower(text), TopicKeywords[i]))
    ensures r == [General] <==> forall i :: 0 <= i < |TopicKeywords| ==> !Mentions(Lower(text), TopicKeywords[i])
  {
    TopicKeywordsWellFormed();
    Tag(TopicKeywords, text)
  }

  /** When some topic matches, the tagger returns exactly the matching names. */
  lemma TagIsMatching(table: seq<Topic>, text: string)
    requires WellFormed(table)
    ensures |Matching(table, Lower(text))| > 0 ==> Tag(table, text) == Matching(table, Lower(text))
  {
    if |text| == 0 {
      var m := Matching(table, Lower(text));
      NoMembersEmpty(m);
    }
  }

  /** A sequence without members is empty. */
  lemma NoMembersEmpty<T>(s: seq<T>)
    ensures (forall x :: x !in s) ==> |s| == 0
  {
    if |s| > 0 {
      assert s[0] in s;
    }
  }

  /** Tagging ignores ASCII case: a text and its lowercase form get the same
      topics, over any well-formed table. */
  lemma TagCaseInsensitive(table: seq<Topic>, text: string)
    requires WellFormed(table)
    ensures Tag(table, Lower(text)) == Tag(table, text)
  {
    LowerIdempotent(text);
  }

  /** The same for the fixed table. */
  lemma CaseInsensitive(text: string)
    ensures ExtractTopics(Lower(text)) == ExtractTopics(text)
  {
    TopicKeywordsWellFormed();
    TagCaseInsensitive(TopicKeywords, text);
  }
}

/** Worked examples of the tagger on concrete headlines. */
module TopicExamples {
  import opened Text
  import opened Topics

  /** A headline about a new battery is tagged "Electric Vehicles", whatever its case. */
  lemma BatteryHeadlineTagged()
    ensures "Electric Vehicles" in ExtractTopics("New EV Battery Launch")
  {
    var text := "New EV Battery Launch";
    assert text[4..6] == "EV";
    EvFound(text, 4);
  }

  /** Every keyword of the table uses one of these letters. */
  const KeywordMarks: string := "bcfghimnovw"

  /** A text using none of those letters mentions no topic: each keyword
      is ruled out by one of its letters. */
  lemma NoMarkNoTopic(text: string)
    requires forall c :: c in KeywordMarks ==> c !in text
    ensures forall i :: 0 <= i < |TopicKeywords| ==> !Mentions(text, TopicKeywords[i])
  {
    Absent(text, "ev", 1);         Absent(text, "electric vehicle", 3);
    Absent(text, "battery", 0);    Absent(text, "charging", 0);
    Absent(text, "stock", 2);      Absent(text, "share", 1);
    Absent(text, "investment", 0); Absent(text, "market cap", 0);
    Absent(text, "innovation", 0); Absent(text, "breakthrough", 0);
    Absent(text, "new tech", 0);   Absent(text, "invention", 0);
    Absent(text, "regulation", 2); Absent(text, "law", 2);
    Absent(text, "legal", 2);      Absent(text, "compliance", 0);
    Absent(text, "self-driving", 3); Absent(text, "autonomous", 3);
    Absent(text, "fsd", 0);        Absent(text, "autopilot", 3);
  }

  /** The letters "Apple Q3 Results" does without, in either case. */
  lemma AppleHeadlineSpelling(text: string)
    requires text == "Apple Q3 Results"
    ensures forall c :: c in KeywordMarks ==> c !in text
    ensures forall c :: c in "BCFGHIMNOVW" ==> c !in text
  {
  }

  /** Lowercasing a text that lacks the marks in both cases keeps them out. */
  lemma MarksStayOut(text: string)
    requires forall c :: c in KeywordMarks ==> c !in text
    requires forall c :: c in "BCFGHIMNOVW" ==> c !in text
    ensures forall c :: c in KeywordMarks ==> c !in Lower(text)
  {
    forall j | 0 <= j < |text| ensures Lower(text)[j] !in KeywordMarks {
      assert text[j] in text;
    }
  }

  /** "Apple Q3 Results" names no topic once lowercased, so it is tagged
      exactly `["General"]`. */
  lemma UnrelatedHeadlineIsGeneral()
    ensures ExtractTopics("Apple Q3 Results") == [General]
  {
    var text := "Apple Q3 Results";
    AppleHeadlineSpelling(text);
    MarksStayOut(text);
    NoMarkNoTopic(Lower(text));
  }

  /** "EV" at position `i` makes the lowercased text mention electric vehicles. */
  lemma EvFound(text: string, i: nat)
    requires i + 2 <= |text| && text[i..i + 2] == "EV"
    ensures Mentions(Lower(text), TopicKeywords[0])
    ensures "Electric Vehicles" in ExtractTopics(text)
  {
    FoundAfterLowering(text, "EV", i);
    assert Lower("EV") == "ev";
    assert "ev" in TopicKeywords[0].keywords;
  }

  lemma ExampleKeywordsAreLower()
    ensures IsLower("stock") && IsLower("breakthrough")
  {
  }

  /** "stock" at position 6 makes the lowercased text mention the stock market. */
  lemma StockMentioned(text: string)
    requires 11 <= |text| && text[6..11] == "stock"
    ensures Mentions(Lower(text), TopicKeywords[1])
  {
    ExampleKeywordsAreLower();
    LowercaseWordFound(text, "stock", 6);
  }

  /** "breakthrough" at position 24 makes the lowercased text mention innovation. */
  lemma BreakthroughMentioned(text: string)
    requires 36 <= |text| && text[24..36] == "breakthrough"
    ensures Mentions(Lower(text), TopicKeywords[2])
  {
    ExampleKeywordsAreLower();
    LowercaseWordFound(text, "breakthrough", 24);
  }

  /** A text without 'i', 'w' and "legal" mentions no regulation, and one
      without 'i', 'm' and 'f' mentions no autonomous driving. */
  lemma UnmentionedByLetters(low: string)
    ensures 'i' !in low && 'w' !in low && !Contains(low, "legal") ==> !Mentions(low, TopicKeywords[3])
    ensures 'i' !in low && 'm' !in low && 'f' !in low ==> !Mentions(low, TopicKeywords[4])
  {
    Absent(low, "regulation", 7);
    Absent(low, "law", 2);
    Absent(low, "compliance", 5);
    Absent(low, "self-driving", 3);
    Absent(low, "autonomous", 6);
    Absent(low, "fsd", 0);
    Absent(low, "autopilot", 5);
    assert TopicKeywords[3].keywords == ["regulation", "law", "legal", "compliance"];
    assert TopicKeywords[4].keywords == ["self-driving", "autonomous", "fsd", "autopilot"];
  }

  /** A word whose `j`-th letter is missing from `low` is not in `low`. */
  lemma Absent(low: string, word: string, j: nat)
    requires j < |word|
    ensures word[j] !in low ==> !Contains(low, word)
  {
    CharsPresent(low, word);
  }

  /** "legal" cannot occur across a seam after a space when its 'g' is
      missing before the seam and its 'l' after it. */
  lemma NoLegalAcross(p: string, q: string)
    requires |p| > 0 && p[|p| - 1] == ' '
    requires 'g' !in p && 'l' !in q
    ensures !Contains(p + q, "legal")
  {
    forall i ensures !OccursAt(p + q, "legal", i) {
      SplitOccurrence(p, q, "legal", i, 0, 2);
    }
    ContainsIff(p + q, "legal");
  }

  /** Where the words of the first part of the Tesla headline sit. */
  lemma TeslaFrontWords(front: string)
    requires front == "Tesla stock soars on EV "
    ensures |front| == 24 && front[6..11] == "stock" && front[21..23] == "EV" && front[23] == ' '
  {
    var a, b, c, d := "Tesla ", "stock", " soars on ", "EV ";
    assert front == a + b + c + d;
    assert front[6..11] == b;
    assert front[21..23] == d[..2];
  }

  /** The letters the first part of the Tesla headline does without, in either case. */
  lemma TeslaFrontLetters(front: string)
    requires front == "Tesla stock soars on EV "
    ensures forall c :: c in "gGiwmfIWMF" ==> c !in front
  {
    var a, b := "Tesla stock", " soars on EV ";
    assert front == a + b;
    TeslaFrontHalves(a, b);
  }

  lemma TeslaFrontHalves(a: string, b: string)
    requires a == "Tesla stock" && b == " soars on EV "
    ensures forall c :: c in "gGiwmfIWMF" ==> c !in a && c !in b
  {
  }

  /** `s` has none of the letters i, w, m, f in either case. */
  predicate NoRegulatoryLetters(s: string) {
    'i' !in s && 'w' !in s && 'm' !in s && 'f' !in s && 'I' !in s && 'W' !in s && 'M' !in s && 'F' !in s
  }

  lemma LettersUnpacked(s: string)
    requires forall c :: c in "gGiwmfIWMF" ==> c !in s
    ensures 'g' !in s && 'G' !in s && NoRegulatoryLetters(s)
  {
  }

  /** The rest of the Tesla headline. */
  lemma TeslaBackSpelling(back: string)
    requires back == "breakthrough"
    ensures IsLower(back) && 'l' !in back && NoRegulatoryLetters(back)
  {
  }

  /** Those letters stay out of the lowercase form. */
  lemma RegulatoryLettersStayOut(text: string)
    requires NoRegulatoryLetters(text)
    ensures var low := Lower(text); 'i' !in low && 'w' !in low && 'm' !in low && 'f' !in low
  {
    LowerKeepsOut(text, 'i');
    LowerKeepsOut(text, 'w');
    LowerKeepsOut(text, 'm');
    LowerKeepsOut(text, 'f');
  }

  /** The lowercase form of `front + back` has no "legal" in it. */
  lemma TeslaNoLegal(front: string, back: string)
    requires |front| > 0 && front[|front| - 1] == ' ' && IsLower(back)
    requires 'g' !in front && 'G' !in front && 'l' !in back
    ensures !Contains(Lower(front + back), "legal")
  {
    LowerAppend(front, back);
    LowerOfLower(back);
    LowerKeepsOut(front, 'g');
    NoLegalAcross(Lower(front), back);
  }

  /** The topics of any headline built like the Tesla one: "stock" at 6 and
      "EV" at 21 in a front part ending in a space, then "breakthrough". */
  lemma TeslaShapedTopics(front: string, back: string)
    requires |front| == 24 && front[6..11] == "stock" && front[21..23] == "EV" && front[23] == ' '
    requires forall c :: c in "gGiwmfIWMF" ==> c !in front
    requires back == "breakthrough"
    ensures ExtractTopics(front + back) == ["Electric Vehicles", "Stock Market", "Innovation"]
  {
    var text := front + back;
    LettersUnpacked(front);
    assert text[6..11] == front[6..11] && text[21..23] == front[21..23] && text[24..36] == back;
    EvFound(text, 21);
    StockMentioned(text);
    BreakthroughMentioned(text);
    TeslaBackSpelling(back);
    assert NoRegulatoryLetters(text) by {
      assert forall c :: c in text ==> c in front || c in back;
    }
    RegulatoryLettersStayOut(text);
    TeslaNoLegal(front, back);
    UnmentionedByLetters(Lower(text));
    TopicKeywordsWellFormed();
    FirstThreeOfFive(TopicKeywords, Lower(text));
    TagIsMatching(TopicKeywords, text);
  }

  /** "Tesla stock soars on EV breakthrough" is tagged with exactly electric
      vehicles, the stock market and innovation, in table order. */
  lemma TeslaHeadlineTopics()
    ensures ExtractTopics("Tesla stock soars on EV breakthrough") == ["Electric Vehicles", "Stock Market", "Innovation"]
  {
    var front, back := "Tesla stock soars on EV ", "breakthrough";
    assert "Tesla stock soars on EV breakthrough" == front + back;
    TeslaFrontWords(front);
    TeslaFrontLetters(front);
    TeslaShapedTopics(front, back);
  }

  /** A five-topic table whose first three topics alone are mentioned
      yields those three names, in order. */
  lemma FirstThreeOfFive(table: seq<Topic>, low: string)
    requires |table| == 5
    requires Mentions(low, table[0]) && Mentions(low, table[1]) && Mentions(low, table[2])
    requires !Mentions(low, table[3]) && !Mentions(low, table[4])
    ensures Matching(table, low) == [table[0].name, table[1].name, table[2].name]
  {
    assert table[1..][1..] == table[2..] && table[2..][1..] == table[3..];
    assert table[3..][1..] == table[4..] && table[4..][1..] == [];
    assert Matching(table[4..], low) == [];
    assert Matching(table[3..], low) == [];
    assert Matching(table[2..], low) == [table[2].name];
  }
}
