/** Character and string helpers behind the topic tagger: ASCII lowercasing
    (the model's stand-in for `str.lower()`) and substring containment
    (Python's `needle in haystack` on strings). */
module Text {

  /** Maps an ASCII capital letter to its small letter; every other
      character is left alone. */
  function LowerChar(c: char): (d: char)
    ensures 'A' <= c <= 'Z' ==> d as int == c as int + 32
    ensures !('A' <= c <= 'Z') ==> d == c
    ensures !('A' <= d <= 'Z')
  {
    if 'A' <= c <= 'Z' then (c as int + 32) as char else c
  }

  /** Lowercases a string character by character. */
  function Lower(s: string): (r: string)
    ensures |r| == |s|
    ensures forall i :: 0 <= i < |s| ==> r[i] == LowerChar(s[i])
  {
    if |s| == 0 then [] else [LowerChar(s[0])] + Lower(s[1..])
  }

  /** A string with no ASCII capital letter. */
  predicate IsLower(s: string) {
    forall i :: 0 <= i < |s| ==> !('A' <= s[i] <= 'Z')
  }

  /** Lowercasing leaves no capital behind, so doing it twice changes nothing
      more than doing it once. */
  lemma LowerIdempotent(s: string)
    ensures IsLower(Lower(s))
    ensures Lower(Lower(s)) == Lower(s)
  {
    var once := Lower(s);
    var twice := Lower(once);
    assert forall i :: 0 <= i < |s| ==> twice[i] == LowerChar(LowerChar(s[i])) == once[i];
  }

  /** A lowercase string is its own lowercase form. */
  lemma LowerOfLower(s: string)
    requires IsLower(s)
    ensures Lower(s) == s
  {
    assert forall i :: 0 <= i < |s| ==> Lower(s)[i] == s[i];
  }

  predicate StartsWith(s: string, prefix: string) {
    |prefix| <= |s| && s[..|prefix|] == prefix
  }

  /** Substring search: `needle` occurs in `hay` at the front or somewhere
      in its tail.  The empty needle occurs in every string, as in Python. */
  predicate Contains(hay: string, needle: string)
    ensures |needle| == 0 ==> Contains(hay, needle)
    ensures Contains(hay, needle) ==> |needle| <= |hay|
    decreases |hay|
  {
    StartsWith(hay, needle) || (|hay| > 0 && Contains(hay[1..], needle))
  }

  /** `needle` sits in `hay` starting at position `i`. */
  ghost predicate OccursAt(hay: string, needle: string, i: int) {
    0 <= i && i + |needle| <= |hay| && hay[i..i + |needle|] == needle
  }

  /** An occurrence at position `i` is found by the search. */
  lemma {:induction false} OccurrenceFound(hay: string, needle: string, i: int)
    requires OccursAt(hay, needle, i)
    ensures Contains(hay, needle)
    decreases i
  {
    if i == 0 {
      assert StartsWith(hay, needle);
    } else {
      var tail := hay[1..];
      assert tail[i - 1..i - 1 + |needle|] == hay[i..i + |needle|];
      OccurrenceFound(tail, needle, i - 1);
    }
  }

  /** Lowercasing keeps occurrences: wherever `word` occurs in `text`, its
      lowercase form occurs in the lowercase text. */
  lemma FoundAfterLowering(text: string, word: string, i: int)
    requires OccursAt(text, word, i)
    ensures Contains(Lower(text), Lower(word))
  {
    var low := Lower(text);
    assert low[i..i + |word|] == Lower(word) by {
      forall j | 0 <= j < |word| ensures low[i..i + |word|][j] == Lower(word)[j] {
        assert text[i + j] == word[j];
      }
    }
    OccurrenceFound(low, Lower(word), i);
  }

  /** A lowercase word occurring in `text` is found in the lowercase text. */
  lemma LowercaseWordFound(text: string, word: string, i: int)
    requires OccursAt(text, word, i) && IsLower(word)
    ensures Contains(Lower(text), word)
  {
    FoundAfterLowering(text, word, i);
    LowerOfLower(word);
  }

  /** The search finds the needle exactly when it occurs at some position. */
  lemma {:induction false} ContainsIff(hay: string, needle: string)
    ensures Contains(hay, needle) <==> exists i :: OccursAt(hay, needle, i)
    decreases |hay|
  {
    if StartsWith(hay, needle) {
      assert OccursAt(hay, needle, 0);
    } else if |hay| > 0 {
      var tail := hay[1..];
      ContainsIff(tail, needle);
      if Contains(tail, needle) {
        var j :| OccursAt(tail, needle, j);
        assert hay[j + 1..j + 1 + |needle|] == tail[j..j + |needle|];
        assert OccursAt(hay, needle, j + 1);
      }
    }
    forall i | OccursAt(hay, needle, i)
      ensures Contains(hay, needle)
    {
      OccurrenceFound(hay, needle, i);
    }
  }

  /** A needle is only found where every one of its characters appears. */
  lemma CharsPresent(hay: string, needle: string)
    ensures Contains(hay, needle) ==> forall j :: 0 <= j < |needle| ==> needle[j] in hay
  {
    ContainsIff(hay, needle);
    if Contains(hay, needle) {
      var i :| OccursAt(hay, needle, i);
      forall j | 0 <= j < |needle| ensures needle[j] in hay {
        assert hay[i + j] == hay[i..i + |needle|][j];
      }
    }
  }

  /** An occurrence in `p + q` whose character `b` avoids `p` and whose
      character `a` avoids `q` must straddle the seam, so the last character
      of `p` is one of the needle's characters between `a` and `b`. */
  lemma SplitOccurrence(p: string, q: string, needle: string, i: int, a: int, b: int)
    requires 0 <= a < b < |needle| && |p| > 0
    ensures OccursAt(p + q, needle, i) ==>
              || needle[b] in p
              || needle[a] in q
              || (a <= |p| - 1 - i < b && needle[|p| - 1 - i] == p[|p| - 1])
  {
    var hay := p + q;
    if OccursAt(hay, needle, i) {
      assert hay[i + a] == needle[a] && hay[i + b] == needle[b] by {
        assert hay[i..i + |needle|][a] == hay[i + a];
        assert hay[i..i + |needle|][b] == hay[i + b];
      }
      if i + b < |p| {
        assert hay[i + b] == p[i + b];
      } else if i + a >= |p| {
        assert hay[i + a] == q[i + a - |p|];
      } else {
        assert hay[|p| - 1] == hay[i..i + |needle|][|p| - 1 - i];
      }
    }
  }

  /** Lowercasing brings in no character that was absent both as itself and
      as its capital. */
  lemma LowerKeepsOut(s: string, c: char)
    ensures c in Lower(s) ==> c in s || (c as int - 32) as char in s
  {
    if c in Lower(s) {
      var j :| 0 <= j < |s| && Lower(s)[j] == c;
      assert LowerChar(s[j]) == c;
    }
  }

  /** Lowercasing distributes over concatenation. */
  lemma LowerAppend(a: string, b: string)
    ensures Lower(a + b) == Lower(a) + Lower(b)
  {
    assert forall i :: 0 <= i < |a + b| ==> Lower(a + b)[i] == (Lower(a) + Lower(b))[i];
  }
}
