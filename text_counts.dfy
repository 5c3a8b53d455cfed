/**
 * The statistics `TextAnalyzerEntity` computes
 * (backend/src/modules/text-analyzer/domain/entities/text.entity.ts):
 * word, character, sentence and paragraph counts and the longest words,
 * together in `TextStats` (backend/src/modules/text-analyzer/application/dto/text-stats.dto.ts).
 */
module TextCounts {
  import opened Whitespace
  import opened TextUtils
  import opened Paragraphs
  import NormalizeProperties

  /** `TextStats`: the result of one analysis. */
  datatype TextStats = TextStats(
    wordCount: nat,
    characterCount: nat,
    sentenceCount: nat,
    paragraphCount: nat,
    longestWords: seq<string>)

  // ---------------------------------------------------------------------------
  // Words and characters
  // ---------------------------------------------------------------------------

  /** `countWords`: `text.trim().split(/\s+/)` without the empty pieces, counted. */
  function CountWords(text: string): nat {
    |Tokens(Trim(text))|
  }

  // ---------------------------------------------------------------------------
  // JavaScript string length
  // ---------------------------------------------------------------------------

  /**
   * The UTF-16 code units of one character: a character outside the Basic
   * Multilingual Plane is a surrogate pair.
   */
  function CodeUnits(c: char): nat {
    if c as int >= 0x1_0000 then 2 else 1
  }

  /** `s.length`: the number of UTF-16 code units of `s`. */
  function Utf16Length(s: string): (n: nat)
    ensures |s| <= n <= 2 * |s|
  {
    if s == [] then 0 else CodeUnits(s[0]) + Utf16Length(s[1..])
  }

  /** Lengths add up under concatenation. */
  lemma {:induction false} Utf16LengthAppend(a: string, b: string)
    ensures Utf16Length(a + b) == Utf16Length(a) + Utf16Length(b)
    decreases |a|
  {
    if a != [] {
      assert (a + b)[0] == a[0];
      assert (a + b)[1..] == a[1..] + b;
      Utf16LengthAppend(a[1..], b);
    } else {
      assert a + b == b;
    }
  }

  /** Within the Basic Multilingual Plane every character is one code unit. */
  lemma {:induction false} Utf16LengthBmp(s: string)
    requires forall i :: 0 <= i < |s| ==> s[i] as int < 0x1_0000
    ensures Utf16Length(s) == |s|
    decreases |s|
  {
    if s != [] {
      Utf16LengthBmp(s[1..]);
    }
  }

  /** `countCharacters`: the `.length` of the text once all whitespace is removed. */
  function CountCharacters(text: string): nat {
    Utf16Length(RemoveSpaces(text))
  }

  /** The total `.length` of a sequence of words. */
  function TotalLength(ws: seq<string>): nat {
    if ws == [] then 0 else Utf16Length(ws[0]) + TotalLength(ws[1..])
  }

  lemma {:induction false} TotalLengthFlatten(ws: seq<string>)
    ensures Utf16Length(Flatten(ws)) == TotalLength(ws)
    decreases |ws|
  {
    if ws != [] {
      TotalLengthFlatten(ws[1..]);
      Utf16LengthAppend(ws[0], Flatten(ws[1..]));
    }
  }

  /**
   * The word count is the number of whitespace-separated words, trimmed or
   * not, and it is zero exactly for blank text.
   */
  lemma CountWordsIsTokens(text: string)
    ensures CountWords(text) == |Tokens(text)|
    ensures CountWords(text) == 0 <==> AllSpace(text)
  {
    TokensOfTrim(text);
    if AllSpace(text) {
      TokensOfSpaces(text);
    } else {
      TokensNotEmpty(text);
    }
  }

  /** The character count is the total length of the words. */
  lemma CountCharactersIsWordLengths(text: string)
    ensures CountCharacters(text) == TotalLength(Tokens(text))
  {
    FlattenTokens(text);
    TotalLengthFlatten(Tokens(text));
  }

  // ---------------------------------------------------------------------------
  // Sentences
  // ---------------------------------------------------------------------------

  /**
   * A match of `/[.?!](?=[ \r\n]|$)/`: a '.', '?' or '!' followed by a space,
   * a carriage return, a line feed or the end of the text.
   */
  predicate IsSentenceEnd(s: string, i: nat)
    requires i < |s|
  {
    (s[i] == '.' || s[i] == '?' || s[i] == '!') &&
    (i + 1 == |s| || s[i + 1] == ' ' || s[i + 1] == '\r' || s[i + 1] == '\n')
  }

  /** Matches of the sentence-end expression from index `i` on. */
  function SentenceEndsFrom(s: string, i: nat): nat
    requires i <= |s|
    decreases |s| - i
  {
    if i == |s| then 0
    else (if IsSentenceEnd(s, i) then 1 else 0) + SentenceEndsFrom(s, i + 1)
  }

  /**
   * `countSentences`: the number of matches of the global expression (each
   * match is one character and the look-ahead consumes nothing, so the
   * matches are exactly the positions that satisfy it), or 0 when there is none.
   */
  function CountSentences(text: string): nat {
    SentenceEndsFrom(text, 0)
  }

  /** The positions from `i` on where a sentence ends. */
  function SentenceEndSet(s: string, i: nat): set<nat>
    requires i <= |s|
  {
    set k: nat | i <= k < |s| && IsSentenceEnd(s, k)
  }

  lemma {:induction false} SentenceEndsFromIsSet(s: string, i: nat)
    requires i <= |s|
    ensures SentenceEndsFrom(s, i) == |SentenceEndSet(s, i)|
    decreases |s| - i
  {
    if i < |s| {
      SentenceEndsFromIsSet(s, i + 1);
      var rest := SentenceEndSet(s, i + 1);
      if IsSentenceEnd(s, i) {
        assert SentenceEndSet(s, i) == {i} + rest;
        assert i !in rest;
      } else {
        assert SentenceEndSet(s, i) == rest;
      }
    } else {
      assert SentenceEndSet(s, i) == {};
    }
  }

  /** The sentence count is the number of positions where a sentence ends. */
  lemma CountSentencesIsPositions(text: string)
    ensures CountSentences(text) == |set k: nat | k < |text| && IsSentenceEnd(text, k)|
    ensures CountSentences(text) <= |text|
  {
    SentenceEndsFromIsSet(text, 0);
    assert SentenceEndSet(text, 0) == set k: nat | k < |text| && IsSentenceEnd(text, k);
    SentenceEndSetBound(text, 0);
  }

  lemma {:induction false} SentenceEndSetBound(s: string, i: nat)
    requires i <= |s|
    ensures |SentenceEndSet(s, i)| <= |s| - i
    decreases |s| - i
  {
    if i < |s| {
      SentenceEndSetBound(s, i + 1);
      assert SentenceEndSet(s, i) <= {i} + SentenceEndSet(s, i + 1);
      SubsetCard(SentenceEndSet(s, i), {i} + SentenceEndSet(s, i + 1));
    } else {
      assert SentenceEndSet(s, i) == {};
    }
  }

  lemma SubsetCard(a: set<nat>, b: set<nat>)
    requires a <= b
    ensures |a| <= |b|
  {
    assert b == a + (b - a);
  }

  /** Each of '!', '?' and the final '.' ends a sentence. */
  lemma CountSentencesExample()
    ensures CountSentences("Hello! How are you? I am fine.") == 3
  {
    var s := "Hello! How are you? I am fine.";
    forall k: nat | k < |s| && IsSentenceEnd(s, k) ensures k == 5 || k == 18 || k == 29 {
      assert s[k] == '.' || s[k] == '?' || s[k] == '!';
    }
    assert IsSentenceEnd(s, 5) && IsSentenceEnd(s, 18) && IsSentenceEnd(s, 29);
    assert (set k: nat | k < |s| && IsSentenceEnd(s, k)) == {5, 18, 29};
    CountSentencesIsPositions(s);
  }

  lemma {:induction false} SentenceEndsOfBlank(s: string, i: nat)
    requires i <= |s| && AllSpace(s)
    ensures SentenceEndsFrom(s, i) == 0
    decreases |s| - i
  {
    if i < |s| {
      assert IsSpace(s[i]);
      SentenceEndsOfBlank(s, i + 1);
    }
  }

  // ---------------------------------------------------------------------------
  // Longest words
  // ---------------------------------------------------------------------------

  /** `Math.max(...words.map(w => w.length))`, with 0 standing for the empty case. */
  function MaxLength(ws: seq<string>): nat
  {
    if ws == [] then 0
    else
      var rest := MaxLength(ws[1..]);
      if Utf16Length(ws[0]) >= rest then Utf16Length(ws[0]) else rest
  }

  /** The maximum bounds every word and is the length of one of them. */
  lemma {:induction false} MaxLengthBounds(ws: seq<string>)
    ensures forall i :: 0 <= i < |ws| ==> Utf16Length(ws[i]) <= MaxLength(ws)
    ensures ws != [] ==> exists i :: 0 <= i < |ws| && Utf16Length(ws[i]) == MaxLength(ws)
    ensures ws == [] ==> MaxLength(ws) == 0
    decreases |ws|
  {
    if ws != [] {
      MaxLengthBounds(ws[1..]);
      forall i | 1 <= i < |ws| ensures Utf16Length(ws[i]) <= MaxLength(ws) {
        assert ws[i] == ws[1..][i - 1];
      }
      if Utf16Length(ws[0]) < MaxLength(ws[1..]) {
        var i :| 0 <= i < |ws[1..]| && Utf16Length(ws[1..][i]) == MaxLength(ws[1..]);
        assert Utf16Length(ws[i + 1]) == MaxLength(ws);
      }
    }
  }

  /** `words.filter((word) => word.length === n)`. */
  function WithLength(ws: seq<string>, n: nat): seq<string>
  {
    if ws == [] then []
    else if Utf16Length(ws[0]) == n then [ws[0]] + WithLength(ws[1..], n)
    else WithLength(ws[1..], n)
  }

  lemma {:induction false} WithLengthMembers(ws: seq<string>, n: nat)
    ensures forall w :: w in WithLength(ws, n) <==> w in ws && Utf16Length(w) == n
    ensures |WithLength(ws, n)| <= |ws|
    decreases |ws|
  {
    if ws != [] {
      WithLengthMembers(ws[1..], n);
      assert ws == [ws[0]] + ws[1..];
    }
  }

  /**
   * The filter works word by word and keeps the order: a single word is kept
   * exactly when it has the length, and filtering two lists one after the
   * other is filtering their concatenation.
   */
  lemma {:induction false} WithLengthAppend(a: seq<string>, b: seq<string>, n: nat)
    ensures WithLength(a + b, n) == WithLength(a, n) + WithLength(b, n)
    ensures |a| == 1 ==> WithLength(a, n) == (if Utf16Length(a[0]) == n then a else [])
    decreases |a|
  {
    if a == [] {
      assert a + b == b;
    } else {
      assert (a + b)[0] == a[0];
      assert (a + b)[1..] == a[1..] + b;
      WithLengthAppend(a[1..], b, n);
      if |a| == 1 {
        assert a == [a[0]];
      }
    }
  }

  /** The filter keeps every occurrence of a word of the length, and nothing else. */
  lemma {:induction false} WithLengthCounts(ws: seq<string>, n: nat)
    ensures forall w :: multiset(WithLength(ws, n))[w] == (if Utf16Length(w) == n then multiset(ws)[w] else 0)
    decreases |ws|
  {
    if ws != [] {
      WithLengthCounts(ws[1..], n);
      assert ws == [ws[0]] + ws[1..];
      assert multiset(ws) == multiset{ws[0]} + multiset(ws[1..]);
    }
  }

  /** The maximum of a concatenation is the larger of the two maxima. */
  lemma MaxLengthAppend(a: seq<string>, b: seq<string>)
    ensures MaxLength(a + b) == if MaxLength(a) >= MaxLength(b) then MaxLength(a) else MaxLength(b)
  {
    MaxLengthBounds(a);
    MaxLengthBounds(b);
    MaxLengthBounds(a + b);
    var m := MaxLength(a + b);
    forall i | 0 <= i < |a| ensures Utf16Length(a[i]) <= m {
      assert (a + b)[i] == a[i];
    }
    forall i | 0 <= i < |b| ensures Utf16Length(b[i]) <= m {
      assert (a + b)[|a| + i] == b[i];
    }
    if a + b != [] {
      var k :| 0 <= k < |a + b| && Utf16Length((a + b)[k]) == m;
      if k < |a| {
        assert (a + b)[k] == a[k];
      } else {
        assert (a + b)[k] == b[k - |a|];
      }
    } else {
      assert a == [] && b == [];
    }
  }

  /**
   * `findLongestWords`. With no words `Math.max()` is `-Infinity` and the
   * filter keeps nothing; with 0 standing for it the filter keeps nothing
   * either, since every word is non-empty.
   */
  function FindLongestWords(text: string): seq<string> {
    var words := Tokens(text);
    WithLength(words, MaxLength(words))
  }

  /**
   * In a list of words, the ones of maximal length are exactly the words no
   * other word is longer than, all of one length; there are some exactly
   * when the list is not empty.
   */
  lemma LongestMembers(ws: seq<string>)
    ensures forall w :: w in WithLength(ws, MaxLength(ws)) <==>
              w in ws && forall v :: v in ws ==> Utf16Length(v) <= Utf16Length(w)
    ensures WithLength(ws, MaxLength(ws)) == [] <==> ws == []
    ensures forall i, j :: 0 <= i < j < |WithLength(ws, MaxLength(ws))| ==>
              Utf16Length(WithLength(ws, MaxLength(ws))[i]) == Utf16Length(WithLength(ws, MaxLength(ws))[j])
  {
    MaxLengthBounds(ws);
    var m := MaxLength(ws);
    var r := WithLength(ws, m);
    WithLengthMembers(ws, m);
    forall w | w in r ensures forall v :: v in ws ==> Utf16Length(v) <= Utf16Length(w) {
      forall v | v in ws ensures Utf16Length(v) <= Utf16Length(w) {
        var k :| 0 <= k < |ws| && ws[k] == v;
      }
    }
    forall w | w in ws && (forall v :: v in ws ==> Utf16Length(v) <= Utf16Length(w)) ensures w in r {
      var k :| 0 <= k < |ws| && Utf16Length(ws[k]) == m;
      assert ws[k] in ws;
      var j :| 0 <= j < |ws| && ws[j] == w;
    }
    if ws != [] {
      var k :| 0 <= k < |ws| && Utf16Length(ws[k]) == m;
      assert ws[k] in r;
    }
    forall i, j | 0 <= i < j < |r| ensures Utf16Length(r[i]) == Utf16Length(r[j]) {
      assert r[i] in r && r[j] in r;
    }
  }

  /** Every occurrence of a word of maximal length is kept, and no other word. */
  lemma LongestCounts(ws: seq<string>)
    ensures forall w :: multiset(WithLength(ws, MaxLength(ws)))[w] ==
              if forall v :: v in ws ==> Utf16Length(v) <= Utf16Length(w) then multiset(ws)[w] else 0
  {
    MaxLengthBounds(ws);
    var m := MaxLength(ws);
    WithLengthCounts(ws, m);
    forall w ensures multiset(WithLength(ws, m))[w] ==
        if forall v :: v in ws ==> Utf16Length(v) <= Utf16Length(w) then multiset(ws)[w] else 0
    {
      if w in ws {
        var j :| 0 <= j < |ws| && ws[j] == w;
        if forall v :: v in ws ==> Utf16Length(v) <= Utf16Length(w) {
          var k :| 0 <= k < |ws| && Utf16Length(ws[k]) == m;
          assert ws[k] in ws;
        }
      }
    }
  }

  /**
   * The longest words of a text are exactly its words no other word is
   * longer than, all of one length, each as often as the text has it; there
   * are some exactly when the text has a word.
   */
  lemma LongestWordsSpec(text: string)
    ensures forall w :: w in FindLongestWords(text) <==>
              w in Tokens(text) && forall v :: v in Tokens(text) ==> Utf16Length(v) <= Utf16Length(w)
    ensures forall w :: multiset(FindLongestWords(text))[w] ==
              if forall v :: v in Tokens(text) ==> Utf16Length(v) <= Utf16Length(w)
              then multiset(Tokens(text))[w] else 0
    ensures FindLongestWords(text) == [] <==> Tokens(text) == []
    ensures forall i, j :: 0 <= i < j < |FindLongestWords(text)| ==>
              Utf16Length(FindLongestWords(text)[i]) == Utf16Length(FindLongestWords(text)[j])
  {
    LongestMembers(Tokens(text));
    LongestCounts(Tokens(text));
  }

  // ---------------------------------------------------------------------------
  // All statistics
  // ---------------------------------------------------------------------------

  /** `computeStats` on the given content. */
  function ComputeStats(content: string): TextStats {
    TextStats(
      CountWords(content),
      CountCharacters(content),
      CountSentences(content),
      CountParagraphs(content),
      FindLongestWords(content))
  }

  /**
   * Normalising the content first changes neither the word count, the
   * character count nor the longest words: normalisation only rewrites
   * whitespace.
   */
  lemma StatsIgnoreNormalization(x: string)
    ensures ComputeStats(NormalizeContent(x)).wordCount == ComputeStats(x).wordCount
    ensures ComputeStats(NormalizeContent(x)).characterCount == ComputeStats(x).characterCount
    ensures ComputeStats(NormalizeContent(x)).longestWords == ComputeStats(x).longestWords
  {
    var n := NormalizeContent(x);
    NormalizeProperties.NormalizePreservesTokens(x);
    CountWordsIsTokens(x);
    CountWordsIsTokens(n);
    FlattenTokens(x);
    FlattenTokens(n);
  }

  /** Blank content has all counts zero and no longest word; other content has a word and a paragraph. */
  lemma StatsOfBlank(x: string)
    ensures AllSpace(x) <==> ComputeStats(x).wordCount == 0
    ensures AllSpace(x) ==> ComputeStats(x) == TextStats(0, 0, 0, 0, [])
    ensures !AllSpace(x) ==> ComputeStats(x).paragraphCount >= 1 && ComputeStats(x).longestWords != []
  {
    CountWordsIsTokens(x);
    CountParagraphsPositive(x);
    LongestWordsSpec(x);
    CountCharactersIsWordLengths(x);
    if AllSpace(x) {
      TokensOfSpaces(x);
      SentenceEndsOfBlank(x, 0);
    } else {
      TokensNotEmpty(x);
    }
  }
}
