/**
 * The longest-words cases of the entity's tests
 * (backend/src/modules/text-analyzer/domain/entities/text.entity.spec.ts)
 * and of JavaScript's `.length` on astral characters, worked out on the
 * model. Literal strings are taken apart at single spaces by small lemmas,
 * so that each proof only ever looks at a few characters at a time.
 */
module LongestWordsExamples {
  import opened Whitespace
  import opened TextUtils
  import opened TextCounts
  import opened TextEntity

  // ---------------------------------------------------------------------------
  // Words of printable ASCII
  // ---------------------------------------------------------------------------

  /** A non-empty run of printable, non-space ASCII characters. */
  predicate PlainWord(w: string) {
    w != [] && forall i :: 0 <= i < |w| ==> '!' <= w[i] <= '~'
  }

  /** A plain word is a token, and its `.length` is its number of characters. */
  lemma PlainWordFacts(w: string)
    requires PlainWord(w)
    ensures IsWord(w) && Utf16Length(w) == |w|
  {
    Utf16LengthBmp(w);
  }

  lemma FourWords(q: string, a: string, b: string, c: string, d: string)
    requires q == a + " " + b + " " + c + " " + d
    requires IsWord(a) && IsWord(b) && IsWord(c) && IsWord(d)
    ensures Tokens(q) == [a, b, c, d]
  {
    TokensAroundSpace(a + " " + b + " " + c, d);
    TokensAroundSpace(a + " " + b, c);
    TokensAroundSpace(a, b);
    TokensOfOneWord(a);
    TokensOfOneWord(b);
    TokensOfOneWord(c);
    TokensOfOneWord(d);
  }

  lemma FourFilter(a: string, b: string, c: string, d: string, n: nat)
    ensures WithLength([a, b, c, d], n) ==
      (if Utf16Length(a) == n then [a] else []) + (if Utf16Length(b) == n then [b] else []) +
      (if Utf16Length(c) == n then [c] else []) + (if Utf16Length(d) == n then [d] else [])
  {
    assert [a, b, c, d] == [a] + [b] + [c] + [d];
    WithLengthAppend([a] + [b] + [c], [d], n);
    WithLengthAppend([a] + [b], [c], n);
    WithLengthAppend([a], [b], n);
    WithLengthAppend([a], [], n);
    WithLengthAppend([b], [], n);
    WithLengthAppend([c], [], n);
    WithLengthAppend([d], [], n);
  }

  lemma FourMax(a: string, b: string, c: string, d: string, m: nat)
    requires Utf16Length(a) <= m && Utf16Length(b) <= m && Utf16Length(c) <= m && Utf16Length(d) <= m
    ensures MaxLength([a, b, c, d]) <= m
  {
    var ws := [a, b, c, d];
    MaxLengthBounds(ws);
    var k :| 0 <= k < |ws| && Utf16Length(ws[k]) == MaxLength(ws);
  }

  /** Four plain words joined by single spaces: their tokens, the filter and the maximum. */
  lemma FourPlainWords(q: string, w: seq<string>, m: nat)
    requires |w| == 4 && q == w[0] + " " + w[1] + " " + w[2] + " " + w[3]
    requires PlainWord(w[0]) && PlainWord(w[1]) && PlainWord(w[2]) && PlainWord(w[3])
    ensures Tokens(q) == w
    ensures WithLength(w, m) ==
      (if |w[0]| == m then [w[0]] else []) + (if |w[1]| == m then [w[1]] else []) +
      (if |w[2]| == m then [w[2]] else []) + (if |w[3]| == m then [w[3]] else [])
    ensures |w[0]| <= m && |w[1]| <= m && |w[2]| <= m && |w[3]| <= m ==> MaxLength(w) <= m
    ensures forall i :: 0 <= i < 4 ==> |w[i]| <= MaxLength(w)
  {
    var a, b, c, d := w[0], w[1], w[2], w[3];
    MaxLengthBounds(w);
    assert w == [a, b, c, d];
    PlainWordFacts(a);
    PlainWordFacts(b);
    PlainWordFacts(c);
    PlainWordFacts(d);
    FourWords(q, a, b, c, d);
    FourFilter(a, b, c, d, m);
    if |a| <= m && |b| <= m && |c| <= m && |d| <= m {
      FourMax(a, b, c, d, m);
    }
  }

  // ---------------------------------------------------------------------------
  // Texts made of four parts
  // ---------------------------------------------------------------------------

  lemma TokensOfQuarters(t: string, h1: string, h2: string, q1: string, q2: string, q3: string, q4: string)
    requires t == h1 + " " + h2 && h1 == q1 + " " + q2 && h2 == q3 + " " + q4
    ensures Tokens(t) == (Tokens(q1) + Tokens(q2)) + (Tokens(q3) + Tokens(q4))
  {
    TokensAroundSpace(h1, h2);
    TokensAroundSpace(q1, q2);
    TokensAroundSpace(q3, q4);
  }

  /**
   * When the first list holds the longest word, the longest words of the
   * four lists together are each list's words of that length, in order.
   */
  lemma LongestOfParts(w1: seq<string>, w2: seq<string>, w3: seq<string>, w4: seq<string>, m: nat)
    requires MaxLength(w1) == m && MaxLength(w2) <= m && MaxLength(w3) <= m && MaxLength(w4) <= m
    ensures WithLength((w1 + w2) + (w3 + w4), MaxLength((w1 + w2) + (w3 + w4))) ==
      (WithLength(w1, m) + WithLength(w2, m)) + (WithLength(w3, m) + WithLength(w4, m))
  {
    MaxLengthAppend(w1, w2);
    MaxLengthAppend(w3, w4);
    MaxLengthAppend(w1 + w2, w3 + w4);
    WithLengthAppend(w1, w2, m);
    WithLengthAppend(w3, w4, m);
    WithLengthAppend(w1 + w2, w3 + w4, m);
  }

  lemma LongestOfQuarters(t: string, w1: seq<string>, w2: seq<string>, w3: seq<string>, w4: seq<string>,
                          r1: seq<string>, r2: seq<string>, r3: seq<string>, r4: seq<string>, m: nat)
    requires Tokens(t) == (w1 + w2) + (w3 + w4)
    requires MaxLength(w1) == m && MaxLength(w2) <= m && MaxLength(w3) <= m && MaxLength(w4) <= m
    requires WithLength(w1, m) == r1 && WithLength(w2, m) == r2
    requires WithLength(w3, m) == r3 && WithLength(w4, m) == r4
    ensures FindLongestWords(t) == (r1 + r2) + (r3 + r4)
  {
    LongestOfParts(w1, w2, w3, w4, m);
  }

  lemma ConcatShape(a: string, b: string, c: string, d: string)
    ensures ([a, b] + [c]) + ([] + [d]) == [a, b, c, d]
  {
  }

  // ---------------------------------------------------------------------------
  // "The quick brown fox jumps over the lazy dog. The lazy dog slept in the sun."
  // ---------------------------------------------------------------------------

  lemma SampleHalves(t: string)
    requires t == "The quick brown fox jumps over the lazy dog. The lazy dog slept in the sun."
    ensures t == "The quick brown fox jumps over the lazy" + " " + "dog. The lazy dog slept in the sun."
  {
  }

  lemma SampleFirstHalf(h: string)
    requires h == "The quick brown fox jumps over the lazy"
    ensures h == "The quick brown fox" + " " + "jumps over the lazy"
  {
  }

  lemma SampleSecondHalf(h: string)
    requires h == "dog. The lazy dog slept in the sun."
    ensures h == "dog. The lazy dog" + " " + "slept in the sun."
  {
  }

  lemma SampleQuarter1(q: string)
    requires q == "The quick brown fox"
    ensures q == "The" + " " + "quick" + " " + "brown" + " " + "fox"
    ensures PlainWord("The") && PlainWord("quick") && PlainWord("brown") && PlainWord("fox")
  {
  }

  lemma SampleQuarter2(q: string)
    requires q == "jumps over the lazy"
    ensures q == "jumps" + " " + "over" + " " + "the" + " " + "lazy"
    ensures PlainWord("jumps") && PlainWord("over") && PlainWord("the") && PlainWord("lazy")
  {
  }

  lemma SampleQuarter3(q: string)
    requires q == "dog. The lazy dog"
    ensures q == "dog." + " " + "The" + " " + "lazy" + " " + "dog"
    ensures PlainWord("dog.") && PlainWord("The") && PlainWord("lazy") && PlainWord("dog")
  {
  }

  lemma SampleQuarter4(q: string)
    requires q == "slept in the sun."
    ensures q == "slept" + " " + "in" + " " + "the" + " " + "sun."
    ensures PlainWord("slept") && PlainWord("in") && PlainWord("the") && PlainWord("sun.")
  {
  }

  lemma SampleTokens(t: string, w1: seq<string>, w2: seq<string>, w3: seq<string>, w4: seq<string>)
    requires t == "The quick brown fox jumps over the lazy dog. The lazy dog slept in the sun."
    requires w1 == ["The", "quick", "brown", "fox"] && w2 == ["jumps", "over", "the", "lazy"]
    requires w3 == ["dog.", "The", "lazy", "dog"] && w4 == ["slept", "in", "the", "sun."]
    ensures Tokens(t) == (w1 + w2) + (w3 + w4)
  {
    var h1, h2 := "The quick brown fox jumps over the lazy", "dog. The lazy dog slept in the sun.";
    var q1, q2, q3, q4 := "The quick brown fox", "jumps over the lazy", "dog. The lazy dog", "slept in the sun.";
    SampleHalves(t);
    SampleFirstHalf(h1);
    SampleSecondHalf(h2);
    TokensOfQuarters(t, h1, h2, q1, q2, q3, q4);
    SampleQuarter1(q1);
    SampleQuarter2(q2);
    SampleQuarter3(q3);
    SampleQuarter4(q4);
    FourPlainWords(q1, w1, 5);
    FourPlainWords(q2, w2, 5);
    FourPlainWords(q3, w3, 5);
    FourPlainWords(q4, w4, 5);
  }

  lemma SampleLengths1(w: seq<string>)
    requires w == ["The", "quick", "brown", "fox"]
    ensures WithLength(w, 5) == ["quick", "brown"] && MaxLength(w) == 5
  {
    FourPlainWords(w[0] + " " + w[1] + " " + w[2] + " " + w[3], w, 5);
  }

  lemma SampleLengths2(w: seq<string>)
    requires w == ["jumps", "over", "the", "lazy"]
    ensures WithLength(w, 5) == ["jumps"] && MaxLength(w) <= 5
  {
    FourPlainWords(w[0] + " " + w[1] + " " + w[2] + " " + w[3], w, 5);
  }

  lemma SampleLengths3(w: seq<string>)
    requires w == ["dog.", "The", "lazy", "dog"]
    ensures WithLength(w, 5) == [] && MaxLength(w) <= 5
  {
    FourPlainWords(w[0] + " " + w[1] + " " + w[2] + " " + w[3], w, 5);
  }

  /** The last quarter's longest word is its first, of length exactly 5. */
  lemma SampleLengths4(w: seq<string>)
    requires w == ["slept", "in", "the", "sun."]
    ensures WithLength(w, 5) == ["slept"] && MaxLength(w) == 5
  {
    FourPlainWords(w[0] + " " + w[1] + " " + w[2] + " " + w[3], w, 5);
  }

  /** The sample text's longest words are its four five-letter words, in text order. */
  lemma SampleLongestWords()
    ensures FindLongestWords("The quick brown fox jumps over the lazy dog. The lazy dog slept in the sun.") ==
      ["quick", "brown", "jumps", "slept"]
  {
    var t := "The quick brown fox jumps over the lazy dog. The lazy dog slept in the sun.";
    var w1, w2 := ["The", "quick", "brown", "fox"], ["jumps", "over", "the", "lazy"];
    var w3, w4 := ["dog.", "The", "lazy", "dog"], ["slept", "in", "the", "sun."];
    SampleTokens(t, w1, w2, w3, w4);
    SampleLengths1(w1);
    SampleLengths2(w2);
    SampleLengths3(w3);
    SampleLengths4(w4);
    LongestOfQuarters(t, w1, w2, w3, w4, ["quick", "brown"], ["jumps"], [], ["slept"], 5);
    ConcatShape("quick", "brown", "jumps", "slept");
  }

  // ---------------------------------------------------------------------------
  // "hello world words": a tie keeps every word
  // ---------------------------------------------------------------------------

  lemma HelloParts(t: string, w: seq<string>)
    requires t == "hello world words" && w == ["hello", "world", "words"]
    ensures t == w[0] + " " + w[1] + " " + w[2]
    ensures PlainWord(w[0]) && PlainWord(w[1]) && PlainWord(w[2])
  {
  }

  lemma ThreeWords(t: string, a: string, b: string, c: string)
    requires t == a + " " + b + " " + c && IsWord(a) && IsWord(b) && IsWord(c)
    ensures Tokens(t) == [a, b, c]
  {
    TokensAroundSpace(a + " " + b, c);
    TokensAroundSpace(a, b);
    TokensOfOneWord(a);
    TokensOfOneWord(b);
    TokensOfOneWord(c);
  }

  lemma ThreePlainWords(t: string, w: seq<string>)
    requires |w| == 3 && t == w[0] + " " + w[1] + " " + w[2]
    requires PlainWord(w[0]) && PlainWord(w[1]) && PlainWord(w[2])
    ensures Tokens(t) == w
    ensures forall i :: 0 <= i < 3 ==> Utf16Length(w[i]) == |w[i]|
  {
    PlainWordFacts(w[0]);
    PlainWordFacts(w[1]);
    PlainWordFacts(w[2]);
    ThreeWords(t, w[0], w[1], w[2]);
  }

  /** Words all of one length are all kept, and that length is the maximum. */
  lemma {:induction false} AllOfLength(ws: seq<string>, n: nat)
    requires ws != [] && forall i :: 0 <= i < |ws| ==> Utf16Length(ws[i]) == n
    ensures WithLength(ws, n) == ws && MaxLength(ws) == n
    decreases |ws|
  {
    if |ws| > 1 {
      AllOfLength(ws[1..], n);
    }
  }

  /** Three words of five letters: all three are the longest, in text order. */
  lemma HelloLongestWords()
    ensures FindLongestWords("hello world words") == ["hello", "world", "words"]
  {
    HelloFacts("hello world words", ["hello", "world", "words"]);
  }

  lemma HelloFacts(t: string, w: seq<string>)
    requires t == "hello world words" && w == ["hello", "world", "words"]
    ensures Tokens(t) == w && WithLength(w, 5) == w && MaxLength(w) == 5
  {
    HelloParts(t, w);
    ThreePlainWords(t, w);
    AllOfLength(w, 5);
  }

  // ---------------------------------------------------------------------------
  // Lengths are counted in UTF-16 code units
  // ---------------------------------------------------------------------------

  /**
   * Two words where the first is longer: it is the only longest word, and
   * the characters are those of the two words.
   */
  lemma TwoWords(t: string, a: string, b: string)
    requires t == a + " " + b && IsWord(a) && IsWord(b) && Utf16Length(a) > Utf16Length(b)
    ensures FindLongestWords(t) == [a]
    ensures CountCharacters(t) == Utf16Length(a) + Utf16Length(b)
  {
    TwoWordsTokens(t, a, b);
    TwoWordsCharacters(t, a, b);
  }

  lemma TwoWordsTokens(t: string, a: string, b: string)
    requires t == a + " " + b && IsWord(a) && IsWord(b) && Utf16Length(a) > Utf16Length(b)
    ensures FindLongestWords(t) == [a]
  {
    TokensAroundSpace(a, b);
    TokensOfOneWord(a);
    TokensOfOneWord(b);
    var ws := [a, b];
    assert Tokens(t) == ws;
    MaxLengthBounds(ws);
    assert ws == [a] + [b];
    WithLengthAppend([a], [b], Utf16Length(a));
    WithLengthAppend([a], [], Utf16Length(a));
    WithLengthAppend([b], [], Utf16Length(a));
  }

  lemma TwoWordsCharacters(t: string, a: string, b: string)
    requires t == a + " " + b && IsWord(a) && IsWord(b)
    ensures CountCharacters(t) == Utf16Length(a) + Utf16Length(b)
  {
    RemoveSpacesAppend(a, " " + b);
    RemoveSpacesAppend(" ", b);
    assert a + (" " + b) == t;
    RemoveSpacesOfNoSpace(a);
    RemoveSpacesOfNoSpace(b);
    Utf16LengthAppend(a, b);
  }

  lemma AstralParts(t: string)
    requires t == "\U{1F600}\U{1F600} abc"
    ensures t == "\U{1F600}\U{1F600}" + " " + "abc"
    ensures IsWord("\U{1F600}\U{1F600}") && IsWord("abc")
    ensures Utf16Length("\U{1F600}\U{1F600}") == 4 && Utf16Length("abc") == 3
  {
  }

  /**
   * Two emoji outside the Basic Multilingual Plane make a word of length 4,
   * which beats the three letters of "abc" although it has fewer characters.
   */
  lemma AstralLongestWords()
    ensures FindLongestWords("\U{1F600}\U{1F600} abc") == ["\U{1F600}\U{1F600}"]
    ensures CountCharacters("\U{1F600}\U{1F600} abc") == 7
  {
    AstralParts("\U{1F600}\U{1F600} abc");
    TwoWords("\U{1F600}\U{1F600} abc", "\U{1F600}\U{1F600}", "abc");
  }

  // ---------------------------------------------------------------------------
  // Through the entity, which normalises its content first
  // ---------------------------------------------------------------------------

  lemma SampleAfterNormalization(x: string)
    requires x == "The quick brown fox jumps over the lazy dog. The lazy dog slept in the sun."
    ensures FindLongestWords(NormalizeContent(x)) == ["quick", "brown", "jumps", "slept"]
  {
    StatsIgnoreNormalization(x);
    SampleLongestWords();
  }

  lemma HelloAfterNormalization(x: string)
    requires x == "hello world words"
    ensures FindLongestWords(NormalizeContent(x)) == ["hello", "world", "words"]
  {
    StatsIgnoreNormalization(x);
    HelloLongestWords();
  }

  /** An entity built on the sample text reports its four five-letter words. */
  method EntitySampleLongestWords(userId: string, digest: string -> string) returns (ws: seq<string>)
    ensures ws == ["quick", "brown", "jumps", "slept"]
  {
    var text := "The quick brown fox jumps over the lazy dog. The lazy dog slept in the sun.";
    var entity := new TextAnalyzerEntity(text, userId, digest);
    ws := entity.GetLongestWords();
    SampleAfterNormalization(text);
  }

  /** An entity built on three words of equal length reports all three. */
  method EntityTiedLongestWords(userId: string, digest: string -> string) returns (ws: seq<string>)
    ensures ws == ["hello", "world", "words"]
  {
    var text := "hello world words";
    var entity := new TextAnalyzerEntity(text, userId, digest);
    ws := entity.GetLongestWords();
    HelloAfterNormalization(text);
  }
}
