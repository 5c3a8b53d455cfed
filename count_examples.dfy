/**
 * The word, character, sentence and paragraph counts that the entity's tests
 * (backend/src/modules/text-analyzer/domain/entities/text.entity.spec.ts)
 * and the end-to-end tests (backend/test/text-analyzer.e2e-spec.ts) expect,
 * worked out on the model. As for the longest words, literal strings are
 * taken apart by small lemmas so that each proof looks at a few characters.
 */
module CountExamples {
  import opened Whitespace
  import opened TextUtils
  import opened TextCounts
  import opened Paragraphs
  import opened NormalizeProperties
  import opened Renormalize
  import opened TextEntity
  import opened LongestWordsExamples

  // ---------------------------------------------------------------------------
  // Total length of words
  // ---------------------------------------------------------------------------

  lemma {:induction false} TotalLengthAppend(a: seq<string>, b: seq<string>)
    ensures TotalLength(a + b) == TotalLength(a) + TotalLength(b)
    decreases |a|
  {
    if a == [] {
      assert a + b == b;
    } else {
      assert (a + b)[0] == a[0] && (a + b)[1..] == a[1..] + b;
      TotalLengthAppend(a[1..], b);
    }
  }

  /** Four plain words are as long as their characters. */
  lemma FourTotal(w: seq<string>)
    requires |w| == 4
    requires PlainWord(w[0]) && PlainWord(w[1]) && PlainWord(w[2]) && PlainWord(w[3])
    ensures TotalLength(w) == |w[0]| + |w[1]| + |w[2]| + |w[3]|
  {
    PlainWordFacts(w[0]);
    PlainWordFacts(w[1]);
    PlainWordFacts(w[2]);
    PlainWordFacts(w[3]);
    assert TotalLength(w[3..]) == |w[3]| by {
      assert w[3..][1..] == [];
    }
    assert TotalLength(w[2..]) == |w[2]| + |w[3]| by {
      assert w[2..][0] == w[2] && w[2..][1..] == w[3..];
    }
    assert TotalLength(w[1..]) == |w[1]| + |w[2]| + |w[3]| by {
      assert w[1..][0] == w[1] && w[1..][1..] == w[2..];
    }
  }

  lemma WordsOfList(t: string, ws: seq<string>)
    requires Tokens(t) == ws
    ensures CountWords(t) == |ws|
  {
    CountWordsIsTokens(t);
  }

  lemma CharactersOfList(t: string, ws: seq<string>)
    requires Tokens(t) == ws
    ensures CountCharacters(t) == TotalLength(ws)
  {
    CountCharactersIsWordLengths(t);
  }

  lemma QuartersTotal(w1: seq<string>, w2: seq<string>, w3: seq<string>, w4: seq<string>)
    ensures TotalLength((w1 + w2) + (w3 + w4)) == TotalLength(w1) + TotalLength(w2) + TotalLength(w3) + TotalLength(w4)
  {
    TotalLengthAppend(w1, w2);
    TotalLengthAppend(w3, w4);
    TotalLengthAppend(w1 + w2, w3 + w4);
  }

  // ---------------------------------------------------------------------------
  // "The quick brown fox jumps over the lazy dog. The lazy dog slept in the sun."
  // ---------------------------------------------------------------------------

  lemma SampleTotal1(w: seq<string>)
    requires w == ["The", "quick", "brown", "fox"]
    ensures TotalLength(w) == 16
  {
    SampleQuarter1("The quick brown fox");
    FourTotal(w);
  }

  lemma SampleTotal2(w: seq<string>)
    requires w == ["jumps", "over", "the", "lazy"]
    ensures TotalLength(w) == 16
  {
    SampleQuarter2("jumps over the lazy");
    FourTotal(w);
  }

  lemma SampleTotal3(w: seq<string>)
    requires w == ["dog.", "The", "lazy", "dog"]
    ensures TotalLength(w) == 14
  {
    SampleQuarter3("dog. The lazy dog");
    FourTotal(w);
  }

  lemma SampleTotal4(w: seq<string>)
    requires w == ["slept", "in", "the", "sun."]
    ensures TotalLength(w) == 14
  {
    SampleQuarter4("slept in the sun.");
    FourTotal(w);
  }

  /** The sample text has 16 words of 60 characters in all. */
  lemma SampleCounts()
    ensures CountWords("The quick brown fox jumps over the lazy dog. The lazy dog slept in the sun.") == 16
    ensures CountCharacters("The quick brown fox jumps over the lazy dog. The lazy dog slept in the sun.") == 60
  {
    var t := "The quick brown fox jumps over the lazy dog. The lazy dog slept in the sun.";
    var w1, w2 := ["The", "quick", "brown", "fox"], ["jumps", "over", "the", "lazy"];
    var w3, w4 := ["dog.", "The", "lazy", "dog"], ["slept", "in", "the", "sun."];
    SampleTokens(t, w1, w2, w3, w4);
    SampleTotal1(w1);
    SampleTotal2(w2);
    SampleTotal3(w3);
    SampleTotal4(w4);
    var ws := (w1 + w2) + (w3 + w4);
    WordsOfList(t, ws);
    CharactersOfList(t, ws);
    QuartersTotal(w1, w2, w3, w4);
  }

  // ---------------------------------------------------------------------------
  // Text that normalisation leaves alone
  // ---------------------------------------------------------------------------

  /**
   * Non-empty text without carriage returns, starting and ending with a
   * non-space, whose only neighbouring whitespace is line feeds.
   */
  predicate Block(s: string) {
    s != [] && '\r' !in s && !IsSpace(s[0]) && !IsSpace(s[|s| - 1]) && PairsOk(s)
  }

  lemma PlainBlock(w: string)
    requires PlainWord(w)
    ensures Block(w) && '\n' !in w
  {
    assert forall i :: 0 <= i < |w| ==> !IsSpace(w[i]);
  }

  /** Two blocks joined by one space, or by a run of line feeds, form a block. */
  lemma JoinBlocks(a: string, sep: string, b: string)
    requires Block(a) && Block(b)
    requires sep == " " || sep == "\n\n\n"
    ensures Block(a + sep + b)
    ensures '\n' !in a && '\n' !in b && sep == " " ==> '\n' !in a + sep + b
  {
    var t := a + sep + b;
    assert t[0] == a[0] && t[|t| - 1] == b[|b| - 1];
    forall i | 0 <= i < |t| - 1 ensures PairOk(t[i], t[i + 1]) {
      if i < |a| - 1 {
        assert t[i] == a[i] && t[i + 1] == a[i + 1];
      } else if i >= |a| + |sep| {
        assert t[i] == b[i - |a| - |sep|] && t[i + 1] == b[i + 1 - |a| - |sep|];
      }
    }
  }

  /** A block is trimmed and not blank. */
  lemma BlockTrimmed(s: string)
    requires Block(s)
    ensures Trimmed(s) && !AllSpace(s)
  {
  }

  // ---------------------------------------------------------------------------
  // "This is a test text."
  // ---------------------------------------------------------------------------

  lemma TestTextParts(t: string, w: seq<string>)
    requires t == "This is a test text." && w == ["is", "a", "test", "text."]
    ensures t == "This" + " " + (w[0] + " " + w[1] + " " + w[2] + " " + w[3])
    ensures PlainWord("This") && PlainWord(w[0]) && PlainWord(w[1]) && PlainWord(w[2]) && PlainWord(w[3])
  {
  }

  lemma TestTextSentences(t: string)
    requires t == "This is a test text."
    ensures CountSentences(t) == 1
  {
    forall k: nat | k < |t| && IsSentenceEnd(t, k) ensures k == 19 {
      assert t[k] == '.' || t[k] == '?' || t[k] == '!';
    }
    assert IsSentenceEnd(t, 19);
    assert (set k: nat | k < |t| && IsSentenceEnd(t, k)) == {19};
    CountSentencesIsPositions(t);
  }

  /** A text with no line feed has no paragraph break. */
  lemma {:induction false} BreaksWithoutLf(s: string, k: nat)
    requires k <= 2 && '\n' !in s
    ensures BreaksFrom(s, k) == 0
    decreases |s|
  {
    if s != [] {
      assert s[0] in s;
      assert forall c :: c in s[1..] ==> c in s;
      BreaksWithoutLf(s[1..], if IsSpace(s[0]) then k else 0);
    }
  }

  /** Text already in normalised form, without blank runs, is left as it is. */
  lemma CleanIsNormalized(t: string)
    requires '\r' !in t && '\n' !in t && Trimmed(t) && PairsOk(t)
    ensures NormalizeContent(t) == t
  {
    LinesTidyIffPairs(t);
    NormalizeFixedPoint(t);
  }

  /** One word followed by four: the tokens, their total length and the longest. */
  lemma OneThenFour(t: string, a: string, w: seq<string>)
    requires |w| == 4 && t == a + " " + (w[0] + " " + w[1] + " " + w[2] + " " + w[3])
    requires PlainWord(a) && PlainWord(w[0]) && PlainWord(w[1]) && PlainWord(w[2]) && PlainWord(w[3])
    ensures Tokens(t) == [a] + w
    ensures TotalLength([a] + w) == |a| + |w[0]| + |w[1]| + |w[2]| + |w[3]|
  {
    var q := w[0] + " " + w[1] + " " + w[2] + " " + w[3];
    FourPlainWords(q, w, 0);
    PlainWordFacts(a);
    TokensAroundSpace(a, q);
    TokensOfOneWord(a);
    FourTotal(w);
    TotalLengthAppend([a], w);
    assert TotalLength([a]) == |a| by {
      assert [a][1..] == [];
    }
  }

  lemma TestTextWords(t: string)
    requires t == "This is a test text."
    ensures CountWords(t) == 5 && CountCharacters(t) == 16
  {
    var w := ["is", "a", "test", "text."];
    TestTextParts(t, w);
    OneThenFour(t, "This", w);
    WordsOfList(t, ["This"] + w);
    CharactersOfList(t, ["This"] + w);
  }

  /** The test text is a block without line feeds. */
  lemma TestTextShape(t: string)
    requires t == "This is a test text."
    ensures '\r' !in t && '\n' !in t && Trimmed(t) && !AllSpace(t) && PairsOk(t)
  {
    var w := ["is", "a", "test", "text."];
    TestTextParts(t, w);
    PlainBlock("This");
    PlainBlock(w[0]);
    PlainBlock(w[1]);
    PlainBlock(w[2]);
    PlainBlock(w[3]);
    JoinBlocks(w[0], " ", w[1]);
    JoinBlocks(w[0] + " " + w[1], " ", w[2]);
    JoinBlocks(w[0] + " " + w[1] + " " + w[2], " ", w[3]);
    JoinBlocks("This", " ", w[0] + " " + w[1] + " " + w[2] + " " + w[3]);
    BlockTrimmed(t);
  }

  lemma TestTextParagraphs(t: string)
    requires t == "This is a test text."
    ensures CountParagraphs(t) == 1
  {
    TestTextShape(t);
    ParagraphsOfClean(t);
    BreaksWithoutLf(t, 0);
  }

  /**
   * "This is a test text." is already normalised, and has 5 words, 16
   * characters, 1 sentence and 1 paragraph.
   */
  lemma TestTextCounts()
    ensures NormalizeContent("This is a test text.") == "This is a test text."
    ensures CountWords("This is a test text.") == 5
    ensures CountCharacters("This is a test text.") == 16
    ensures CountSentences("This is a test text.") == 1
    ensures CountParagraphs("This is a test text.") == 1
  {
    TestTextShape("This is a test text.");
    CleanIsNormalized("This is a test text.");
    TestTextWords("This is a test text.");
    TestTextSentences("This is a test text.");
    TestTextParagraphs("This is a test text.");
  }

  // ---------------------------------------------------------------------------
  // "First paragraph.\n\n\nSecond paragraph.\n\n\nThird paragraph."
  // ---------------------------------------------------------------------------

  /** A line with no line feed that ends in a non-space leaves the scan outside any run. */
  lemma {:induction false} BreaksAfterLine(l: string, s: string, k: nat)
    requires k <= 2 && l != [] && '\n' !in l && !IsSpace(l[|l| - 1])
    ensures BreaksFrom(l + s, k) == BreaksFrom(s, 0)
    decreases |l|
  {
    var t := l + s;
    assert t[0] == l[0] && t[1..] == l[1..] + s;
    assert l[0] in l;
    if |l| > 1 {
      assert l[1..][|l| - 2] == l[|l| - 1];
      assert forall c :: c in l[1..] ==> c in l;
      BreaksAfterLine(l[1..], s, if IsSpace(l[0]) then k else 0);
    } else {
      assert l[1..] + s == s;
    }
  }

  /** A run of three line feeds after a word is one paragraph break. */
  lemma BreaksOfThreeLfs(s: string)
    ensures BreaksFrom("\n\n\n" + s, 0) == 1 + BreaksFrom(s, 2)
  {
    var t := "\n\n\n" + s;
    var u := "\n\n" + s;
    var v := "\n" + s;
    assert t[0] == '\n' && t[1..] == u;
    assert u[0] == '\n' && u[1..] == v;
    assert v[0] == '\n' && v[1..] == s;
    assert BreaksFrom(v, 2) == BreaksFrom(s, 2);
    assert BreaksFrom(u, 1) == 1 + BreaksFrom(v, 2);
    assert BreaksFrom(t, 0) == BreaksFrom(u, 1);
  }

  /** Three lines separated by runs of three line feeds hold two paragraph breaks. */
  lemma ThreeLineBreaks(t: string, l1: string, l2: string, l3: string)
    requires t == l1 + "\n\n\n" + l2 + "\n\n\n" + l3
    requires Block(l1) && Block(l2) && Block(l3)
    requires '\n' !in l1 && '\n' !in l2 && '\n' !in l3
    ensures BreaksFrom(t, 0) == 2
  {
    var r2 := l2 + ("\n\n\n" + l3);
    assert t == l1 + ("\n\n\n" + r2);
    BreaksAfterLine(l1, "\n\n\n" + r2, 0);
    BreaksOfThreeLfs(r2);
    BreaksAfterLine(l2, "\n\n\n" + l3, 2);
    BreaksOfThreeLfs(l3);
    BreaksAfterLine(l3, [], 2);
    assert l3 + [] == l3;
  }

  lemma ParagraphTextLines(t: string)
    requires t == "First paragraph.\n\n\nSecond paragraph.\n\n\nThird paragraph."
    ensures t == "First paragraph." + "\n\n\n" + "Second paragraph." + "\n\n\n" + "Third paragraph."
  {
  }

  lemma ParagraphWords()
    ensures PlainWord("First") && PlainWord("Second") && PlainWord("Third") && PlainWord("paragraph.")
  {
  }

  /** A word followed by "paragraph." is a block without line feeds. */
  lemma ParagraphLine(l: string, a: string)
    requires l == a + " " + "paragraph." && PlainWord(a) && PlainWord("paragraph.")
    ensures Block(l) && '\n' !in l
  {
    PlainBlock(a);
    PlainBlock("paragraph.");
    JoinBlocks(a, " ", "paragraph.");
  }

  /** Three word-and-"paragraph." lines joined by three line feeds each. */
  lemma ThreeParagraphLines(t: string, l1: string, l2: string, l3: string, a1: string, a2: string, a3: string)
    requires t == l1 + "\n\n\n" + l2 + "\n\n\n" + l3
    requires l1 == a1 + " " + "paragraph." && l2 == a2 + " " + "paragraph." && l3 == a3 + " " + "paragraph."
    requires PlainWord(a1) && PlainWord(a2) && PlainWord(a3) && PlainWord("paragraph.")
    ensures Block(t) && BreaksFrom(t, 0) == 2
  {
    ParagraphLine(l1, a1);
    ParagraphLine(l2, a2);
    ParagraphLine(l3, a3);
    JoinBlocks(l1, "\n\n\n", l2);
    JoinBlocks(l1 + "\n\n\n" + l2, "\n\n\n", l3);
    ThreeLineBreaks(t, l1, l2, l3);
  }

  lemma ParagraphLineWords(l1: string, l2: string, l3: string)
    requires l1 == "First paragraph." && l2 == "Second paragraph." && l3 == "Third paragraph."
    ensures l1 == "First" + " " + "paragraph." && l2 == "Second" + " " + "paragraph."
    ensures l3 == "Third" + " " + "paragraph."
  {
  }

  /** The three-paragraph text is a block with two paragraph breaks. */
  lemma ParagraphTextShape(t: string)
    requires t == "First paragraph.\n\n\nSecond paragraph.\n\n\nThird paragraph."
    ensures Block(t) && BreaksFrom(t, 0) == 2
  {
    ParagraphTextLines(t);
    ParagraphWords();
    ParagraphLineWords("First paragraph.", "Second paragraph.", "Third paragraph.");
    ThreeParagraphLines(t, "First paragraph.", "Second paragraph.", "Third paragraph.", "First", "Second", "Third");
  }

  /** Normalising a clean block collapses its line-feed runs and keeps its paragraph breaks. */
  lemma NormalizedBlockBreaks(t: string)
    requires Block(t)
    ensures NormalizeContent(t) != []
    ensures ParagraphBreaks(NormalizeContent(t), 0) == BreaksFrom(t, 0)
    ensures CountParagraphs(NormalizeContent(t)) == 1 + BreaksFrom(t, 0)
  {
    BlockTrimmed(t);
    LinesTidyIffPairs(t);
    RenormalizeIsCollapse(t);
    var c := CollapseBlankRuns(t);
    CollapseKeepsClean(t);
    ParagraphsOfClean(c);
    CollapseBlankRunsBreaks(t, 0);
    ParagraphBreaksScan(c, 0);
    assert c[0..] == c;
  }

  /**
   * "First paragraph.", "Second paragraph." and "Third paragraph." separated
   * by two blank lines are three paragraphs once normalised.
   */
  lemma ParagraphTextCounts()
    ensures CountParagraphs(NormalizeContent("First paragraph.\n\n\nSecond paragraph.\n\n\nThird paragraph.")) == 3
  {
    ParagraphTextShape("First paragraph.\n\n\nSecond paragraph.\n\n\nThird paragraph.");
    NormalizedBlockBreaks("First paragraph.\n\n\nSecond paragraph.\n\n\nThird paragraph.");
  }

  // ---------------------------------------------------------------------------
  // Through the entity, which normalises its content first
  // ---------------------------------------------------------------------------

  lemma SampleCountsAfterNormalization(x: string)
    requires x == "The quick brown fox jumps over the lazy dog. The lazy dog slept in the sun."
    ensures |Tokens(NormalizeContent(x))| == 16
    ensures TotalLength(Tokens(NormalizeContent(x))) == 60
  {
    SampleCounts();
    NormalizePreservesTokens(x);
    CountWordsIsTokens(x);
    CountCharactersIsWordLengths(x);
  }

  /** An entity built on the sample text reports 16 words and 60 characters. */
  method EntitySampleCounts(userId: string, digest: string -> string) returns (words: nat, characters: nat)
    ensures words == 16 && characters == 60
  {
    var text := "The quick brown fox jumps over the lazy dog. The lazy dog slept in the sun.";
    var entity := new TextAnalyzerEntity(text, userId, digest);
    words := entity.GetWordCount();
    characters := entity.GetCharacterCount();
    SampleCountsAfterNormalization(text);
  }

  lemma ParagraphTextBreaks(x: string)
    requires x == "First paragraph.\n\n\nSecond paragraph.\n\n\nThird paragraph."
    ensures NormalizeContent(x) != [] && ParagraphBreaks(NormalizeContent(x), 0) == 2
  {
    ParagraphTextShape(x);
    NormalizedBlockBreaks(x);
  }

  /** An entity built on three paragraphs separated by two blank lines reports 3 paragraphs. */
  method EntityParagraphCount(userId: string, digest: string -> string) returns (n: nat)
    ensures n == 3
  {
    var text := "First paragraph.\n\n\nSecond paragraph.\n\n\nThird paragraph.";
    var entity := new TextAnalyzerEntity(text, userId, digest);
    n := entity.GetParagraphCount();
    ParagraphTextBreaks(text);
  }
}
