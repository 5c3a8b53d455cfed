/**
 * Normalising text that `normalizeContent` has already produced
 * (backend/src/common/utils/text-analysis.utils.ts) only collapses the runs of
 * three or more line feeds it may have left, and that changes none of the
 * statistics `TextAnalyzerEntity` computes. The service relies on this when
 * it caches statistics of twice-normalised text under the key of
 * once-normalised text.
 */
module Renormalize {
  import opened Whitespace
  import opened TextUtils
  import opened NormalizeProperties
  import opened Paragraphs
  import opened TextCounts

  // ---------------------------------------------------------------------------
  // Collapsing line-feed runs keeps the first and the last character
  // ---------------------------------------------------------------------------

  lemma CollapseBlankRunsHead(t: string)
    ensures CollapseBlankRuns(t) == [] <==> t == []
    ensures t != [] ==> CollapseBlankRuns(t)[0] == t[0]
  {
    if t != [] && LfRun(t) >= 3 {
      assert t[0] == '\n';
    }
  }

  lemma {:induction false} CollapseBlankRunsLast(t: string)
    requires t != [] && t[|t| - 1] != '\n'
    ensures CollapseBlankRuns(t) != []
    ensures CollapseBlankRuns(t)[|CollapseBlankRuns(t)| - 1] == t[|t| - 1]
    decreases |t|
  {
    var n := LfRun(t);
    if n >= 3 {
      assert n < |t|;
      assert t[n..][|t[n..]| - 1] == t[|t| - 1];
      CollapseBlankRunsLast(t[n..]);
    } else if |t| > 1 {
      assert t[1..][|t[1..]| - 1] == t[|t| - 1];
      CollapseBlankRunsLast(t[1..]);
    }
  }

  lemma CollapseBlankRunsTrimmed(t: string)
    requires Trimmed(t)
    ensures Trimmed(CollapseBlankRuns(t))
  {
    CollapseBlankRunsHead(t);
    if t != [] {
      CollapseBlankRunsLast(t);
    }
  }

  // ---------------------------------------------------------------------------
  // Tidy lines as a property of neighbouring characters
  // ---------------------------------------------------------------------------

  /** Two neighbouring characters are not both whitespace, unless both are line feeds. */
  predicate PairOk(a: char, b: char) {
    !(IsSpace(a) && IsSpace(b)) || (a == '\n' && b == '\n')
  }

  predicate PairsOk(s: string) {
    forall i :: 0 <= i < |s| - 1 ==> PairOk(s[i], s[i + 1])
  }

  /** For trimmed text, tidy lines are exactly text whose only adjacent whitespace is line feeds. */
  lemma LinesTidyIffPairs(r: string)
    requires Trimmed(r)
    ensures LinesTidy(r) <==> PairsOk(r)
  {
    if LinesTidy(r) {
      forall i | 0 <= i < |r| - 1 ensures PairOk(r[i], r[i + 1]) {
        if IsSpace(r[i]) && IsSpace(r[i + 1]) {
          assert r[i] == '\n';
        }
      }
    }
    if PairsOk(r) {
      forall i | 0 <= i < |r| && IsSpace(r[i]) && r[i] != '\n'
        ensures 0 < i < |r| - 1 && !IsSpace(r[i - 1]) && !IsSpace(r[i + 1])
      {
        assert i != 0 && i != |r| - 1;
        assert PairOk(r[i - 1], r[i]) && PairOk(r[i], r[i + 1]);
      }
    }
  }

  lemma PairsOkCons(c: char, t: string)
    ensures PairsOk([c] + t) <==> (t == [] || PairOk(c, t[0])) && PairsOk(t)
  {
    if PairsOk([c] + t) {
      PairsOkConsTail(c, t);
    }
    if (t == [] || PairOk(c, t[0])) && PairsOk(t) {
      PairsOkConsFront(c, t);
    }
  }

  lemma PairsOkConsTail(c: char, t: string)
    requires PairsOk([c] + t)
    ensures (t == [] || PairOk(c, t[0])) && PairsOk(t)
  {
    var s := [c] + t;
    forall i | 0 <= i < |t| - 1 ensures PairOk(t[i], t[i + 1]) {
      assert s[i + 1] == t[i] && s[i + 2] == t[i + 1];
    }
    if t != [] {
      assert s[0] == c && s[1] == t[0];
    }
  }

  lemma PairsOkConsFront(c: char, t: string)
    requires t == [] || PairOk(c, t[0])
    requires PairsOk(t)
    ensures PairsOk([c] + t)
  {
    var s := [c] + t;
    forall i | 0 <= i < |s| - 1 ensures PairOk(s[i], s[i + 1]) {
      if i > 0 {
        assert s[i] == t[i - 1] && s[i + 1] == t[i];
      } else {
        assert s[0] == c && s[1] == t[0];
      }
    }
  }

  lemma PairsOkLfs(s: string, n: nat)
    requires n <= |s| && forall i :: 0 <= i < n ==> s[i] == '\n'
    requires PairsOk(s)
    ensures PairsOk(s[n..])
    ensures n > 0 && n < |s| ==> PairOk('\n', s[n])
  {
    if n > 0 && n < |s| {
      assert PairOk(s[n - 1], s[n]);
    }
    forall i | 0 <= i < |s[n..]| - 1 ensures PairOk(s[n..][i], s[n..][i + 1]) {
      assert s[n..][i] == s[n + i] && s[n..][i + 1] == s[n + i + 1];
    }
  }

  lemma {:induction false} CollapseBlankRunsPairs(s: string)
    requires PairsOk(s)
    ensures PairsOk(CollapseBlankRuns(s))
    decreases |s|
  {
    if s != [] {
      var n := LfRun(s);
      if n >= 3 {
        var x := CollapseBlankRuns(s[n..]);
        PairsOkLfs(s, n);
        CollapseBlankRunsPairs(s[n..]);
        CollapseBlankRunsHead(s[n..]);
        PairsOkCons('\n', x);
        PairsOkCons('\n', "\n" + x);
        assert "\n\n" + x == ['\n'] + (['\n'] + x);
      } else {
        var x := CollapseBlankRuns(s[1..]);
        PairsOkCons(s[0], s[1..]);
        assert [s[0]] + s[1..] == s;
        CollapseBlankRunsPairs(s[1..]);
        CollapseBlankRunsHead(s[1..]);
        PairsOkCons(s[0], x);
      }
    }
  }

  /**
   * Text with the shape normalisation gives is normalised again by collapsing
   * its runs of three or more line feeds, and by nothing else.
   */
  lemma RenormalizeIsCollapse(r: string)
    requires '\r' !in r && Trimmed(r) && LinesTidy(r)
    ensures NormalizeContent(r) == CollapseBlankRuns(r)
  {
    var c := CollapseBlankRuns(r);
    CrLfToLfNoCr(r);
    CrToLfNoCr(r);
    CollapseBlankRunsTrimmed(r);
    LinesTidyIffPairs(r);
    CollapseBlankRunsPairs(r);
    LinesTidyIffPairs(c);
    LinesTidySplit(c);
    TidyLinesOfTidy(SplitLines(c));
    JoinSplitLines(c);
    TrimOfTrimmed(c);
  }

  // ---------------------------------------------------------------------------
  // Sentence ends survive the collapse
  // ---------------------------------------------------------------------------

  /** The sentence ends of `s`, counted from the front. */
  function Ends(s: string): nat {
    if s == [] then 0 else (if IsSentenceEnd(s, 0) then 1 else 0) + Ends(s[1..])
  }

  lemma {:induction false} SentenceEndsFromSuffix(s: string, i: nat)
    requires i <= |s|
    ensures SentenceEndsFrom(s, i) == Ends(s[i..])
    decreases |s| - i
  {
    if i < |s| {
      var t := s[i..];
      assert t[0] == s[i];
      assert |t| > 1 ==> t[1] == s[i + 1];
      assert IsSentenceEnd(s, i) == IsSentenceEnd(t, 0);
      assert t[1..] == s[i + 1..];
      SentenceEndsFromSuffix(s, i + 1);
    }
  }

  lemma {:induction false} EndsAfterLfs(s: string, n: nat)
    requires n <= |s| && forall i :: 0 <= i < n ==> s[i] == '\n'
    ensures Ends(s) == Ends(s[n..])
    decreases n
  {
    if n > 0 {
      assert !IsSentenceEnd(s, 0);
      assert s[1..][n - 1..] == s[n..];
      EndsAfterLfs(s[1..], n - 1);
    }
  }

  lemma {:induction false} CollapseBlankRunsEnds(s: string)
    ensures Ends(CollapseBlankRuns(s)) == Ends(s)
    decreases |s|
  {
    if s != [] {
      var n := LfRun(s);
      if n >= 3 {
        var x := CollapseBlankRuns(s[n..]);
        EndsAfterLfs(s, n);
        EndsAfterLfs("\n\n" + x, 2);
        assert ("\n\n" + x)[2..] == x;
        CollapseBlankRunsEnds(s[n..]);
      } else {
        var x := CollapseBlankRuns(s[1..]);
        var y := [s[0]] + x;
        CollapseBlankRunsHead(s[1..]);
        assert y[1..] == x;
        assert |y| > 1 ==> y[1] == s[1];
        assert IsSentenceEnd(y, 0) == IsSentenceEnd(s, 0);
        CollapseBlankRunsEnds(s[1..]);
      }
    }
  }

  // ---------------------------------------------------------------------------
  // Paragraph breaks survive the collapse
  // ---------------------------------------------------------------------------

  /**
   * Paragraph breaks read left to right: `k` is the number of line feeds (at
   * most 2) of the whitespace run the text continues, and a break is counted
   * at the second line feed of a run.
   */
  function BreaksFrom(s: string, k: nat): nat
    requires k <= 2
  {
    if s == [] then 0
    else if !IsSpace(s[0]) then BreaksFrom(s[1..], 0)
    else if s[0] == '\n' then (if k == 1 then 1 else 0) + BreaksFrom(s[1..], if k == 2 then 2 else k + 1)
    else BreaksFrom(s[1..], k)
  }

  /** Scanning a whitespace run `t[j..e]` counts one break when it brings the run to two line feeds. */
  lemma {:induction false} RunScan(t: string, j: nat, e: nat, k: nat)
    requires j <= e <= |t| && k <= 2
    requires forall m :: j <= m < e ==> IsSpace(t[m])
    requires e == |t| || !IsSpace(t[e])
    ensures BreaksFrom(t[j..], k) ==
              (if k <= 1 && k + LfsIn(t, j, e) >= 2 then 1 else 0) + BreaksFrom(t[e..], 0)
    decreases e - j
  {
    if j == e {
      if e < |t| {
        assert t[e..][1..] == t[e + 1..];
      }
    } else {
      assert t[j..][0] == t[j] && t[j..][1..] == t[j + 1..];
      var k' := if t[j] == '\n' then (if k == 2 then 2 else k + 1) else k;
      RunScan(t, j + 1, e, k');
    }
  }

  lemma {:induction false} ParagraphBreaksScan(t: string, i: nat)
    requires i <= |t|
    ensures ParagraphBreaks(t, i) == BreaksFrom(t[i..], 0)
    decreases |t| - i
  {
    if i < |t| {
      if !IsSpace(t[i]) {
        assert t[i..][0] == t[i] && t[i..][1..] == t[i + 1..];
        ParagraphBreaksScan(t, i + 1);
      } else {
        var e := SpaceRunEnd(t, i);
        RunScan(t, i, e, 0);
        ParagraphBreaksScan(t, e);
      }
    }
  }

  /** Two or more line feeds in a row leave the scan in the same state, whatever their number. */
  lemma {:induction false} ScanLfs(s: string, n: nat, k: nat)
    requires 2 <= n <= |s| && k <= 2
    requires forall i :: 0 <= i < n ==> s[i] == '\n'
    ensures BreaksFrom(s, k) == (if k <= 1 then 1 else 0) + BreaksFrom(s[n..], 2)
    decreases n
  {
    var k' := if k == 2 then 2 else k + 1;
    assert s[1..][n - 1..] == s[n..];
    if n == 2 {
      assert s[1..][0] == '\n' && s[1..][1..] == s[2..];
    } else {
      ScanLfs(s[1..], n - 1, k');
    }
  }

  lemma {:induction false} CollapseBlankRunsBreaks(s: string, k: nat)
    requires k <= 2
    ensures BreaksFrom(CollapseBlankRuns(s), k) == BreaksFrom(s, k)
    decreases |s|
  {
    if s != [] {
      var n := LfRun(s);
      if n >= 3 {
        var x := CollapseBlankRuns(s[n..]);
        ScanLfs(s, n, k);
        ScanLfs("\n\n" + x, 2, k);
        assert ("\n\n" + x)[2..] == x;
        CollapseBlankRunsBreaks(s[n..], 2);
      } else {
        var x := CollapseBlankRuns(s[1..]);
        var y := [s[0]] + x;
        assert y[0] == s[0] && y[1..] == x;
        var k' := if !IsSpace(s[0]) then 0 else if s[0] == '\n' then (if k == 2 then 2 else k + 1) else k;
        CollapseBlankRunsBreaks(s[1..], k');
      }
    }
  }

  // ---------------------------------------------------------------------------
  // The statistics of twice-normalised text
  // ---------------------------------------------------------------------------

  /**
   * Normalising a second time changes none of the statistics: the words are
   * the same, and so are the sentence ends and the paragraph breaks.
   */
  lemma RenormalizeKeepsStats(x: string)
    ensures ComputeStats(NormalizeContent(NormalizeContent(x))) == ComputeStats(NormalizeContent(x))
  {
    var r := NormalizeContent(x);
    NormalizeShape(x);
    RenormalizeIsCollapse(r);
    var c := CollapseBlankRuns(r);
    StatsIgnoreNormalization(r);
    SentenceEndsFromSuffix(r, 0);
    SentenceEndsFromSuffix(c, 0);
    assert r[0..] == r && c[0..] == c;
    CollapseBlankRunsEnds(r);
    ParagraphsAgree(r);
  }

  lemma ParagraphsAgree(r: string)
    requires '\r' !in r && Trimmed(r)
    ensures CountParagraphs(CollapseBlankRuns(r)) == CountParagraphs(r)
  {
    if AllSpace(r) {
      ParagraphsAgreeBlank(r);
    } else {
      ParagraphsAgreeWords(r);
    }
  }

  lemma ParagraphsAgreeBlank(r: string)
    requires AllSpace(r)
    ensures CountParagraphs(CollapseBlankRuns(r)) == 0 == CountParagraphs(r)
  {
    CollapseKeepsBlank(r);
    CountParagraphsPositive(r);
    CountParagraphsPositive(CollapseBlankRuns(r));
  }

  lemma ParagraphsAgreeWords(r: string)
    requires '\r' !in r && Trimmed(r) && !AllSpace(r)
    ensures CountParagraphs(CollapseBlankRuns(r)) == CountParagraphs(r)
  {
    ParagraphsOfClean(r);
    ParagraphsOfCollapsed(r);
  }

  lemma ParagraphsOfCollapsed(r: string)
    requires '\r' !in r && Trimmed(r) && !AllSpace(r)
    ensures CountParagraphs(CollapseBlankRuns(r)) == 1 + BreaksFrom(r, 0)
  {
    CollapseKeepsClean(r);
    ParagraphsOfClean(CollapseBlankRuns(r));
    CollapseBlankRunsBreaks(r, 0);
  }

  lemma CollapseKeepsClean(r: string)
    requires '\r' !in r && Trimmed(r) && !AllSpace(r)
    ensures '\r' !in CollapseBlankRuns(r) && Trimmed(CollapseBlankRuns(r)) && !AllSpace(CollapseBlankRuns(r))
  {
    CollapseKeepsBlank(r);
    CollapseBlankRunsTrimmed(r);
  }

  /** Collapsing blank runs leaves blank text blank and other text not blank. */
  lemma CollapseKeepsBlank(r: string)
    ensures AllSpace(CollapseBlankRuns(r)) <==> AllSpace(r)
  {
    CollapseBlankRunsSameWords(r);
    CountWordsIsTokens(r);
    CountWordsIsTokens(CollapseBlankRuns(r));
  }

  /** Text without carriage returns and trimmed: one paragraph more than its breaks, read by the scan. */
  lemma ParagraphsOfClean(r: string)
    requires '\r' !in r && Trimmed(r) && !AllSpace(r)
    ensures CountParagraphs(r) == 1 + BreaksFrom(r, 0)
  {
    CountParagraphsIsBreaks(r);
    CrLfToLfNoCr(r);
    CrToLfNoCr(r);
    TrimOfTrimmed(r);
    ParagraphBreaksScan(r, 0);
    assert r[0..] == r;
  }
}
