/**
 * What `TextUtils.normalizeContent` guarantees about its result, and how
 * far it is from being idempotent.
 */
module NormalizeProperties {
  import opened Whitespace
  import opened TextUtils

  // ---------------------------------------------------------------------------
  // Normalisation never changes the words
  // ---------------------------------------------------------------------------

  lemma {:induction false} CrLfToLfSameWords(s: string)
    ensures SameWords(CrLfToLf(s), s)
    decreases |s|
  {
    if s == [] {
    } else if |s| >= 2 && s[0] == '\r' && s[1] == '\n' {
      CrLfToLfSameWords(s[2..]);
      assert s == "\r\n" + s[2..];
      SameWordsAfterSpaces("\n", CrLfToLf(s[2..]), "\r\n", s[2..]);
    } else {
      CrLfToLfSameWords(s[1..]);
      assert s == [s[0]] + s[1..];
      SameWordsCons(s[0], CrLfToLf(s[1..]), s[1..]);
    }
  }

  lemma {:induction false} CrToLfSameWords(s: string)
    ensures SameWords(CrToLf(s), s)
    decreases |s|
  {
    if s == [] {
    } else if s[0] == '\r' {
      CrToLfSameWords(s[1..]);
      assert s == "\r" + s[1..];
      SameWordsAfterSpaces("\n", CrToLf(s[1..]), "\r", s[1..]);
    } else {
      CrToLfSameWords(s[1..]);
      assert s == [s[0]] + s[1..];
      SameWordsCons(s[0], CrToLf(s[1..]), s[1..]);
    }
  }

  lemma {:induction false} CollapseBlankRunsSameWords(s: string)
    ensures SameWords(CollapseBlankRuns(s), s)
    decreases |s|
  {
    if s != [] {
      var n := LfRun(s);
      if n >= 3 {
        CollapseBlankRunsSameWords(s[n..]);
        assert s == s[..n] + s[n..];
        assert AllSpace(s[..n]) by {
          forall i | 0 <= i < n ensures IsSpace(s[..n][i]) { assert s[i] == '\n'; }
        }
        SameWordsAfterSpaces("\n\n", CollapseBlankRuns(s[n..]), s[..n], s[n..]);
      } else {
        CollapseBlankRunsSameWords(s[1..]);
        assert s == [s[0]] + s[1..];
        SameWordsCons(s[0], CollapseBlankRuns(s[1..]), s[1..]);
      }
    }
  }

  lemma {:induction false} CollapseSpacesSameWords(s: string)
    ensures SameWords(CollapseSpaces(s), s)
    decreases |s|
  {
    if s != [] {
      var n := LeadingSpaces(s);
      if n >= 2 {
        CollapseSpacesSameWords(s[n..]);
        assert s == s[..n] + s[n..];
        SameWordsAfterSpaces(" ", CollapseSpaces(s[n..]), s[..n], s[n..]);
      } else {
        CollapseSpacesSameWords(s[1..]);
        assert s == [s[0]] + s[1..];
        SameWordsCons(s[0], CollapseSpaces(s[1..]), s[1..]);
      }
    }
  }

  lemma TidyLineTokens(line: string)
    ensures Tokens(TidyLine(line)) == Tokens(line)
  {
    CollapseSpacesSameWords(line);
    TokensOfTrim(CollapseSpaces(line));
  }

  /** A line feed between two texts keeps their tokens apart. */
  lemma TokensAroundLf(a: string, b: string)
    ensures Tokens(a + "\n" + b) == Tokens(a) + Tokens(b)
  {
    assert a + "\n" + b == a + ("\n" + b);
    TokensAppend(a, "\n" + b);
    TokensAfterSpaces("\n", b);
  }

  lemma {:induction false} TidyLinesTokens(ls: seq<string>)
    ensures Tokens(JoinLines(TidyLines(ls))) == Tokens(JoinLines(ls))
    decreases |ls|
  {
    if |ls| == 1 {
      TidyLineTokens(ls[0]);
    } else if |ls| >= 2 {
      var tidy := TidyLines(ls);
      assert tidy[1..] == TidyLines(ls[1..]);
      TidyLinesTokens(ls[1..]);
      TidyLineTokens(ls[0]);
      TokensAroundLf(tidy[0], JoinLines(tidy[1..]));
      TokensAroundLf(ls[0], JoinLines(ls[1..]));
    }
  }

  /** Splitting on line feeds and joining again gives back the text. */
  lemma {:induction false} JoinSplitLines(s: string)
    ensures JoinLines(SplitLines(s)) == s
    decreases |s|
  {
    var k := IndexOfLf(s);
    if k < |s| {
      var rest := SplitLines(s[k + 1..]);
      assert SplitLines(s) == [s[..k]] + rest;
      JoinSplitLines(s[k + 1..]);
      JoinLinesCons(s[..k], rest);
      SplitAtLf(s, k);
    }
  }

  lemma SplitAtLf(s: string, k: nat)
    requires k < |s| && s[k] == '\n'
    ensures s == s[..k] + "\n" + s[k + 1..]
  {
  }

  lemma JoinLinesCons(l: string, rest: seq<string>)
    requires |rest| >= 1
    ensures JoinLines([l] + rest) == l + "\n" + JoinLines(rest)
  {
    assert ([l] + rest)[1..] == rest;
  }

  /**
   * Normalisation keeps every word and the order of the words: it only
   * rewrites, shortens or removes whitespace.
   */
  lemma NormalizePreservesTokens(x: string)
    ensures Tokens(NormalizeContent(x)) == Tokens(x)
  {
    if x != [] {
      var a := CrLfToLf(x);
      var b := CrToLf(a);
      var c := CollapseBlankRuns(b);
      var ls := SplitLines(c);
      CrLfToLfSameWords(x);
      CrToLfSameWords(a);
      CollapseBlankRunsSameWords(b);
      JoinSplitLines(c);
      TidyLinesTokens(ls);
      TokensOfTrim(JoinLines(TidyLines(ls)));
    }
  }

  // ---------------------------------------------------------------------------
  // Shape of the result: every line is tidy
  // ---------------------------------------------------------------------------

  /**
   * Every whitespace character other than a line feed sits between two
   * non-whitespace characters: read line by line, no line starts or ends
   * with whitespace or holds two whitespace characters in a row.
   */
  predicate LinesTidy(r: string) {
    forall i :: 0 <= i < |r| && IsSpace(r[i]) && r[i] != '\n' ==>
      0 < i < |r| - 1 && !IsSpace(r[i - 1]) && !IsSpace(r[i + 1])
  }

  lemma LineTidyIsLinesTidy(l: string)
    requires LineTidy(l)
    ensures LinesTidy(l)
  {
    forall i | 0 <= i < |l| && IsSpace(l[i]) && l[i] != '\n'
      ensures 0 < i < |l| - 1 && !IsSpace(l[i - 1]) && !IsSpace(l[i + 1])
    {
      assert i != 0 && i != |l| - 1;
      assert !IsSpace(l[i]) || !IsSpace(l[i - 1]);
      assert !IsSpace(l[i]) || !IsSpace(l[i + 1]);
    }
  }

  lemma {:induction false} JoinLinesTidy(ls: seq<string>)
    requires forall i :: 0 <= i < |ls| ==> LineTidy(ls[i]) && '\n' !in ls[i]
    ensures LinesTidy(JoinLines(ls))
    decreases |ls|
  {
    if |ls| == 1 {
      LineTidyIsLinesTidy(ls[0]);
    } else if |ls| >= 2 {
      var l := ls[0];
      var rest := JoinLines(ls[1..]);
      JoinLinesTidy(ls[1..]);
      LineTidyIsLinesTidy(l);
      var j := l + "\n" + rest;
      forall i | 0 <= i < |j| && IsSpace(j[i]) && j[i] != '\n'
        ensures 0 < i < |j| - 1 && !IsSpace(j[i - 1]) && !IsSpace(j[i + 1])
      {
        if i < |l| {
          assert j[i] == l[i] && j[i - 1] == l[i - 1] && j[i + 1] == l[i + 1];
        } else {
          assert i != |l|;
          var k := i - |l| - 1;
          assert j[i] == rest[k];
          assert j[i - 1] == rest[k - 1] && j[i + 1] == rest[k + 1];
        }
      }
    }
  }

  lemma LinesTidyTrim(x: string)
    requires LinesTidy(x)
    ensures LinesTidy(Trim(x))
  {
    var lo, hi := TrimSlice(x);
    var r := Trim(x);
    forall i | 0 <= i < |r| && IsSpace(r[i]) && r[i] != '\n'
      ensures 0 < i < |r| - 1 && !IsSpace(r[i - 1]) && !IsSpace(r[i + 1])
    {
      assert r[i] == x[lo + i];
      assert i != 0 && i != |r| - 1;
      assert r[i - 1] == x[lo + i - 1] && r[i + 1] == x[lo + i + 1];
    }
  }

  /** The first line of a text with tidy lines is tidy. */
  lemma LinesTidyFirstLine(x: string)
    requires LinesTidy(x)
    ensures LineTidy(x[..IndexOfLf(x)])
  {
    var k := IndexOfLf(x);
    var line := x[..k];
    forall i | 0 <= i < |line| - 1 ensures !IsSpace(line[i]) || !IsSpace(line[i + 1]) {
      assert line[i] == x[i] && line[i + 1] == x[i + 1];
      assert line[i] in line;
    }
    if line != [] {
      assert line[0] == x[0] && line[0] in line;
      assert line[|line| - 1] == x[k - 1] && line[|line| - 1] in line;
    }
  }

  /** What follows the first line feed of a text with tidy lines still has tidy lines. */
  lemma LinesTidyAfterLf(x: string, k: nat)
    requires LinesTidy(x)
    requires k < |x| && x[k] == '\n'
    ensures LinesTidy(x[k + 1..])
  {
    var rest := x[k + 1..];
    forall j | 0 <= j < |rest| && IsSpace(rest[j]) && rest[j] != '\n'
      ensures 0 < j < |rest| - 1 && !IsSpace(rest[j - 1]) && !IsSpace(rest[j + 1])
    {
      assert rest[j] == x[k + 1 + j];
      assert j != 0;
      assert rest[j - 1] == x[k + j] && rest[j + 1] == x[k + 2 + j];
    }
  }

  lemma {:induction false} LinesTidySplit(x: string)
    requires LinesTidy(x)
    ensures forall i :: 0 <= i < |SplitLines(x)| ==> LineTidy(SplitLines(x)[i])
    decreases |x|
  {
    var k := IndexOfLf(x);
    LinesTidyFirstLine(x);
    if k < |x| {
      LinesTidyAfterLf(x, k);
      LinesTidySplit(x[k + 1..]);
      assert SplitLines(x) == [x[..k]] + SplitLines(x[k + 1..]);
    }
  }

  /** Tidying lines that hold no line feed gives tidy lines without line feeds. */
  lemma TidyLinesClean(ls: seq<string>)
    requires forall i :: 0 <= i < |ls| ==> '\n' !in ls[i]
    ensures forall i :: 0 <= i < |TidyLines(ls)| ==>
              LineTidy(TidyLines(ls)[i]) && '\n' !in TidyLines(ls)[i]
  {
    var tidy := TidyLines(ls);
    forall i | 0 <= i < |tidy| ensures LineTidy(tidy[i]) && '\n' !in tidy[i] {
      assert tidy[i] == TidyLine(ls[i]);
      assert forall ch :: ch in tidy[i] ==> ch in ls[i] || ch == ' ';
    }
  }

  lemma JoinTidyLinesTidy(ls: seq<string>)
    requires forall i :: 0 <= i < |ls| ==> '\n' !in ls[i]
    ensures LinesTidy(JoinLines(TidyLines(ls)))
  {
    TidyLinesClean(ls);
    JoinLinesTidy(TidyLines(ls));
  }

  lemma NormalizeLinesTidy(x: string)
    ensures LinesTidy(NormalizeContent(x))
  {
    if x != [] {
      var c := CollapseBlankRuns(CrToLf(CrLfToLf(x)));
      var ls := SplitLines(c);
      SplitLinesChars(c);
      JoinTidyLinesTidy(ls);
      LinesTidyTrim(JoinLines(TidyLines(ls)));
    }
  }

  /**
   * The result of `normalizeContent` holds no carriage return, has no
   * whitespace at either end, and each of its lines is tidy: no whitespace
   * at either end of the line and no two whitespace characters in a row.
   */
  lemma NormalizeShape(x: string)
    ensures '\r' !in NormalizeContent(x)
    ensures Trimmed(NormalizeContent(x))
    ensures LinesTidy(NormalizeContent(x))
    ensures forall i :: 0 <= i < |SplitLines(NormalizeContent(x))| ==>
              LineTidy(SplitLines(NormalizeContent(x))[i])
  {
    NormalizeLinesTidy(x);
    LinesTidySplit(NormalizeContent(x));
  }

  // ---------------------------------------------------------------------------
  // When normalising twice changes nothing
  // ---------------------------------------------------------------------------

  lemma {:induction false} CrLfToLfNoCr(s: string)
    requires '\r' !in s
    ensures CrLfToLf(s) == s
    decreases |s|
  {
    if s != [] {
      assert s[0] in s;
      CrLfToLfNoCr(s[1..]);
      assert s == [s[0]] + s[1..];
    }
  }

  lemma {:induction false} CrToLfNoCr(s: string)
    requires '\r' !in s
    ensures CrToLf(s) == s
    decreases |s|
  {
    if s != [] {
      assert s[0] in s;
      CrToLfNoCr(s[1..]);
      assert s == [s[0]] + s[1..];
    }
  }

  lemma {:induction false} CollapseBlankRunsNoTriple(s: string)
    requires !HasTripleLf(s)
    ensures CollapseBlankRuns(s) == s
    decreases |s|
  {
    if s != [] {
      if |s| >= 3 {
        assert !(s[0] == '\n' && s[1] == '\n' && s[2] == '\n');
      }
      assert LfRun(s) < 3;
      assert !HasTripleLf(s[1..]) by {
        forall i | 0 <= i < |s[1..]| - 2
          ensures !(s[1..][i] == '\n' && s[1..][i + 1] == '\n' && s[1..][i + 2] == '\n')
        {
          assert s[1..][i] == s[i + 1] && s[1..][i + 1] == s[i + 2] && s[1..][i + 2] == s[i + 3];
        }
      }
      CollapseBlankRunsNoTriple(s[1..]);
      assert s == [s[0]] + s[1..];
    }
  }

  lemma {:induction false} CollapseSpacesTidy(s: string)
    requires NoDoubleSpace(s)
    ensures CollapseSpaces(s) == s
    decreases |s|
  {
    if s != [] {
      if |s| >= 2 && IsSpace(s[0]) {
        assert !IsSpace(s[1]);
        assert LeadingSpaces(s[1..]) == 0;
      }
      assert LeadingSpaces(s) < 2;
      CollapseSpacesTidy(s[1..]);
      assert s == [s[0]] + s[1..];
    }
  }

  lemma TidyLinesOfTidy(ls: seq<string>)
    requires forall i :: 0 <= i < |ls| ==> LineTidy(ls[i])
    ensures TidyLines(ls) == ls
  {
    forall i | 0 <= i < |ls| ensures TidyLines(ls)[i] == ls[i] {
      CollapseSpacesTidy(ls[i]);
      TrimOfTrimmed(ls[i]);
    }
  }

  /**
   * A text without carriage returns, trimmed, with tidy lines and no three
   * line feeds in a row is left exactly as it is.
   */
  lemma NormalizeFixedPoint(r: string)
    requires '\r' !in r && Trimmed(r) && LinesTidy(r) && !HasTripleLf(r)
    ensures NormalizeContent(r) == r
  {
    if r != [] {
      CrLfToLfNoCr(r);
      CrToLfNoCr(r);
      CollapseBlankRunsNoTriple(r);
      LinesTidySplit(r);
      TidyLinesOfTidy(SplitLines(r));
      JoinSplitLines(r);
      TrimOfTrimmed(r);
    }
  }

  lemma {:induction false} CollapseBlankRunsShrinks(s: string)
    requires HasTripleLf(s)
    ensures |CollapseBlankRuns(s)| < |s|
    decreases |s|
  {
    var n := LfRun(s);
    if n < 3 {
      var i :| 0 <= i < |s| - 2 && s[i] == '\n' && s[i + 1] == '\n' && s[i + 2] == '\n';
      assert i != 0;
      assert s[1..][i - 1] == '\n' && s[1..][i] == '\n' && s[1..][i + 1] == '\n';
      CollapseBlankRunsShrinks(s[1..]);
    }
  }

  lemma {:induction false} TidyLinesShorter(ls: seq<string>)
    ensures |JoinLines(TidyLines(ls))| <= |JoinLines(ls)|
    decreases |ls|
  {
    if |ls| >= 2 {
      assert TidyLines(ls)[1..] == TidyLines(ls[1..]);
      TidyLinesShorter(ls[1..]);
    }
  }

  lemma NormalizeShrinks(r: string)
    requires '\r' !in r && HasTripleLf(r)
    ensures |NormalizeContent(r)| < |r|
  {
    CrLfToLfNoCr(r);
    CrToLfNoCr(r);
    CollapseBlankRunsShrinks(r);
    var c := CollapseBlankRuns(r);
    JoinSplitLines(c);
    TidyLinesShorter(SplitLines(c));
  }

  /**
   * Normalising a second time changes nothing exactly when the first result
   * holds no three line feeds in a row. Such a run survives only from a
   * whitespace-only line between blank lines, which the first pass empties
   * after it has already collapsed the runs of line feeds.
   */
  lemma NormalizeIdempotentIff(x: string)
    ensures NormalizeContent(NormalizeContent(x)) == NormalizeContent(x)
            <==> !HasTripleLf(NormalizeContent(x))
  {
    var r := NormalizeContent(x);
    NormalizeShape(x);
    if HasTripleLf(r) {
      NormalizeShrinks(r);
    } else {
      NormalizeFixedPoint(r);
    }
  }

  lemma SplitLinesExample()
    ensures SplitLines("a\n \n\nb") == ["a", " ", "", "b"]
  {
    assert "a\n \n\nb" == "a" + "\n" + " \n\nb";
    SplitLinesExampleHead(" \n\nb");
  }

  lemma SplitLinesExampleHead(y: string)
    requires y == " \n\nb"
    ensures SplitLines("a" + "\n" + y) == ["a", " ", "", "b"]
  {
    SplitLinesCons("a", y);
    SplitLinesExampleTail(y);
  }

  lemma SplitLinesExampleTail(y: string)
    requires y == " \n\nb"
    ensures SplitLines(y) == [" ", "", "b"]
  {
    assert y == " " + "\n" + "\nb";
    SplitLinesCons(" ", "\nb");
    SplitLinesExampleEnd("\nb");
  }

  lemma SplitLinesExampleEnd(z: string)
    requires z == "\nb"
    ensures SplitLines(z) == ["", "b"]
  {
    assert z == "" + "\n" + "b";
    SplitLinesCons("", "b");
    assert IndexOfLf("b") == 1 by { assert "b"[1..] == []; }
  }

  /** A line without a line feed, a line feed, then the rest. */
  lemma SplitLinesCons(l: string, rest: string)
    requires '\n' !in l
    ensures SplitLines(l + "\n" + rest) == [l] + SplitLines(rest)
  {
    var s := l + "\n" + rest;
    assert s[..|l|] == l && s[|l| + 1..] == rest;
    SplitLinesStep(s, |l|);
  }

  /** The first line ends at the first line feed. */
  lemma SplitLinesStep(s: string, k: nat)
    requires k < |s| && s[k] == '\n' && '\n' !in s[..k]
    ensures SplitLines(s) == [s[..k]] + SplitLines(s[k + 1..])
  {
  }

  lemma TidyLineBlank()
    ensures TidyLine(" ") == []
  {
    assert LeadingSpaces(" ") == 1 by { assert " "[1..] == []; }
    assert CollapseSpaces(" ") == " " by { assert " "[1..] == []; }
    assert AllSpace(" ");
  }

  lemma TidyLineOfTidy(l: string)
    requires LineTidy(l)
    ensures TidyLine(l) == l
  {
    CollapseSpacesTidy(l);
    TrimOfTrimmed(l);
  }

  lemma TidyLinesPointwise(ls: seq<string>, out: seq<string>)
    requires |out| == |ls|
    requires forall i :: 0 <= i < |ls| ==> TidyLine(ls[i]) == out[i]
    ensures TidyLines(ls) == out
  {
  }

  lemma TidyLinesExample()
    ensures TidyLines(["a", " ", "", "b"]) == ["a", "", "", "b"]
  {
    var ls := ["a", " ", "", "b"];
    var out := ["a", "", "", "b"];
    forall i | 0 <= i < 4 ensures TidyLine(ls[i]) == out[i] {
      if i == 1 { TidyLineBlank(); } else { TidyLineOfTidy(ls[i]); }
    }
    TidyLinesPointwise(ls, out);
  }

  /** On text with no carriage return and no three line feeds in a row only the line step and the trim act. */
  lemma NormalizePlain(x: string)
    requires x != [] && '\r' !in x && !HasTripleLf(x)
    ensures NormalizeContent(x) == Trim(JoinLines(TidyLines(SplitLines(x))))
  {
    CrLfToLfNoCr(x);
    CrToLfNoCr(x);
    CollapseBlankRunsNoTriple(x);
  }

  lemma NoTripleLfExample()
    ensures !HasTripleLf("a\n \n\nb")
  {
    var x := "a\n \n\nb";
    forall i | 0 <= i < |x| - 2 ensures !(x[i] == '\n' && x[i + 1] == '\n' && x[i + 2] == '\n') {
      assert i <= 4;
    }
  }

  lemma JoinLinesExample()
    ensures JoinLines(["a", "", "", "b"]) == "a\n\n\nb"
  {
  }

  lemma NormalizeNotIdempotentValue()
    ensures NormalizeContent("a\n \n\nb") == "a\n\n\nb"
  {
    NoTripleLfExample();
    NormalizePlain("a\n \n\nb");
    SplitLinesExample();
    TidyLinesExample();
    JoinLinesExample();
    TrimOfTrimmed("a\n\n\nb");
  }

  lemma TripleLfExample()
    ensures HasTripleLf("a\n\n\nb")
  {
    var r := "a\n\n\nb";
    assert r[1] == '\n' && r[2] == '\n' && r[3] == '\n';
  }

  /**
   * Normalisation is not idempotent in general: a whitespace-only line next
   * to a blank line leaves three line feeds in a row after one pass, and the
   * second pass collapses them.
   */
  lemma NormalizeNotIdempotent()
    ensures NormalizeContent(NormalizeContent("a\n \n\nb")) != NormalizeContent("a\n \n\nb")
  {
    NormalizeNotIdempotentValue();
    TripleLfExample();
    NormalizeIdempotentIff("a\n \n\nb");
  }

  // ---------------------------------------------------------------------------
  // The cache key
  // ---------------------------------------------------------------------------

  /**
   * When the digest never produces a ':' (MD5 in hexadecimal does not), two
   * equal non-empty cache keys belong to the same user and the same hash:
   * one user's entry is never read for another user.
   */
  lemma CacheKeySeparatesUsers(digest: string -> string, u1: string, c1: string, u2: string, c2: string)
    requires ':' !in GenerateHash(digest, c1) && ':' !in GenerateHash(digest, c2)
    requires GenerateCacheKey(digest, u1, c1) == GenerateCacheKey(digest, u2, c2) != []
    ensures u1 == u2 && GenerateHash(digest, c1) == GenerateHash(digest, c2)
  {
    var h1, h2 := GenerateHash(digest, c1), GenerateHash(digest, c2);
    var key := GenerateCacheKey(digest, u1, c1);
    var p1 := KeyPrefix + u1 + ":";
    var p2 := KeyPrefix + u2 + ":";
    assert key == p1 + h1 && key == p2 + h2;
    forall j | |p1| <= j < |key| ensures key[j] != ':' {
      assert key[j] == h1[j - |p1|] && h1[j - |p1|] in h1;
    }
    forall j | |p2| <= j < |key| ensures key[j] != ':' {
      assert key[j] == h2[j - |p2|] && h2[j - |p2|] in h2;
    }
    assert key[|p1| - 1] == ':' && key[|p2| - 1] == ':';
    assert h1 == key[|p1|..] && h2 == key[|p2|..];
    assert p1 == key[..|p1|] && p2 == key[..|p2|];
    assert u1 == p1[|KeyPrefix|..|p1| - 1] && u2 == p2[|KeyPrefix|..|p2| - 1];
  }
}
