/**
 * `TextAnalyzerEntity.countParagraphs`
 * (backend/src/modules/text-analyzer/domain/entities/text.entity.ts).
 *
 * The source splits the text with `split(/\n\s*\n+/)` and counts the pieces
 * that are not blank. The split is modelled as the scan JavaScript performs:
 * at each index it tries to match the regular expression there, and after a
 * match it resumes at the end of that match. The regular expression is
 * modelled through its backtracking: `\s*` first takes the whole whitespace
 * run after the first line feed and then gives characters back until `\n+`
 * can match, so a match that starts at a line feed ends just after the last
 * line feed of the whitespace run that follows it.
 *
 * `ParagraphBreaks` is an independent definition of what the split finds
 * (maximal whitespace gaps holding at least two line feeds), and
 * `CountParagraphsIsBreaks` proves that the count is one more than the
 * number of such gaps.
 */
module Paragraphs {
  import opened Wrappers
  import opened Whitespace
  import opened TextUtils
  import NormalizeProperties

  // ---------------------------------------------------------------------------
  // The regular expression /\n\s*\n+/
  // ---------------------------------------------------------------------------

  /** End of the whitespace run that starts at index `i`. */
  function SpaceRunEnd(t: string, i: nat): (e: nat)
    requires i <= |t|
    ensures i <= e <= |t|
    ensures forall k :: i <= k < e ==> IsSpace(t[k])
    ensures e < |t| ==> !IsSpace(t[e])
    decreases |t| - i
  {
    if i == |t| || !IsSpace(t[i]) then i else SpaceRunEnd(t, i + 1)
  }

  /** The last line feed in `t[lo..hi]`, looked for from the right as backtracking does. */
  function LastLfIn(t: string, lo: nat, hi: nat): (j: Option<nat>)
    requires lo <= hi <= |t|
    ensures j.Some? ==> lo <= j.value < hi && t[j.value] == '\n'
    ensures j.Some? ==> forall k :: j.value < k < hi ==> t[k] != '\n'
    ensures j.None? ==> forall k :: lo <= k < hi ==> t[k] != '\n'
    decreases hi - lo
  {
    if hi == lo then None
    else if t[hi - 1] == '\n' then Some(hi - 1)
    else LastLfIn(t, lo, hi - 1)
  }

  /**
   * The end of the match of `/\n\s*\n+/` that starts at index `q`, or `None`
   * when the regular expression does not match there.
   */
  function SepAt(t: string, q: nat): (e: Option<nat>)
    requires q < |t|
    ensures e.Some? ==> q + 2 <= e.value <= |t|
  {
    if t[q] != '\n' then None
    else
      match LastLfIn(t, q + 1, SpaceRunEnd(t, q + 1))
      case None => None
      case Some(j) => Some(j + 1)
  }

  /**
   * `t.split(/\n\s*\n+/)`: the piece being built starts at `p` and the scan
   * is at `q`.
   */
  function SplitFrom(t: string, p: nat, q: nat): (pieces: seq<string>)
    requires p <= q <= |t|
    ensures |pieces| >= 1
    decreases |t| - q
  {
    if q == |t| then [t[p..]]
    else
      match SepAt(t, q)
      case None => SplitFrom(t, p, q + 1)
      case Some(e) => [t[p..q]] + SplitFrom(t, e, e)
  }

  /** `paragraphs.filter((p) => p.trim().length > 0)`. */
  function NonBlank(ps: seq<string>): (r: seq<string>)
    ensures |r| <= |ps|
    ensures forall i :: 0 <= i < |r| ==> Trim(r[i]) != []
  {
    if ps == [] then []
    else if Trim(ps[0]) == [] then NonBlank(ps[1..])
    else [ps[0]] + NonBlank(ps[1..])
  }

  /**
   * `countParagraphs`: 0 for blank text; otherwise line endings become line
   * feeds, the text is trimmed, split at paragraph separators and the
   * non-blank pieces are counted.
   */
  function CountParagraphs(text: string): nat {
    if Trim(text) == [] then 0
    else |NonBlank(SplitFrom(Trim(CrToLf(CrLfToLf(text))), 0, 0))|
  }

  // ---------------------------------------------------------------------------
  // Reference definition: paragraph breaks
  // ---------------------------------------------------------------------------

  /** Number of line feeds in `t[a..b]`. */
  function LfsIn(t: string, a: nat, b: nat): nat
    requires b <= |t|
    decreases b - a
  {
    if a >= b then 0 else (if t[a] == '\n' then 1 else 0) + LfsIn(t, a + 1, b)
  }

  /**
   * Number of paragraph breaks in `t[i..]`: maximal runs of whitespace that
   * hold at least two line feeds (the part of a run before `i` is ignored).
   */
  function ParagraphBreaks(t: string, i: nat): nat
    requires i <= |t|
    decreases |t| - i
  {
    if i == |t| then 0
    else if !IsSpace(t[i]) then ParagraphBreaks(t, i + 1)
    else
      var e := SpaceRunEnd(t, i);
      (if LfsIn(t, i, e) >= 2 then 1 else 0) + ParagraphBreaks(t, e)
  }

  // ---------------------------------------------------------------------------
  // The split finds exactly the paragraph breaks
  // ---------------------------------------------------------------------------

  /** Number of separators the split finds from index `q` on. */
  function SepCount(t: string, q: nat): nat
    requires q <= |t|
    decreases |t| - q
  {
    if q == |t| then 0
    else
      match SepAt(t, q)
      case None => SepCount(t, q + 1)
      case Some(e) => 1 + SepCount(t, e)
  }

  lemma {:induction false} SplitFromCount(t: string, p: nat, q: nat)
    requires p <= q <= |t|
    ensures |SplitFrom(t, p, q)| == 1 + SepCount(t, q)
    decreases |t| - q
  {
    if q < |t| {
      match SepAt(t, q)
      case None => SplitFromCount(t, p, q + 1);
      case Some(e) => SplitFromCount(t, e, e);
    }
  }

  lemma {:induction false} SpaceRunEndMid(t: string, i: nat, k: nat)
    requires i <= |t| && i <= k <= SpaceRunEnd(t, i)
    ensures SpaceRunEnd(t, k) == SpaceRunEnd(t, i)
    decreases k - i
  {
    if i < k {
      SpaceRunEndMid(t, i + 1, k);
    }
  }

  lemma {:induction false} LfsInNone(t: string, a: nat, b: nat)
    requires a <= b <= |t|
    requires forall k :: a <= k < b ==> t[k] != '\n'
    ensures LfsIn(t, a, b) == 0
    decreases b - a
  {
    if a < b {
      LfsInNone(t, a + 1, b);
    }
  }

  lemma {:induction false} LfsInSome(t: string, a: nat, b: nat, j: nat)
    requires a <= j < b <= |t| && t[j] == '\n'
    ensures LfsIn(t, a, b) >= 1
    decreases j - a
  {
    if a < j {
      LfsInSome(t, a + 1, b, j);
    }
  }

  /**
   * Scanning through a whitespace run finds one separator when the rest of
   * the run holds two line feeds or more, and none otherwise.
   */
  lemma {:induction false} SepCountRun(t: string, q: nat)
    requires q <= |t|
    ensures SepCount(t, q) ==
            (if LfsIn(t, q, SpaceRunEnd(t, q)) >= 2 then 1 else 0) + SepCount(t, SpaceRunEnd(t, q))
    decreases SpaceRunEnd(t, q) - q, 1
  {
    var e := SpaceRunEnd(t, q);
    if q < e {
      SpaceRunEndMid(t, q, q + 1);
      if t[q] != '\n' {
        SepCountRun(t, q + 1);
      } else {
        SepCountRunAtLf(t, q);
      }
    }
  }

  /** The run starts with a line feed: the split matches there exactly when another follows in the run. */
  lemma {:induction false} SepCountRunAtLf(t: string, q: nat)
    requires q <= |t| && q < SpaceRunEnd(t, q) && t[q] == '\n'
    ensures SepCount(t, q) ==
            (if LfsIn(t, q, SpaceRunEnd(t, q)) >= 2 then 1 else 0) + SepCount(t, SpaceRunEnd(t, q))
    decreases SpaceRunEnd(t, q) - q, 0
  {
    var e := SpaceRunEnd(t, q);
    SpaceRunEndMid(t, q, q + 1);
    assert LfsIn(t, q, e) == 1 + LfsIn(t, q + 1, e);
    match LastLfIn(t, q + 1, e)
    case None =>
      assert SepAt(t, q) == None;
      LfsInNone(t, q + 1, e);
      SepCountRun(t, q + 1);
    case Some(j) =>
      assert SepAt(t, q) == Some(j + 1);
      assert SepCount(t, q) == 1 + SepCount(t, j + 1);
      LfsInSome(t, q + 1, e, j);
      SpaceRunEndMid(t, q, j + 1);
      LfsInNone(t, j + 1, e);
      SepCountRun(t, j + 1);
  }

  lemma {:induction false} SepCountIsBreaks(t: string, q: nat)
    requires q <= |t|
    ensures SepCount(t, q) == ParagraphBreaks(t, q)
    decreases |t| - q
  {
    if q < |t| {
      if !IsSpace(t[q]) {
        SepCountIsBreaks(t, q + 1);
      } else {
        SepCountRun(t, q);
        SepCountIsBreaks(t, SpaceRunEnd(t, q));
      }
    }
  }

  // ---------------------------------------------------------------------------
  // On trimmed text no piece is blank
  // ---------------------------------------------------------------------------

  lemma LastIsWord(t: string, i: nat)
    requires Trimmed(t) && i < |t|
    ensures SpaceRunEnd(t, i) < |t|
  {
    assert !IsSpace(t[|t| - 1]);
  }

  lemma SliceHasWord(t: string, p: nat, q: nat, w: nat)
    requires p <= w < q <= |t| && !IsSpace(t[w])
    ensures Trim(t[p..q]) != []
  {
    assert t[p..q][w - p] == t[w];
  }

  /**
   * A separator found while building the piece that starts at `p` lies past
   * the first word of that piece, and the next piece starts with whitespace
   * that holds no line feed, followed by a word.
   */
  lemma SeparatorAfterWord(t: string, p: nat, q: nat, e: nat)
    requires Trimmed(t) && p <= q < |t|
    requires forall k :: p <= k < SpaceRunEnd(t, p) ==> t[k] != '\n'
    requires SepAt(t, q) == Some(e)
    ensures SpaceRunEnd(t, p) < q
    ensures e < |t|
    ensures forall k :: e <= k < SpaceRunEnd(t, e) ==> t[k] != '\n'
  {
    LastIsWord(t, p);
    assert t[q] == '\n';
    LastIsWord(t, q + 1);
    SpaceRunEndMid(t, q + 1, e);
  }

  /** No piece is blank: `p.trim().length > 0` holds for all of them. */
  predicate NoBlankPiece(ps: seq<string>) {
    forall i :: 0 <= i < |ps| ==> Trim(ps[i]) != []
  }

  lemma NoBlankPieceCons(x: string, ps: seq<string>)
    requires Trim(x) != [] && NoBlankPiece(ps)
    ensures NoBlankPiece([x] + ps)
  {
    forall i | 0 <= i < |[x] + ps| ensures Trim(([x] + ps)[i]) != [] {
      if i > 0 {
        assert ([x] + ps)[i] == ps[i - 1];
      }
    }
  }

  lemma PiecesAtSeparator(t: string, p: nat, q: nat, e: nat)
    requires Trimmed(t) && p <= q < |t|
    requires forall k :: p <= k < SpaceRunEnd(t, p) ==> t[k] != '\n'
    requires SepAt(t, q) == Some(e)
    requires NoBlankPiece(SplitFrom(t, e, e))
    ensures NoBlankPiece(SplitFrom(t, p, q))
  {
    SeparatorAfterWord(t, p, q, e);
    SliceHasWord(t, p, q, SpaceRunEnd(t, p));
    assert SplitFrom(t, p, q) == [t[p..q]] + SplitFrom(t, e, e);
    NoBlankPieceCons(t[p..q], SplitFrom(t, e, e));
  }

  lemma PiecesAtEnd(t: string, p: nat)
    requires Trimmed(t) && p < |t|
    ensures NoBlankPiece(SplitFrom(t, p, |t|))
  {
    LastIsWord(t, p);
    SliceHasWord(t, p, |t|, SpaceRunEnd(t, p));
    assert t[p..] == t[p..|t|];
  }

  lemma PiecesSkip(t: string, p: nat, q: nat)
    requires p <= q < |t| && SepAt(t, q).None?
    requires NoBlankPiece(SplitFrom(t, p, q + 1))
    ensures NoBlankPiece(SplitFrom(t, p, q))
  {
    assert SplitFrom(t, p, q) == SplitFrom(t, p, q + 1);
  }

  /**
   * When the text is trimmed, and the whitespace at the start of the piece
   * being built holds no line feed, every piece the split produces holds a
   * non-whitespace character.
   */
  lemma {:induction false} PiecesNonBlank(t: string, p: nat, q: nat)
    requires Trimmed(t) && p <= q <= |t| && p < |t|
    requires forall k :: p <= k < SpaceRunEnd(t, p) ==> t[k] != '\n'
    ensures NoBlankPiece(SplitFrom(t, p, q))
    decreases |t| - q
  {
    if q == |t| {
      PiecesAtEnd(t, p);
    } else if SepAt(t, q).None? {
      PiecesNonBlank(t, p, q + 1);
      PiecesSkip(t, p, q);
    } else {
      var e := SepAt(t, q).value;
      SeparatorAfterWord(t, p, q, e);
      PiecesNonBlank(t, e, e);
      PiecesAtSeparator(t, p, q, e);
    }
  }

  lemma {:induction false} NonBlankOfNonBlank(ps: seq<string>)
    requires NoBlankPiece(ps)
    ensures NonBlank(ps) == ps
    decreases |ps|
  {
    if ps != [] {
      NonBlankOfNonBlank(ps[1..]);
    }
  }

  lemma {:induction false} TokensNotEmpty(s: string)
    requires !AllSpace(s)
    ensures Tokens(s) != []
    decreases |s|
  {
    if IsSpace(s[0]) {
      assert !AllSpace(s[1..]) by {
        var k :| 0 <= k < |s| && !IsSpace(s[k]);
        assert s[1..][k - 1] == s[k];
      }
      TokensNotEmpty(s[1..]);
    }
  }

  /**
   * Blank text has no paragraph; any other text has one paragraph more than
   * it has paragraph breaks, once carriage returns are line feeds and the
   * ends are trimmed.
   */
  lemma CountParagraphsIsBreaks(text: string)
    ensures AllSpace(text) ==> CountParagraphs(text) == 0
    ensures !AllSpace(text) ==>
              CountParagraphs(text) == 1 + ParagraphBreaks(Trim(CrToLf(CrLfToLf(text))), 0)
  {
    if !AllSpace(text) {
      var s := CrToLf(CrLfToLf(text));
      var t := Trim(s);
      NormalizeProperties.CrLfToLfSameWords(text);
      NormalizeProperties.CrToLfSameWords(CrLfToLf(text));
      TokensNotEmpty(text);
      if AllSpace(s) {
        TokensOfSpaces(s);
      }
      assert t != [];
      assert SpaceRunEnd(t, 0) == 0;
      PiecesNonBlank(t, 0, 0);
      NonBlankOfNonBlank(SplitFrom(t, 0, 0));
      SplitFromCount(t, 0, 0);
      SepCountIsBreaks(t, 0);
    }
  }

  /** Text that is not blank has at least one paragraph; blank text has none. */
  lemma CountParagraphsPositive(text: string)
    ensures CountParagraphs(text) == 0 <==> AllSpace(text)
  {
    CountParagraphsIsBreaks(text);
  }
}
