/**
 * Model of `TextUtils` (backend/src/common/utils/text-analysis.utils.ts):
 * content normalisation, the content hash and the cache key.
 *
 * Each regular-expression `replace` of `normalizeContent` is a scanning
 * function over the string; the MD5 digest is a parameter `digest` of the
 * functions that use it, so every property below holds whatever the digest is.
 */
module TextUtils {
  import opened Whitespace

  // ---------------------------------------------------------------------------
  // Step 1: line endings
  // ---------------------------------------------------------------------------

  /** `content.replace(/\r\n/g, '\n')`. */
  function CrLfToLf(s: string): (r: string)
    ensures |r| <= |s|
    decreases |s|
  {
    if s == [] then []
    else if |s| >= 2 && s[0] == '\r' && s[1] == '\n' then "\n" + CrLfToLf(s[2..])
    else [s[0]] + CrLfToLf(s[1..])
  }

  /** `.replace(/\r/g, '\n')`: every carriage return becomes a line feed. */
  function CrToLf(s: string): (r: string)
    ensures |r| == |s|
    ensures '\r' !in r
  {
    if s == [] then []
    else [if s[0] == '\r' then '\n' else s[0]] + CrToLf(s[1..])
  }

  // ---------------------------------------------------------------------------
  // Step 2: paragraph breaks
  // ---------------------------------------------------------------------------

  /** Length of the leading run of line feeds. */
  function LfRun(s: string): (n: nat)
    ensures n <= |s|
    ensures forall i :: 0 <= i < n ==> s[i] == '\n'
    ensures n < |s| ==> s[n] != '\n'
  {
    if s == [] || s[0] != '\n' then 0 else 1 + LfRun(s[1..])
  }

  /** `content.replace(/\n{3,}/g, '\n\n')`: a run of three or more line feeds becomes two. */
  function CollapseBlankRuns(s: string): (r: string)
    ensures |r| <= |s|
    ensures forall c :: c in r ==> c in s
    decreases |s|
  {
    if s == [] then []
    else
      var n := LfRun(s);
      if n >= 3 then
        assert s[0] in s;
        "\n\n" + CollapseBlankRuns(s[n..])
      else [s[0]] + CollapseBlankRuns(s[1..])
  }

  /** The string holds three line feeds in a row. */
  predicate HasTripleLf(s: string) {
    exists i :: 0 <= i < |s| - 2 && s[i] == '\n' && s[i + 1] == '\n' && s[i + 2] == '\n'
  }

  // ---------------------------------------------------------------------------
  // Step 3: whitespace inside each line
  // ---------------------------------------------------------------------------

  /** No two whitespace characters stand next to each other. */
  predicate NoDoubleSpace(s: string) {
    forall i :: 0 <= i < |s| - 1 ==> !IsSpace(s[i]) || !IsSpace(s[i + 1])
  }

  /** A line as `normalizeContent` leaves it: no double whitespace, none at either end. */
  predicate LineTidy(s: string) {
    Trimmed(s) && NoDoubleSpace(s)
  }

  /** `line.replace(/\s{2,}/g, ' ')`: a run of two or more whitespace characters becomes one space. */
  function CollapseSpaces(s: string): (r: string)
    ensures |r| <= |s|
    ensures forall c :: c in r ==> c in s || c == ' '
    ensures r == [] <==> s == []
    ensures r != [] ==> (IsSpace(r[0]) <==> IsSpace(s[0]))
    ensures NoDoubleSpace(r)
    decreases |s|
  {
    if s == [] then []
    else
      var n := LeadingSpaces(s);
      if n >= 2 then
        var rest := CollapseSpaces(s[n..]);
        assert s[n..] != [] ==> !IsSpace(s[n..][0]);
        " " + rest
      else
        var rest := CollapseSpaces(s[1..]);
        assert s[0] in s;
        assert IsSpace(s[0]) && s[1..] != [] ==> !IsSpace(s[1..][0]);
        [s[0]] + rest
  }

  /** `line.replace(/\s{2,}/g, ' ').trim()`. */
  function TidyLine(line: string): (r: string)
    ensures |r| <= |line|
    ensures LineTidy(r)
    ensures forall c :: c in r ==> c in line || c == ' '
  {
    var c := CollapseSpaces(line);
    TrimKeepsNoDoubleSpace(c);
    Trim(c)
  }

  lemma TrimKeepsNoDoubleSpace(s: string)
    requires NoDoubleSpace(s)
    ensures NoDoubleSpace(Trim(s))
    ensures forall c :: c in Trim(s) ==> c in s
  {
    var lo, hi := TrimSlice(s);
    var r := Trim(s);
    forall i | 0 <= i < |r| - 1 ensures !IsSpace(r[i]) || !IsSpace(r[i + 1]) {
      assert r[i] == s[lo + i] && r[i + 1] == s[lo + i + 1];
    }
    forall c | c in r ensures c in s {
      var i :| 0 <= i < |r| && r[i] == c;
      assert s[lo + i] == c;
    }
  }

  /** Position of the first line feed, or the length when there is none. */
  function IndexOfLf(s: string): (k: nat)
    ensures k <= |s|
    ensures '\n' !in s[..k]
    ensures k < |s| ==> s[k] == '\n'
  {
    if s == [] || s[0] == '\n' then 0
    else
      var k := IndexOfLf(s[1..]);
      assert s[..1 + k] == [s[0]] + s[1..][..k];
      1 + k
  }

  /** `content.split('\n')`. */
  function SplitLines(s: string): (ls: seq<string>)
    ensures |ls| >= 1
    decreases |s|
  {
    var k := IndexOfLf(s);
    if k == |s| then [s]
    else [s[..k]] + SplitLines(s[k + 1..])
  }

  /** Every line holds characters of the text and no line feed. */
  lemma {:induction false} SplitLinesChars(s: string)
    ensures forall i, c :: 0 <= i < |SplitLines(s)| && c in SplitLines(s)[i] ==> c in s && c != '\n'
    ensures forall i :: 0 <= i < |SplitLines(s)| ==> '\n' !in SplitLines(s)[i]
    decreases |s|
  {
    var k := IndexOfLf(s);
    if k < |s| {
      var rest := SplitLines(s[k + 1..]);
      var ls := SplitLines(s);
      assert ls == [s[..k]] + rest;
      SplitLinesChars(s[k + 1..]);
      forall i, c | 0 <= i < |ls| && c in ls[i] ensures c in s && c != '\n' {
        if i == 0 {
          assert c in s[..k];
        } else {
          assert ls[i] == rest[i - 1];
          assert c in s[k + 1..];
        }
      }
    }
  }

  /** `lines.join('\n')`. */
  function JoinLines(ls: seq<string>): (r: string)
    ensures (forall i :: 0 <= i < |ls| ==> '\r' !in ls[i]) ==> '\r' !in r
  {
    if |ls| == 0 then []
    else if |ls| == 1 then ls[0]
    else ls[0] + "\n" + JoinLines(ls[1..])
  }

  /** `lines.map(line => line.replace(/\s{2,}/g, ' ').trim())`. */
  function TidyLines(ls: seq<string>): (r: seq<string>)
    ensures |r| == |ls|
    ensures forall i :: 0 <= i < |r| ==> r[i] == TidyLine(ls[i])
  {
    if ls == [] then [] else [TidyLine(ls[0])] + TidyLines(ls[1..])
  }

  // ---------------------------------------------------------------------------
  // The whole pipeline
  // ---------------------------------------------------------------------------

  /**
   * `TextUtils.normalizeContent`. `null` and `undefined` are falsy exactly like
   * `''`, so all three are the empty string here.
   */
  function NormalizeContent(content: string): (r: string)
    ensures content == [] ==> r == []
    ensures '\r' !in r
    ensures Trimmed(r)
  {
    if content == [] then []
    else
      var s := CollapseBlankRuns(CrToLf(CrLfToLf(content)));
      var ls := SplitLines(s);
      SplitLinesChars(s);
      var tidy := TidyLines(ls);
      forall i | 0 <= i < |tidy| ensures '\r' !in tidy[i] {
        assert forall c :: c in tidy[i] ==> c in ls[i] || c == ' ';
      }
      var joined := JoinLines(tidy);
      TrimKeepsChars(joined);
      Trim(joined)
  }

  lemma TrimKeepsChars(s: string)
    ensures forall c :: c in Trim(s) ==> c in s
  {
    var lo, hi := TrimSlice(s);
    forall c | c in Trim(s) ensures c in s {
      var i :| 0 <= i < |Trim(s)| && Trim(s)[i] == c;
      assert s[lo + i] == c;
    }
  }

  // ---------------------------------------------------------------------------
  // Hash and cache key
  // ---------------------------------------------------------------------------

  /**
   * `TextUtils.generateHash`: the empty string for empty content, otherwise
   * the digest (MD5 in hexadecimal in the backend) of the content.
   */
  function GenerateHash(digest: string -> string, content: string): (h: string)
    ensures content == [] ==> h == []
    ensures content != [] ==> h == digest(content)
  {
    if content == [] then [] else digest(content)
  }

  const KeyPrefix: string := "text-analysis:"

  /** `TextUtils.generateCacheKey`. */
  function GenerateCacheKey(digest: string -> string, userId: string, content: string): (key: string)
    ensures key == [] <==> userId == [] || content == []
    ensures key != [] ==> key == KeyPrefix + userId + ":" + GenerateHash(digest, content)
  {
    if userId == [] || content == [] then []
    else KeyPrefix + userId + ":" + GenerateHash(digest, content)
  }
}
