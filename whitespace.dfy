/**
 * The one notion of whitespace the backend's regular expressions share:
 * JavaScript's `\s` class, which is also exactly the set of characters that
 * `String.prototype.trim` strips, together with `trim` itself and the
 * tokenizer `split(/\s+/)` with empty pieces filtered out.
 */
module Whitespace {

  /** JavaScript's `\s`: the ECMAScript WhiteSpace and LineTerminator characters. */
  predicate IsSpace(c: char) {
    || c == '\t' || c == '\n' || c == '\U{B}' || c == '\U{C}' || c == '\r' || c == ' '
    || c == '\U{A0}' || c == '\U{1680}' || ('\U{2000}' <= c <= '\U{200A}')
    || c == '\U{2028}' || c == '\U{2029}' || c == '\U{202F}' || c == '\U{205F}'
    || c == '\U{3000}' || c == '\U{FEFF}'
  }

  predicate AllSpace(s: string) {
    forall i :: 0 <= i < |s| ==> IsSpace(s[i])
  }

  predicate NoSpace(s: string) {
    forall i :: 0 <= i < |s| ==> !IsSpace(s[i])
  }

  /** A token of `split(/\s+/)` that survives `filter(w => w.length > 0)`. */
  predicate IsWord(w: string) {
    |w| > 0 && NoSpace(w)
  }

  /** The string begins with a non-whitespace character. */
  predicate StartsWord(s: string) {
    |s| > 0 && !IsSpace(s[0])
  }

  /** Neither end of the string is whitespace. */
  predicate Trimmed(s: string) {
    s == [] || (!IsSpace(s[0]) && !IsSpace(s[|s| - 1]))
  }

  /** Length of the leading run of whitespace. */
  function LeadingSpaces(s: string): (n: nat)
    ensures n <= |s|
    ensures AllSpace(s[..n])
    ensures n < |s| ==> !IsSpace(s[n])
  {
    if s == [] || !IsSpace(s[0]) then 0
    else
      1 + LeadingSpaces(s[1..])
  }

  /** Length of the trailing run of whitespace. */
  function TrailingSpaces(s: string): (n: nat)
    ensures n <= |s|
    ensures AllSpace(s[|s| - n..])
    ensures n < |s| ==> !IsSpace(s[|s| - n - 1])
  {
    if s == [] || !IsSpace(s[|s| - 1]) then 0
    else
      1 + TrailingSpaces(s[..|s| - 1])
  }

  /** `String.prototype.trim`. */
  function Trim(s: string): (r: string)
    ensures |r| <= |s|
    ensures Trimmed(r)
    ensures r == [] <==> AllSpace(s)
  {
    var lo := LeadingSpaces(s);
    var t := s[lo..];
    var n := TrailingSpaces(t);
    TrimEnds(s, lo, t, n);
    t[..|t| - n]
  }

  lemma TrimEnds(s: string, lo: nat, t: string, n: nat)
    requires lo <= |s| && t == s[lo..] && n <= |t|
    requires AllSpace(s[..lo]) && (lo < |s| ==> !IsSpace(s[lo]))
    requires AllSpace(t[|t| - n..]) && (n < |t| ==> !IsSpace(t[|t| - n - 1]))
    ensures Trimmed(t[..|t| - n])
    ensures t[..|t| - n] == [] <==> AllSpace(s)
  {
    if n < |t| {
      TrimEndsNonEmpty(s, lo, t, n);
    } else {
      assert t == t[|t| - n..];
      TrimEndsEmpty(s, lo, t);
    }
  }

  lemma TrimEndsEmpty(s: string, lo: nat, t: string)
    requires lo <= |s| && t == s[lo..] && AllSpace(s[..lo]) && AllSpace(t)
    ensures AllSpace(s)
  {
    AllSpaceAppend(s[..lo], t);
    assert s == s[..lo] + t;
  }

  lemma TrimEndsNonEmpty(s: string, lo: nat, t: string, n: nat)
    requires lo < |s| && t == s[lo..] && n < |t|
    requires !IsSpace(s[lo]) && !IsSpace(t[|t| - n - 1])
    ensures Trimmed(t[..|t| - n]) && !AllSpace(s)
  {
    EndsTrimmed(t[..|t| - n], s[lo], t[|t| - n - 1]);
    NotAllSpace(s, lo);
  }

  lemma EndsTrimmed(r: string, first: char, last: char)
    requires r != [] && r[0] == first && r[|r| - 1] == last
    requires !IsSpace(first) && !IsSpace(last)
    ensures Trimmed(r)
  {
  }

  lemma NotAllSpace(s: string, i: nat)
    requires i < |s| && !IsSpace(s[i])
    ensures !AllSpace(s)
  {
  }

  lemma AllSpaceAppend(a: string, b: string)
    requires AllSpace(a) && AllSpace(b)
    ensures AllSpace(a + b)
  {
  }

  /** Trim removes a whitespace-only prefix and a whitespace-only suffix. */
  lemma TrimSlice(s: string) returns (lo: nat, hi: nat)
    ensures lo <= hi <= |s|
    ensures Trim(s) == s[lo..hi]
    ensures AllSpace(s[..lo]) && AllSpace(s[hi..])
  {
    lo := LeadingSpaces(s);
    var t := s[lo..];
    hi := lo + |t| - TrailingSpaces(t);
    assert s[hi..] == t[|t| - TrailingSpaces(t)..];
  }

  /** Trimming an already trimmed string changes nothing. */
  lemma TrimOfTrimmed(s: string)
    requires Trimmed(s)
    ensures Trim(s) == s
  {
    if s != [] {
      assert LeadingSpaces(s) == 0;
      assert TrailingSpaces(s) == 0;
    }
  }

  /** `s.replace(/\s+/g, '')`: the string with every whitespace character removed. */
  function RemoveSpaces(s: string): (r: string)
    ensures NoSpace(r)
    ensures |r| <= |s|
  {
    if s == [] then []
    else if IsSpace(s[0]) then RemoveSpaces(s[1..])
    else [s[0]] + RemoveSpaces(s[1..])
  }

  /** Length of the leading run of non-whitespace characters. */
  function WordLength(s: string): (n: nat)
    ensures n <= |s|
    ensures NoSpace(s[..n])
    ensures n < |s| ==> IsSpace(s[n])
  {
    if s == [] || IsSpace(s[0]) then 0
    else
      1 + WordLength(s[1..])
  }

  /**
   * `s.split(/\s+/).filter(w => w.length > 0)`: the maximal runs of
   * non-whitespace characters, in order.
   */
  function Tokens(s: string): (ts: seq<string>)
    decreases |s|
  {
    if s == [] then []
    else if IsSpace(s[0]) then Tokens(s[1..])
    else
      var n := WordLength(s);
      [s[..n]] + Tokens(s[n..])
  }

  /** Every token is a non-empty run of non-whitespace characters. */
  lemma {:induction false} TokensAreWords(s: string)
    ensures forall i :: 0 <= i < |Tokens(s)| ==> IsWord(Tokens(s)[i])
    decreases |s|
  {
    if s == [] {
    } else if IsSpace(s[0]) {
      TokensAreWords(s[1..]);
    } else {
      var n := WordLength(s);
      TokensAreWords(s[n..]);
      assert Tokens(s) == [s[..n]] + Tokens(s[n..]);
    }
  }

  /** Concatenation of a sequence of strings. */
  function Flatten(ss: seq<string>): (r: string)
  {
    if ss == [] then [] else ss[0] + Flatten(ss[1..])
  }

  lemma FlattenAppend(a: seq<string>, b: seq<string>)
    ensures Flatten(a + b) == Flatten(a) + Flatten(b)
  {
    if a != [] {
      assert (a + b)[0] == a[0];
      assert (a + b)[1..] == a[1..] + b;
      FlattenAppend(a[1..], b);
      assert Flatten(a + b) == a[0] + (Flatten(a[1..]) + Flatten(b));
    } else {
      assert a + b == b;
    }
  }

  lemma RemoveSpacesAppend(a: string, b: string)
    ensures RemoveSpaces(a + b) == RemoveSpaces(a) + RemoveSpaces(b)
  {
    if a != [] {
      assert (a + b)[0] == a[0];
      assert (a + b)[1..] == a[1..] + b;
      RemoveSpacesAppend(a[1..], b);
      if !IsSpace(a[0]) {
        assert RemoveSpaces(a + b) == [a[0]] + (RemoveSpaces(a[1..]) + RemoveSpaces(b));
      }
    } else {
      assert a + b == b;
    }
  }

  lemma {:induction false} RemoveSpacesOfNoSpace(w: string)
    requires NoSpace(w)
    ensures RemoveSpaces(w) == w
  {
    if w != [] {
      assert !IsSpace(w[0]);
      RemoveSpacesOfNoSpace(w[1..]);
      assert w == [w[0]] + w[1..];
    }
  }

  /**
   * The tokens are exactly the non-whitespace characters of the text, cut
   * into pieces: gluing them together gives back the text without its
   * whitespace.
   */
  lemma {:induction false} FlattenTokens(s: string)
    ensures Flatten(Tokens(s)) == RemoveSpaces(s)
    decreases |s|
  {
    if s == [] {
    } else if IsSpace(s[0]) {
      FlattenTokens(s[1..]);
    } else {
      var n := WordLength(s);
      FlattenTokens(s[n..]);
      assert s == s[..n] + s[n..];
      RemoveSpacesAppend(s[..n], s[n..]);
      RemoveSpacesOfNoSpace(s[..n]);
      assert Tokens(s)[1..] == Tokens(s[n..]);
    }
  }

  /** A whitespace-only prefix contributes no token. */
  lemma {:induction false} TokensAfterSpaces(w: string, t: string)
    requires AllSpace(w)
    ensures Tokens(w + t) == Tokens(t)
    decreases |w|
  {
    if w != [] {
      assert (w + t)[0] == w[0];
      assert (w + t)[1..] == w[1..] + t;
      TokensAfterSpaces(w[1..], t);
    } else {
      assert w + t == t;
    }
  }

  lemma TokensOfSpaces(w: string)
    requires AllSpace(w)
    ensures Tokens(w) == []
  {
    TokensAfterSpaces(w, []);
    assert w + [] == w;
  }

  /** The word at the front of `a + t` ends inside `a` when `t` starts with whitespace. */
  lemma WordLengthAppend(a: string, t: string)
    requires t == [] || IsSpace(t[0])
    ensures WordLength(a + t) == WordLength(a)
  {
    var n := WordLength(a);
    var s := a + t;
    assert s[..n] == a[..n];
    WordLengthUnique(s, n);
  }

  /** The leading word is the longest whitespace-free prefix. */
  lemma {:induction false} WordLengthUnique(s: string, k: nat)
    requires k <= |s| && NoSpace(s[..k]) && (k < |s| ==> IsSpace(s[k]))
    ensures WordLength(s) == k
  {
    if k > 0 {
      assert !IsSpace(s[..k][0]);
      assert s[1..][..k - 1] == s[..k][1..];
      WordLengthUnique(s[1..], k - 1);
    }
  }

  /** Whitespace at the seam keeps the tokens of the two sides apart. */
  lemma {:induction false} TokensAppend(a: string, t: string)
    requires t == [] || IsSpace(t[0])
    ensures Tokens(a + t) == Tokens(a) + Tokens(t)
    decreases |a|
  {
    if a == [] {
      assert a + t == t;
    } else if IsSpace(a[0]) {
      SliceOfAppend(a, t, 1);
      TokensAppend(a[1..], t);
    } else {
      var n := WordLength(a);
      WordLengthAppend(a, t);
      SliceOfAppend(a, t, n);
      TokensAppend(a[n..], t);
      TokensOfWord(a + t, n);
      TokensOfWord(a, n);
    }
  }

  /** A single space keeps the tokens on its two sides apart. */
  lemma TokensAroundSpace(a: string, b: string)
    ensures Tokens(a + " " + b) == Tokens(a) + Tokens(b)
  {
    assert a + " " + b == a + (" " + b);
    TokensAppend(a, " " + b);
    TokensAfterSpaces(" ", b);
  }

  /** A word on its own is its only token. */
  lemma TokensOfOneWord(w: string)
    requires IsWord(w)
    ensures Tokens(w) == [w]
  {
    assert w[..|w|] == w;
    WordLengthUnique(w, |w|);
    TokensOfWord(w, |w|);
    assert w[|w|..] == [];
  }

  lemma SliceOfAppend(a: string, t: string, n: nat)
    requires n <= |a|
    ensures (a + t)[..n] == a[..n] && (a + t)[n..] == a[n..] + t
  {
  }

  /** Text that starts with a word: that word, then the tokens of the rest. */
  lemma TokensOfWord(s: string, n: nat)
    requires s != [] && !IsSpace(s[0]) && n == WordLength(s)
    ensures Tokens(s) == [s[..n]] + Tokens(s[n..])
  {
  }

  /** How one more non-whitespace character in front changes the tokens. */
  lemma TokensConsWord(c: char, x: string)
    requires !IsSpace(c)
    ensures StartsWord(x) ==> |Tokens(x)| > 0 && Tokens([c] + x) == [[c] + Tokens(x)[0]] + Tokens(x)[1..]
    ensures !StartsWord(x) ==> Tokens([c] + x) == [[c]] + Tokens(x)
  {
    var s := [c] + x;
    assert s[1..] == x;
    var m := WordLength(x);
    assert WordLength(s) == 1 + m;
    assert s[..1 + m] == [c] + x[..m];
    assert s[1 + m..] == x[m..];
  }

  /**
   * Two strings that have the same tokens and agree on whether they start
   * in the middle of a word: this is what every text-rewriting step of the
   * backend preserves.
   */
  predicate SameWords(x: string, y: string) {
    Tokens(x) == Tokens(y) && (StartsWord(x) <==> StartsWord(y))
  }

  lemma SameWordsCons(c: char, x: string, y: string)
    requires SameWords(x, y)
    ensures SameWords([c] + x, [c] + y)
  {
    if IsSpace(c) {
      assert ([c] + x)[1..] == x;
      assert ([c] + y)[1..] == y;
    } else {
      TokensConsWord(c, x);
      TokensConsWord(c, y);
    }
  }

  lemma {:induction false} SameWordsPrefix(p: string, x: string, y: string)
    requires SameWords(x, y)
    ensures SameWords(p + x, p + y)
    decreases |p|
  {
    if p != [] {
      SameWordsPrefix(p[1..], x, y);
      assert p + x == [p[0]] + (p[1..] + x);
      assert p + y == [p[0]] + (p[1..] + y);
      SameWordsCons(p[0], p[1..] + x, p[1..] + y);
    } else {
      assert p + x == x && p + y == y;
    }
  }

  /** Two non-empty whitespace runs in front of texts with the same tokens. */
  lemma SameWordsAfterSpaces(w1: string, x: string, w2: string, y: string)
    requires |w1| > 0 && AllSpace(w1) && |w2| > 0 && AllSpace(w2)
    requires Tokens(x) == Tokens(y)
    ensures SameWords(w1 + x, w2 + y)
  {
    TokensAfterSpaces(w1, x);
    TokensAfterSpaces(w2, y);
  }

  /** Trimming never changes the tokens. */
  lemma TokensOfTrim(s: string)
    ensures Tokens(Trim(s)) == Tokens(s)
  {
    var lo, hi := TrimSlice(s);
    var front, middle, back := s[..lo], s[lo..hi], s[hi..];
    SplitInThree(s, lo, hi);
    TokensAfterSpaces(front, middle + back);
    if back != [] { assert IsSpace(back[0]); }
    TokensAppend(middle, back);
    TokensOfSpaces(back);
    assert Tokens(middle) + [] == Tokens(middle);
  }

  lemma SplitInThree(s: string, lo: nat, hi: nat)
    requires lo <= hi <= |s|
    ensures s == s[..lo] + (s[lo..hi] + s[hi..])
  {
  }
}
