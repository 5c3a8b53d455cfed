/**
 * `TextAnalyzerEntity`
 * (backend/src/modules/text-analyzer/domain/entities/text.entity.ts): a text
 * owned by a user, kept in normalised form with its hash and, once computed,
 * its statistics.
 */
module TextEntity {
  import opened Wrappers
  import opened Whitespace
  import opened TextUtils
  import opened TextCounts
  import NormalizeProperties

  class TextAnalyzerEntity {
    const userId: string
    /** The digest `TextUtils.generateHash` applies (MD5 in the backend). */
    const digest: string -> string
    var content: string
    var contentHash: string
    var stats: Option<TextStats>

    /**
     * The hash is the hash of the content, the content has the shape
     * normalisation gives, and stored statistics are those of the content.
     */
    predicate Valid()
      reads this
    {
      && contentHash == GenerateHash(digest, content)
      && '\r' !in content
      && Trimmed(content)
      && NormalizeProperties.LinesTidy(content)
      && (stats.Some? ==> stats.value == ComputeStats(content))
    }

    /** `new TextAnalyzerEntity(content, userId)`. */
    constructor(text: string, userId: string, digest: string -> string)
      ensures this.userId == userId && this.digest == digest
      ensures content == NormalizeContent(text)
      ensures contentHash == GenerateHash(digest, NormalizeContent(text))
      ensures stats == None
      ensures Valid()
    {
      var normalized := NormalizeContent(text);
      NormalizeProperties.NormalizeLinesTidy(text);
      this.userId := userId;
      this.digest := digest;
      content := normalized;
      contentHash := GenerateHash(digest, normalized);
      stats := None;
    }

    /**
     * `updateContent`: replaces the content, and drops the stored statistics,
     * exactly when the hash of the normalised new content differs.
     */
    method UpdateContent(newContent: string) returns (changed: bool)
      requires Valid()
      modifies this
      ensures Valid()
      ensures changed <==> GenerateHash(digest, NormalizeContent(newContent)) != old(contentHash)
      ensures changed ==> content == NormalizeContent(newContent) && stats == None
      ensures !changed ==> content == old(content) && contentHash == old(contentHash) && stats == old(stats)
    {
      var normalized := NormalizeContent(newContent);
      var newHash := GenerateHash(digest, normalized);
      changed := newHash != contentHash;
      if changed {
        NormalizeProperties.NormalizeLinesTidy(newContent);
        assert '\r' !in normalized && Trimmed(normalized);
        content := normalized;
        contentHash := newHash;
        stats := None;
      }
    }

    /**
     * `hasContentChanged`: the answer `updateContent` would give, without the
     * update. Text that normalises to the current content is never a change.
     */
    method HasContentChanged(newContent: string) returns (changed: bool)
      requires Valid()
      ensures changed <==> GenerateHash(digest, NormalizeContent(newContent)) != contentHash
      ensures NormalizeContent(newContent) == content ==> !changed
    {
      var normalized := NormalizeContent(newContent);
      var newHash := GenerateHash(digest, normalized);
      return contentHash != newHash;
    }

    /** `getAnalyzeText`: computes the statistics of the content and stores them. */
    method GetAnalyzeText() returns (s: TextStats)
      requires Valid()
      modifies this
      ensures s == ComputeStats(content) && stats == Some(s)
      ensures content == old(content) && contentHash == old(contentHash)
      ensures Valid()
    {
      ghost var hash := contentHash;
      s := ComputeStats(content);
      stats := Some(s);
      assert contentHash == hash;
    }

    /** `getWordCount`: the number of words of the content. */
    method GetWordCount() returns (n: nat)
      ensures n == |Tokens(content)|
    {
      var s := ComputeStats(content);
      CountWordsIsTokens(content);
      n := s.wordCount;
    }

    /** `getCharacterCount`: the total length of the words of the content. */
    method GetCharacterCount() returns (n: nat)
      ensures n == TotalLength(Tokens(content))
    {
      var s := ComputeStats(content);
      CountCharactersIsWordLengths(content);
      n := s.characterCount;
    }

    /** `getSentenceCount`: the number of positions where a sentence of the content ends. */
    method GetSentenceCount() returns (n: nat)
      ensures n == |set k: nat | k < |content| && IsSentenceEnd(content, k)|
    {
      var s := ComputeStats(content);
      CountSentencesIsPositions(content);
      n := s.sentenceCount;
    }

    /** `getParagraphCount`: one more than the paragraph breaks of non-blank content, else 0. */
    method GetParagraphCount() returns (n: nat)
      requires Valid()
      ensures content == [] ==> n == 0
      ensures content != [] ==> n == 1 + Paragraphs.ParagraphBreaks(content, 0)
    {
      var s := ComputeStats(content);
      Paragraphs.CountParagraphsIsBreaks(content);
      if content != [] {
        ContentNotBlank(content);
        NormalizeProperties.CrLfToLfNoCr(content);
        NormalizeProperties.CrToLfNoCr(content);
        TrimOfTrimmed(content);
      }
      n := s.paragraphCount;
    }

    /** `getLongestWords`: a copy of the longest words of the content. */
    method GetLongestWords() returns (ws: seq<string>)
      ensures ws == FindLongestWords(content)
      ensures forall w :: w in ws <==>
                w in Tokens(content) && forall v :: v in Tokens(content) ==> Utf16Length(v) <= Utf16Length(w)
      ensures forall w :: multiset(ws)[w] ==
                if forall v :: v in Tokens(content) ==> Utf16Length(v) <= Utf16Length(w)
                then multiset(Tokens(content))[w] else 0
      ensures ws == [] <==> Tokens(content) == []
    {
      var s := ComputeStats(content);
      LongestWordsSpec(content);
      ws := s.longestWords;
    }
  }

  /** Trimmed text that is not empty is not blank. */
  lemma ContentNotBlank(s: string)
    requires Trimmed(s) && s != []
    ensures !AllSpace(s)
  {
    assert !IsSpace(s[0]);
  }
}
