/**
 * `TextAnalyzerService`
 * (backend/src/modules/text-analyzer/application/services/text-analyer.service.ts):
 * analyses texts for users through a statistics cache keyed by
 * `generateCacheKey`, and records each full analysis in the text repository
 * (backend/src/modules/text-analyzer/infrastructure/repositories/text.repository.ts).
 *
 * The cache manager is the map `cache`, the repository is the append-only
 * sequence `records`. Whether the repository write fails is the parameter
 * `persistFails`.
 */
module TextService {
  import opened Wrappers
  import opened Whitespace
  import opened TextUtils
  import opened TextCounts
  import opened TextEntity
  import NormalizeProperties
  import Renormalize

  /** A stored analysis: the `TextDocument` fields `userId`, `content` and `stats`. */
  datatype AnalysisRecord = AnalysisRecord(userId: string, content: string, stats: TextStats)

  /** `find({ userId })`: the records of one user, in the order they were stored. */
  function ForUser(records: seq<AnalysisRecord>, userId: string): (r: seq<AnalysisRecord>)
    ensures forall x :: x in r <==> x in records && x.userId == userId
    ensures |r| <= |records|
  {
    if records == [] then []
    else if records[0].userId == userId then [records[0]] + ForUser(records[1..], userId)
    else ForUser(records[1..], userId)
  }

  /** Storing one record adds it to the end of its own user's records and to no one else's. */
  lemma {:induction false} ForUserAppend(records: seq<AnalysisRecord>, x: AnalysisRecord, userId: string)
    ensures ForUser(records + [x], userId) ==
              ForUser(records, userId) + (if x.userId == userId then [x] else [])
    decreases |records|
  {
    if records == [] {
      assert [x][1..] == [];
    } else {
      assert (records + [x])[1..] == records[1..] + [x];
      ForUserAppend(records[1..], x, userId);
    }
  }

  /**
   * A digest that tells non-empty texts apart and never yields ':'. MD5 in
   * hexadecimal has the second property; the first is the assumption every
   * content-addressed cache makes.
   */
  ghost predicate DigestSound(digest: string -> string) {
    && (forall a, b :: a != [] && b != [] && digest(a) == digest(b) ==> a == b)
    && (forall a :: ':' !in digest(a))
  }

  /** `s` holds the statistics of `t`, field by field. */
  ghost predicate IsStatsOf(s: TextStats, t: string) {
    && s.wordCount == CountWords(t)
    && s.characterCount == CountCharacters(t)
    && s.sentenceCount == CountSentences(t)
    && s.paragraphCount == Paragraphs.CountParagraphs(t)
    && s.longestWords == FindLongestWords(t)
  }

  lemma StatsAreStatsOf(t: string)
    ensures IsStatsOf(ComputeStats(t), t)
  {
  }

  lemma StatsOfAreStats(s: TextStats, t: string)
    requires IsStatsOf(s, t)
    ensures s == ComputeStats(t)
  {
  }

  /**
   * Statistics of the normalised text count the words, their characters and
   * the longest words of the text as given.
   */
  lemma StatsOfNormalized(s: TextStats, text: string)
    requires IsStatsOf(s, NormalizeContent(text))
    ensures s.wordCount == |Tokens(text)|
    ensures s.characterCount == TotalLength(Tokens(text))
    ensures s.longestWords == FindLongestWords(text)
  {
    StatsIgnoreNormalization(text);
    CountWordsIsTokens(text);
    CountCharactersIsWordLengths(text);
  }

  /**
   * The cache key is empty exactly when the user id is empty or the text is
   * blank: every such request shares the one key `""`.
   */
  lemma KeyEmptyIff(digest: string -> string, text: string, userId: string)
    ensures GenerateCacheKey(digest, userId, NormalizeContent(text)) == [] <==> userId == [] || AllSpace(text)
  {
    var n := NormalizeContent(text);
    NormalizeProperties.NormalizeShape(text);
    NormalizeProperties.NormalizePreservesTokens(text);
    CountWordsIsTokens(text);
    CountWordsIsTokens(n);
    if n != [] {
      assert !IsSpace(n[0]);
    }
  }

  /**
   * Under a sound digest, the entry under a non-empty key holds the
   * statistics of the text that key names.
   */
  ghost predicate CacheSound(digest: string -> string, cache: map<string, TextStats>) {
    DigestSound(digest) ==>
      forall u, n :: GenerateCacheKey(digest, u, n) != [] && GenerateCacheKey(digest, u, n) in cache ==>
        IsStatsOf(cache[GenerateCacheKey(digest, u, n)], n)
  }

  /** Under a sound digest, a non-empty key names one user and one text. */
  lemma KeyNamesOneText(digest: string -> string, u1: string, n1: string, u2: string, n2: string)
    requires DigestSound(digest)
    requires GenerateCacheKey(digest, u1, n1) == GenerateCacheKey(digest, u2, n2) != []
    ensures u1 == u2 && n1 == n2
  {
    NormalizeProperties.CacheKeySeparatesUsers(digest, u1, n1, u2, n2);
    assert digest(n1) == digest(n2);
  }

  /** Storing the statistics of a text under that text's key keeps the cache sound. */
  lemma CacheSoundStore(digest: string -> string, cache: map<string, TextStats>,
                        userId: string, n: string, s: TextStats)
    requires CacheSound(digest, cache)
    requires IsStatsOf(s, n)
    ensures CacheSound(digest, cache[GenerateCacheKey(digest, userId, n) := s])
  {
    var k := GenerateCacheKey(digest, userId, n);
    var c := cache[k := s];
    if DigestSound(digest) {
      forall u, m | GenerateCacheKey(digest, u, m) != [] && GenerateCacheKey(digest, u, m) in c
        ensures IsStatsOf(c[GenerateCacheKey(digest, u, m)], m)
      {
        if GenerateCacheKey(digest, u, m) == k {
          KeyNamesOneText(digest, u, m, userId, n);
        } else {
          assert GenerateCacheKey(digest, u, m) in cache;
        }
      }
    }
  }

  class TextAnalyzerService {
    /** The digest behind `generateHash` (MD5 in the backend). */
    const digest: string -> string
    /** The cache manager's entries. */
    var cache: map<string, TextStats>
    /** The repository's documents, oldest first. */
    var records: seq<AnalysisRecord>

    /** Under a sound digest, every entry holds the statistics of the text its key names. */
    ghost predicate Valid()
      reads this
    {
      CacheSound(digest, cache)
    }

    /** The cache key `generateCacheKey(userId, normalizeContent(text))`. */
    function Key(text: string, userId: string): string {
      GenerateCacheKey(digest, userId, NormalizeContent(text))
    }

    /** A fresh service: an empty cache over the documents already stored. */
    constructor(digest: string -> string, stored: seq<AnalysisRecord>)
      ensures this.digest == digest && cache == map[] && records == stored
      ensures Valid()
    {
      this.digest := digest;
      cache := map[];
      records := stored;
    }

    /**
     * A cache hit for a real user and non-blank text carries statistics of
     * that very text, whoever stored them: keys of different users or texts
     * differ.
     */
    lemma HitIsStatsOf(text: string, userId: string)
      requires Valid() && DigestSound(digest)
      requires Key(text, userId) != [] && Key(text, userId) in cache
      ensures IsStatsOf(cache[Key(text, userId)], NormalizeContent(text))
      ensures cache[Key(text, userId)] == ComputeStats(NormalizeContent(text))
    {
      var n := NormalizeContent(text);
      assert IsStatsOf(cache[GenerateCacheKey(digest, userId, n)], n);
      StatsOfAreStats(cache[Key(text, userId)], n);
    }

    /** Records the new entry `k` for user `userId` and normalised text `n`. */
    method Store(k: string, userId: string, n: string, s: TextStats)
      requires Valid()
      requires k == GenerateCacheKey(digest, userId, n) && IsStatsOf(s, n)
      modifies this
      ensures cache == old(cache)[k := s] && records == old(records)
      ensures Valid()
    {
      CacheSoundStore(digest, cache, userId, n, s);
      cache := cache[k := s];
    }

    /** Stores one document in the repository. */
    method Append(rec: AnalysisRecord)
      requires Valid()
      modifies this
      ensures records == old(records) + [rec] && cache == old(cache)
      ensures Valid()
    {
      records := records + [rec];
    }

    /** A throw-away entity for the text, analysed: the statistics of the normalised text. */
    method FreshStats(text: string, userId: string) returns (s: TextStats)
      ensures s == ComputeStats(NormalizeContent(text))
      ensures IsStatsOf(s, NormalizeContent(text))
    {
      var textAnalyzer := new TextAnalyzerEntity(text, userId, digest);
      s := textAnalyzer.GetAnalyzeText();
      StatsAreStatsOf(NormalizeContent(text));
    }

    /**
     * `analyzeText`: the cached statistics of the normalised text when there
     * are some, otherwise those of a fresh analysis, which are cached; either
     * way the raw text is stored with them. A failed repository write makes
     * the answer `undefined` (`None`) and leaves the cache as it was. For a
     * real user and non-blank text the answer, hit or miss, is the statistics
     * of the normalised text.
     */
    method AnalyzeText(content: string, userId: string, persistFails: bool) returns (r: Option<TextStats>)
      requires Valid()
      modifies this
      ensures Valid()
      ensures persistFails ==> r == None && cache == old(cache) && records == old(records)
      ensures !persistFails && Key(content, userId) in old(cache) ==>
                r == Some(old(cache)[Key(content, userId)]) && cache == old(cache)
      ensures !persistFails && Key(content, userId) !in old(cache) ==>
                r == Some(ComputeStats(NormalizeContent(content))) &&
                cache == old(cache)[Key(content, userId) := r.value]
      ensures r.Some? ==> records == old(records) + [AnalysisRecord(userId, content, r.value)]
      ensures r.Some? ==> Key(content, userId) in cache && cache[Key(content, userId)] == r.value
      ensures r.Some? && DigestSound(digest) && Key(content, userId) != [] ==>
                r.value == ComputeStats(NormalizeContent(content))
    {
      var normalizedContent := NormalizeContent(content);
      var cacheKey := GenerateCacheKey(digest, userId, normalizedContent);
      assert cacheKey == Key(content, userId);
      if cacheKey in cache {
        var cachedStats := cache[cacheKey];
        if persistFails {
          return None;
        }
        if DigestSound(digest) && cacheKey != [] {
          HitIsStatsOf(content, userId);
        }
        Append(AnalysisRecord(userId, content, cachedStats));
        return Some(cachedStats);
      }
      var stats := FreshStats(content, userId);
      if persistFails {
        return None;
      }
      Append(AnalysisRecord(userId, content, stats));
      Store(cacheKey, userId, normalizedContent, stats);
      return Some(stats);
    }

    /**
     * What a single-statistic method does on a miss: analyse an entity built
     * from the normalised text (which normalises it once more) and cache its
     * statistics, which are those of the text normalised once.
     */
    method AnalyzeNormalized(text: string, userId: string) returns (s: TextStats)
      requires Valid()
      modifies this
      ensures s == ComputeStats(NormalizeContent(NormalizeContent(text)))
      ensures s == ComputeStats(NormalizeContent(text))
      ensures cache == old(cache)[Key(text, userId) := s] && records == old(records)
      ensures Valid()
    {
      var normalizedText := NormalizeContent(text);
      var cacheKey := GenerateCacheKey(digest, userId, normalizedText);
      s := FreshStats(normalizedText, userId);
      Renormalize.RenormalizeKeepsStats(text);
      StatsAreStatsOf(normalizedText);
      Store(cacheKey, userId, normalizedText, s);
    }

    /**
     * `getWordCount`: the cached word count, or a fresh one whose statistics
     * are cached. On a miss, and on a hit for a real user and non-blank
     * text, it is the number of words of the text.
     */
    method GetWordCount(text: string, userId: string) returns (n: nat)
      requires Valid()
      modifies this
      ensures Valid() && records == old(records)
      ensures Key(text, userId) in old(cache) ==> n == old(cache)[Key(text, userId)].wordCount && cache == old(cache)
      ensures Key(text, userId) !in old(cache) ==>
                cache == old(cache)[Key(text, userId) := ComputeStats(NormalizeContent(text))]
      ensures Key(text, userId) in cache && cache[Key(text, userId)].wordCount == n
      ensures Key(text, userId) !in old(cache) || (DigestSound(digest) && Key(text, userId) != []) ==>
                n == |Tokens(text)|
    {
      var cacheKey := Key(text, userId);
      if cacheKey in cache {
        if DigestSound(digest) && cacheKey != [] {
          HitIsStatsOf(text, userId);
          StatsOfNormalized(cache[cacheKey], text);
        }
        return cache[cacheKey].wordCount;
      }
      var stats := AnalyzeNormalized(text, userId);
      StatsAreStatsOf(NormalizeContent(text));
      StatsOfNormalized(stats, text);
      n := stats.wordCount;
    }

    /**
     * `getCharacterCount`: the cached character count, or a fresh one whose
     * statistics are cached. On a miss, and on a hit for a real user and
     * non-blank text, it is the total length of the words of the text.
     */
    method GetCharacterCount(text: string, userId: string) returns (n: nat)
      requires Valid()
      modifies this
      ensures Valid() && records == old(records)
      ensures Key(text, userId) in old(cache) ==> n == old(cache)[Key(text, userId)].characterCount && cache == old(cache)
      ensures Key(text, userId) !in old(cache) ==>
                cache == old(cache)[Key(text, userId) := ComputeStats(NormalizeContent(text))]
      ensures Key(text, userId) in cache && cache[Key(text, userId)].characterCount == n
      ensures Key(text, userId) !in old(cache) || (DigestSound(digest) && Key(text, userId) != []) ==>
                n == TotalLength(Tokens(text))
    {
      var cacheKey := Key(text, userId);
      if cacheKey in cache {
        if DigestSound(digest) && cacheKey != [] {
          HitIsStatsOf(text, userId);
          StatsOfNormalized(cache[cacheKey], text);
        }
        return cache[cacheKey].characterCount;
      }
      var stats := AnalyzeNormalized(text, userId);
      StatsAreStatsOf(NormalizeContent(text));
      StatsOfNormalized(stats, text);
      n := stats.characterCount;
    }

    /**
     * `getSentenceCount`: the cached sentence count, or a fresh one whose
     * statistics are cached. On a miss, and on a hit for a real user and
     * non-blank text, it is the sentence count of the normalised text.
     */
    method GetSentenceCount(text: string, userId: string) returns (n: nat)
      requires Valid()
      modifies this
      ensures Valid() && records == old(records)
      ensures Key(text, userId) in old(cache) ==> n == old(cache)[Key(text, userId)].sentenceCount && cache == old(cache)
      ensures Key(text, userId) !in old(cache) ==>
                cache == old(cache)[Key(text, userId) := ComputeStats(NormalizeContent(text))]
      ensures Key(text, userId) in cache && cache[Key(text, userId)].sentenceCount == n
      ensures Key(text, userId) !in old(cache) || (DigestSound(digest) && Key(text, userId) != []) ==>
                n == CountSentences(NormalizeContent(text))
    {
      var cacheKey := Key(text, userId);
      if cacheKey in cache {
        if DigestSound(digest) && cacheKey != [] {
          HitIsStatsOf(text, userId);
        }
        return cache[cacheKey].sentenceCount;
      }
      var stats := AnalyzeNormalized(text, userId);
      n := stats.sentenceCount;
    }

    /**
     * `getParagraphCount`: the cached paragraph count, or a fresh one whose
     * statistics are cached. On a miss, and on a hit for a real user and
     * non-blank text, it is the paragraph count of the normalised text.
     */
    method GetParagraphCount(text: string, userId: string) returns (n: nat)
      requires Valid()
      modifies this
      ensures Valid() && records == old(records)
      ensures Key(text, userId) in old(cache) ==> n == old(cache)[Key(text, userId)].paragraphCount && cache == old(cache)
      ensures Key(text, userId) !in old(cache) ==>
                cache == old(cache)[Key(text, userId) := ComputeStats(NormalizeContent(text))]
      ensures Key(text, userId) in cache && cache[Key(text, userId)].paragraphCount == n
      ensures Key(text, userId) !in old(cache) || (DigestSound(digest) && Key(text, userId) != []) ==>
                n == Paragraphs.CountParagraphs(NormalizeContent(text))
    {
      var cacheKey := Key(text, userId);
      if cacheKey in cache {
        if DigestSound(digest) && cacheKey != [] {
          HitIsStatsOf(text, userId);
        }
        return cache[cacheKey].paragraphCount;
      }
      var stats := AnalyzeNormalized(text, userId);
      n := stats.paragraphCount;
    }

    /**
     * `getLongestWords`: the cached longest words, or fresh ones whose
     * statistics are cached. On a miss, and on a hit for a real user and
     * non-blank text, they are the longest words of the text.
     */
    method GetLongestWords(text: string, userId: string) returns (ws: seq<string>)
      requires Valid()
      modifies this
      ensures Valid() && records == old(records)
      ensures Key(text, userId) in old(cache) ==> ws == old(cache)[Key(text, userId)].longestWords && cache == old(cache)
      ensures Key(text, userId) !in old(cache) ==>
                cache == old(cache)[Key(text, userId) := ComputeStats(NormalizeContent(text))]
      ensures Key(text, userId) in cache && cache[Key(text, userId)].longestWords == ws
      ensures Key(text, userId) !in old(cache) || (DigestSound(digest) && Key(text, userId) != []) ==>
                ws == FindLongestWords(text)
    {
      var cacheKey := Key(text, userId);
      if cacheKey in cache {
        if DigestSound(digest) && cacheKey != [] {
          HitIsStatsOf(text, userId);
          StatsOfNormalized(cache[cacheKey], text);
        }
        return cache[cacheKey].longestWords;
      }
      var stats := AnalyzeNormalized(text, userId);
      StatsAreStatsOf(NormalizeContent(text));
      StatsOfNormalized(stats, text);
      ws := stats.longestWords;
    }

    /**
     * `getAnalyzeText`: the cached statistics, or fresh ones, which are
     * cached; nothing is stored in the repository. On a miss, and on a hit
     * for a real user and non-blank text, they are the statistics of the
     * normalised text.
     */
    method GetAnalyzeText(text: string, userId: string) returns (s: TextStats)
      requires Valid()
      modifies this
      ensures Valid() && records == old(records)
      ensures Key(text, userId) in old(cache) ==> s == old(cache)[Key(text, userId)] && cache == old(cache)
      ensures Key(text, userId) !in old(cache) ==> cache == old(cache)[Key(text, userId) := s]
      ensures Key(text, userId) in cache && cache[Key(text, userId)] == s
      ensures Key(text, userId) !in old(cache) || (DigestSound(digest) && Key(text, userId) != []) ==>
                s == ComputeStats(NormalizeContent(text))
    {
      var cacheKey := Key(text, userId);
      if cacheKey in cache {
        if DigestSound(digest) && cacheKey != [] {
          HitIsStatsOf(text, userId);
        }
        return cache[cacheKey];
      }
      s := AnalyzeNormalized(text, userId);
    }

    /** `getAllAnalyzeByUserId`: the stored analyses of one user, oldest first. */
    method GetAllAnalyzeByUserId(userId: string) returns (rs: seq<AnalysisRecord>)
      ensures rs == ForUser(records, userId)
      ensures forall x :: x in rs <==> x in records && x.userId == userId
    {
      rs := ForUser(records, userId);
    }
  }
}
