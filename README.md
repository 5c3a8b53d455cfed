# Text analyzer backend core, modelled in Dafny

This project models the sequential core of the text-analyzer backend. It covers:

- **Text utilities** (`TextUtils`): `normalizeContent` does five things:
  - turns CR/CRLF line endings into LF;
  - collapses runs of three or more LFs into two;
  - collapses whitespace runs inside each line into one space;
  - trims each line;
  - trims the whole text.

  `generateHash` is the content hash, `""` for empty content. `generateCacheKey` builds `text-analysis:<userId>:<hash>`.
- **The text entity** (`TextAnalyzerEntity`): a class holding the normalised content, its hash and optionally its statistics. Its methods are the constructor, `updateContent`, `hasContentChanged`, `getAnalyzeText` and the five statistic getters. The counting helpers are pure functions:
  - word count;
  - non-whitespace character count;
  - sentence ends;
  - paragraphs;
  - longest words.
- **The rate limiter** (`RateLimiterService.isRateLimited`): a fixed-window counter per device over a map of `{count, timestamp}` records.
- **The device guard** (`DeviceThrottlerGuard.canActivate`): picks the device key from the `device-id` header, the address, or `"anonymous"`. It asks the limiter once and lets the request through or refuses it.
- **The analysis service** (`TextAnalyzerService`): a statistics cache (a `map` field) and the text repository (an append-only `seq` field). It covers `analyzeText` (cache hit, miss, and a repository write that fails), the five `get*` methods, `getAnalyzeText` and `getAllAnalyzeByUserId`.

Each regular expression is a scanning function over `seq<char>`. The whitespace set is the one JavaScript's `\s` and `trim` use. The split on `/\n\s*\n+/` is modelled as JavaScript's backtracking scan. It is then proved equal to an independent count of whitespace gaps holding at least two line feeds (`Paragraphs.CountParagraphsIsBreaks`).

Three behaviours of the code are worth stating outright:

- **No penalty box.** The limiter has none. A device over its limit stays refused until its window ends. Refused requests are not counted.
- **Normalisation is not idempotent.** A whitespace-only line between blank lines survives the blank-run collapse and only then becomes empty. So `"a\n \n\nb"` normalises to `"a\n\n\nb"`, which normalises again to `"a\n\nb"`. `NormalizeProperties.NormalizeNotIdempotent` proves this. `NormalizeProperties.NormalizeIdempotentIff` states exactly when normalising twice changes nothing. `Renormalize.RenormalizeKeepsStats` proves that the second pass never changes the statistics. That matters because the service's `get*` methods analyse text that is already normalised.
- **No fail-open failure policy.** The guard has none. Whatever the limiter reports decides the outcome.

Files:

| file | contents |
|---|---|
| `wrappers.dfy` | `Option` |
| `whitespace.dfy` | the whitespace set, `trim`, and splitting into words |
| `text_utils.dfy` | `normalizeContent`, `generateHash`, `generateCacheKey` |
| `normalize_properties.dfy` | what normalisation preserves and produces, and when it is a fixed point |
| `paragraphs.dfy` | the paragraph split and its reference count |
| `text_counts.dfy` | the counting helpers and `computeStats` |
| `longest_words_examples.dfy` | the longest-words cases of the entity's tests, and one with UTF-16 surrogate pairs |
| `count_examples.dfy` | the word, character, sentence and paragraph counts the entity's tests and the end-to-end tests expect |
| `renormalize.dfy` | normalising normalised text keeps the statistics |
| `text_entity.dfy` | `TextAnalyzerEntity` |
| `rate_limiter.dfy` | `RateLimiterService` |
| `device_guard.dfy` | `DeviceThrottlerGuard` |
| `text_service.dfy` | `TextAnalyzerService` and the repository records |

## Model

| member | source | states |
|---|---|---|
| Whitespace.Trim | backend/src/common/utils/text-analysis.utils.ts:21 | the result has no whitespace at either end, is no longer than the input, and is empty exactly when the input is all whitespace |
| Whitespace.TokensAreWords | backend/src/modules/text-analyzer/domain/entities/text.entity.ts:129 | every word of `split(/\s+/)` kept by the filter is a non-empty run without whitespace |
| Whitespace.TokensOfTrim | backend/src/modules/text-analyzer/domain/entities/text.entity.ts:92 | trimming before the split does not change the words |
| TextUtils.CrToLf | backend/src/common/utils/text-analysis.utils.ts:8 | replacing every CR by LF keeps the length and leaves no CR |
| TextUtils.CollapseBlankRuns | backend/src/common/utils/text-analysis.utils.ts:11 | collapsing LF runs never lengthens the text or introduces a character |
| TextUtils.CollapseSpaces | backend/src/common/utils/text-analysis.utils.ts:16 | no two whitespace characters stay adjacent; the result is empty exactly when the line is; it starts with whitespace exactly when the line does; it introduces no character but a space |
| TextUtils.TidyLine | backend/src/common/utils/text-analysis.utils.ts:16 | a tidied line has no double whitespace and none at either end, and is no longer than the line |
| TextUtils.TidyLines | backend/src/common/utils/text-analysis.utils.ts:15-17 | the map keeps the number of lines and tidies each line in place |
| TextUtils.SplitLinesChars | backend/src/common/utils/text-analysis.utils.ts:14 | the lines from the split hold no LF and only characters of the text |
| TextUtils.NormalizeContent | backend/src/common/utils/text-analysis.utils.ts:4-24 | empty input gives `""`; the result has no CR and no whitespace at either end |
| TextUtils.GenerateHash | backend/src/common/utils/text-analysis.utils.ts:25-28 | empty content hashes to `""`, other content to its digest |
| TextUtils.GenerateCacheKey | backend/src/common/utils/text-analysis.utils.ts:30-34 | the key is `""` exactly when the user id or the content is empty, and otherwise is `text-analysis:` + user id + `:` + hash |
| NormalizeProperties.JoinSplitLines | backend/src/common/utils/text-analysis.utils.ts:14-18 | joining the lines of the split with LF gives back the text |
| NormalizeProperties.TidyLineTokens | backend/src/common/utils/text-analysis.utils.ts:16 | tidying a line keeps its words |
| NormalizeProperties.NormalizePreservesTokens | backend/src/common/utils/text-analysis.utils.ts:4-24 | normalisation keeps exactly the words of the text, in order |
| NormalizeProperties.NormalizeLinesTidy | backend/src/common/utils/text-analysis.utils.ts:14-21 | no line of the result has two adjacent whitespace characters or whitespace at either end |
| NormalizeProperties.NormalizeShape | backend/src/common/utils/text-analysis.utils.ts:8-21 | the result has no CR and is trimmed, and every line of its split is tidy |
| NormalizeProperties.CrLfToLfNoCr | backend/src/common/utils/text-analysis.utils.ts:8 | the CRLF replacement changes nothing in text without CR |
| NormalizeProperties.CollapseBlankRunsNoTriple | backend/src/common/utils/text-analysis.utils.ts:11 | the blank-run replacement changes nothing in text without three LFs in a row |
| NormalizeProperties.CollapseBlankRunsShrinks | backend/src/common/utils/text-analysis.utils.ts:11 | the blank-run replacement strictly shortens text with three LFs in a row |
| NormalizeProperties.NormalizeFixedPoint | backend/src/common/utils/text-analysis.utils.ts:4-24 | text without CR, trimmed, with tidy lines and no triple LF normalises to itself |
| NormalizeProperties.NormalizeShrinks | backend/src/common/utils/text-analysis.utils.ts:11 | text without CR but with a triple LF strictly shrinks under normalisation |
| NormalizeProperties.NormalizeIdempotentIff | backend/src/common/utils/text-analysis.utils.ts:4-24 | normalising twice equals normalising once exactly when the once-normalised text holds no triple LF |
| NormalizeProperties.NormalizeNotIdempotentValue | backend/src/common/utils/text-analysis.utils.ts:11-18 | `"a\n \n\nb"` normalises to `"a\n\n\nb"` |
| NormalizeProperties.NormalizeNotIdempotent | backend/src/common/utils/text-analysis.utils.ts:11-18 | normalising `"a\n \n\nb"` a second time changes it |
| NormalizeProperties.CacheKeySeparatesUsers | backend/src/common/utils/text-analysis.utils.ts:30-34 | when hashes hold no `:`, equal non-empty keys have the same user id and the same hash |
| Paragraphs.SpaceRunEnd | backend/src/modules/text-analyzer/domain/entities/text.entity.ts:120 | the end of the whitespace run that `\s*` takes: everything before it is whitespace and the character at it is not |
| Paragraphs.LastLfIn | backend/src/modules/text-analyzer/domain/entities/text.entity.ts:120 | the last LF in a range, where `\n+` ends after backtracking, or none when the range holds no LF |
| Paragraphs.SplitFrom | backend/src/modules/text-analyzer/domain/entities/text.entity.ts:120 | `split` always gives at least one piece |
| Paragraphs.NonBlank | backend/src/modules/text-analyzer/domain/entities/text.entity.ts:125 | the filter keeps only pieces that are not blank |
| Paragraphs.SplitFromCount | backend/src/modules/text-analyzer/domain/entities/text.entity.ts:120 | the split gives one piece more than the separators it matches |
| Paragraphs.SepCountIsBreaks | backend/src/modules/text-analyzer/domain/entities/text.entity.ts:120 | the separators the regular expression matches are exactly the maximal whitespace gaps holding at least two LFs |
| Paragraphs.PiecesNonBlank | backend/src/modules/text-analyzer/domain/entities/text.entity.ts:117-125 | on trimmed text no piece of the split is blank, so the filter removes nothing |
| Paragraphs.CountParagraphsIsBreaks | backend/src/modules/text-analyzer/domain/entities/text.entity.ts:110-126 | blank text has 0 paragraphs; other text has one more than the paragraph breaks of its line-ending-normalised, trimmed form |
| Paragraphs.CountParagraphsPositive | backend/src/modules/text-analyzer/domain/entities/text.entity.ts:110-126 | the paragraph count is 0 exactly for blank text |
| TextCounts.CountWordsIsTokens | backend/src/modules/text-analyzer/domain/entities/text.entity.ts:91-94 | the word count is the number of maximal non-whitespace runs, and 0 exactly for blank text |
| TextCounts.Utf16Length | backend/src/modules/text-analyzer/domain/entities/text.entity.ts:97 | `.length` counts UTF-16 code units: at least one and at most two per character |
| TextCounts.Utf16LengthAppend | backend/src/modules/text-analyzer/domain/entities/text.entity.ts:97 | the `.length` of a concatenation is the sum of the two lengths |
| TextCounts.CountCharactersIsWordLengths | backend/src/modules/text-analyzer/domain/entities/text.entity.ts:96-98 | the character count is the total `.length` of the words, which is the `.length` of the text with its whitespace removed; a character outside the Basic Multilingual Plane counts 2 |
| TextCounts.CountSentencesIsPositions | backend/src/modules/text-analyzer/domain/entities/text.entity.ts:100-108 | the sentence count is the number of positions holding `.`, `?` or `!` followed by space, CR, LF or the end, so it is at most the length |
| TextCounts.CountSentencesExample | backend/src/modules/text-analyzer/domain/entities/text.entity.ts:100-108 | `"Hello! How are you? I am fine."` has 3 sentences |
| TextCounts.MaxLengthBounds | backend/src/modules/text-analyzer/domain/entities/text.entity.ts:130 | no word is longer than the maximum, some word reaches it, and the maximum of no words is 0 |
| TextCounts.MaxLengthAppend | backend/src/modules/text-analyzer/domain/entities/text.entity.ts:130 | the maximum over two lists together is the larger of their maxima |
| TextCounts.WithLengthMembers | backend/src/modules/text-analyzer/domain/entities/text.entity.ts:131 | the filter keeps exactly the words of the given length, and never lengthens the list |
| TextCounts.WithLengthAppend | backend/src/modules/text-analyzer/domain/entities/text.entity.ts:131 | the filter works word by word in order: filtering a concatenation is concatenating the filtered parts, and one word is kept exactly when it has the length |
| TextCounts.WithLengthCounts | backend/src/modules/text-analyzer/domain/entities/text.entity.ts:131 | every occurrence of a word of the length is kept and no other word, so duplicates survive |
| TextCounts.LongestMembers | backend/src/modules/text-analyzer/domain/entities/text.entity.ts:130-131 | the words of maximal length are the words no other word is longer than, all of one length; there are some exactly when the list is not empty |
| TextCounts.LongestCounts | backend/src/modules/text-analyzer/domain/entities/text.entity.ts:130-131 | each word of maximal length is kept as often as it occurs, and no other word |
| TextCounts.LongestWordsSpec | backend/src/modules/text-analyzer/domain/entities/text.entity.ts:128-132 | the longest words are exactly the words no word is longer than, all of one length, each as often as the text has it; there are none exactly when the text has no word |
| TextCounts.StatsIgnoreNormalization | backend/src/modules/text-analyzer/domain/entities/text.entity.ts:156-172 | word count, character count and longest words are the same before and after normalisation |
| TextCounts.StatsOfBlank | backend/src/modules/text-analyzer/domain/entities/text.entity.ts:156-172 | blank text has all counts zero and no longest word; other text has a word and at least one paragraph |
| CountExamples.SampleCounts | backend/src/modules/text-analyzer/domain/entities/text.entity.spec.ts:60-76 | the test sample has 16 words and 60 characters outside whitespace |
| CountExamples.EntitySampleCounts | backend/src/modules/text-analyzer/domain/entities/text.entity.spec.ts:60-76 | an entity built on the test sample reports 16 words and 60 characters |
| CountExamples.TestTextCounts | backend/test/text-analyzer.e2e-spec.ts:216-266 | `"This is a test text."` is already normalised and has 5 words, 16 characters, 1 sentence and 1 paragraph |
| CountExamples.ParagraphTextCounts | backend/src/modules/text-analyzer/domain/entities/text.entity.spec.ts:107-114 | three lines separated by two blank lines normalise to text with 3 paragraphs |
| CountExamples.EntityParagraphCount | backend/src/modules/text-analyzer/domain/entities/text.entity.spec.ts:107-114 | an entity built on that three-paragraph text reports 3 paragraphs |
| LongestWordsExamples.SampleLongestWords | backend/src/modules/text-analyzer/domain/entities/text.entity.spec.ts:117-121 | the longest words of the test sample are `["quick", "brown", "jumps", "slept"]`, in text order |
| LongestWordsExamples.HelloLongestWords | backend/src/modules/text-analyzer/domain/entities/text.entity.spec.ts:123-130 | in `"hello world words"` all three words tie, and all three are kept in order |
| LongestWordsExamples.AstralLongestWords | backend/src/modules/text-analyzer/domain/entities/text.entity.ts:128-132 | two emoji outside the Basic Multilingual Plane have length 4 and beat `"abc"`; the text counts 7 characters |
| LongestWordsExamples.EntitySampleLongestWords | backend/src/modules/text-analyzer/domain/entities/text.entity.spec.ts:117-121 | an entity built on the sample text returns `["quick", "brown", "jumps", "slept"]` |
| LongestWordsExamples.EntityTiedLongestWords | backend/src/modules/text-analyzer/domain/entities/text.entity.spec.ts:123-130 | an entity built on `"hello world words"` returns all three words |
| Renormalize.RenormalizeIsCollapse | backend/src/common/utils/text-analysis.utils.ts:4-24 | normalising text already in normalised shape only collapses its blank-line runs |
| Renormalize.CollapseBlankRunsEnds | backend/src/modules/text-analyzer/domain/entities/text.entity.ts:100-108 | collapsing LF runs keeps the sentence count |
| Renormalize.CollapseBlankRunsBreaks | backend/src/modules/text-analyzer/domain/entities/text.entity.ts:120 | collapsing LF runs keeps the paragraph breaks |
| Renormalize.ParagraphsAgree | backend/src/modules/text-analyzer/domain/entities/text.entity.ts:110-126 | collapsing LF runs of trimmed text without CR keeps the paragraph count |
| Renormalize.RenormalizeKeepsStats | backend/src/modules/text-analyzer/application/services/text-analyer.service.ts:66-68 | the statistics of twice-normalised text equal those of once-normalised text |
| TextEntity.TextAnalyzerEntity.constructor | backend/src/modules/text-analyzer/domain/entities/text.entity.ts:11-19 | the content is the normalised input, the hash is its hash, there are no statistics, and the invariant holds |
| TextEntity.TextAnalyzerEntity.UpdateContent | backend/src/modules/text-analyzer/domain/entities/text.entity.ts:22-33 | reports a change exactly when the hash of the normalised new content differs; on a change it stores that content and its hash and drops the statistics; otherwise nothing changes |
| TextEntity.TextAnalyzerEntity.HasContentChanged | backend/src/modules/text-analyzer/domain/entities/text.entity.ts:36-40 | gives the answer `updateContent` would give, without changing anything; text that normalises to the current content is no change |
| TextEntity.TextAnalyzerEntity.GetAnalyzeText | backend/src/modules/text-analyzer/domain/entities/text.entity.ts:49-54 | returns the statistics of the content and stores them; content and hash stay |
| TextEntity.TextAnalyzerEntity.GetWordCount | backend/src/modules/text-analyzer/domain/entities/text.entity.ts:66-69 | the number of words of the content |
| TextEntity.TextAnalyzerEntity.GetCharacterCount | backend/src/modules/text-analyzer/domain/entities/text.entity.ts:71-74 | the total length of the words of the content |
| TextEntity.TextAnalyzerEntity.GetSentenceCount | backend/src/modules/text-analyzer/domain/entities/text.entity.ts:76-79 | the number of sentence-end positions of the content |
| TextEntity.TextAnalyzerEntity.GetParagraphCount | backend/src/modules/text-analyzer/domain/entities/text.entity.ts:81-84 | 0 for empty content, otherwise one more than its paragraph breaks |
| TextEntity.TextAnalyzerEntity.GetLongestWords | backend/src/modules/text-analyzer/domain/entities/text.entity.ts:86-89 | the result is `findLongestWords` of the content: the words no word outruns, in text order, each as often as the content has it; none exactly when the content has no word |
| RateLimiter.Check | backend/src/common/services/rate-limiter.service.ts:20-59 | after a call the device has a record, no other record changes, and a refused call leaves the map as it was |
| RateLimiter.CheckRefusesIff | backend/src/common/services/rate-limiter.service.ts:26-44 | a call is refused exactly when the device has a record inside its window whose count has reached the limit |
| RateLimiter.CheckInsideWindow | backend/src/common/services/rate-limiter.service.ts:28-43 | a call inside the open window under the limit is allowed, raises the count by exactly one and keeps the window's opening timestamp |
| RateLimiter.CheckAfterWindow | backend/src/common/services/rate-limiter.service.ts:45-58 | an unknown device, or one whose window has passed, is allowed and gets `{count: 1, timestamp: now}` |
| RateLimiter.CheckKeepsCountsBounded | backend/src/common/services/rate-limiter.service.ts:36-43 | every stored count stays between 1 and the larger of the limit and 1 |
| RateLimiter.RunLeavesOthers | backend/src/common/services/rate-limiter.service.ts:22-55 | a call for one device neither adds, removes nor changes another device's record |
| RateLimiter.RunSnoc | backend/src/common/services/rate-limiter.service.ts:20-59 | a run of calls is the calls one after another, each seeing the map the previous one left |
| RateLimiter.RunInsideWindow | backend/src/common/services/rate-limiter.service.ts:30-44 | inside one window the i-th further call is refused exactly when the stored count plus i has reached the limit, and the window keeps its opening timestamp |
| RateLimiter.BurstFromFresh | backend/src/common/services/rate-limiter.service.ts:36-57 | starting a new window, calls within it are allowed up to the limit (always the first) and refused after, and the window stays anchored at the first call's time |
| RateLimiter.RateLimiterService.constructor | backend/src/common/services/rate-limiter.service.ts:14-18 | limit and window come from configuration, defaulting to 10 and 60000 ms; the map is empty |
| RateLimiter.RateLimiterService.IsRateLimited | backend/src/common/services/rate-limiter.service.ts:20-59 | the answer and the new map are those of one check at `now`, and the count bound is preserved |
| DeviceGuard.DeviceKey | backend/src/common/guards/device-throttler.guard.ts:20-25 | a single-string header is the key; otherwise the address; otherwise `"anonymous"` |
| DeviceGuard.HeaderlessRequestsShareByAddress | backend/src/common/guards/device-throttler.guard.ts:22-25 | requests without a single header share a key exactly when they come from the same address |
| DeviceGuard.DeviceThrottlerGuard.constructor | backend/src/common/guards/device-throttler.guard.ts:15 | the guard uses the given limiter |
| DeviceGuard.DeviceThrottlerGuard.CanActivate | backend/src/common/guards/device-throttler.guard.ts:17-36 | the limiter is consulted once with the device key; the request is allowed exactly when it is not limited, and refused with `Too Many Requests` otherwise |
| DeviceGuard.GuardBurst | backend/src/common/guards/device-throttler.guard.ts:17-36 | a burst inside one fresh window lets through the first request and up to the limit, and refuses the rest |
| TextService.ForUser | backend/src/modules/text-analyzer/infrastructure/repositories/text.repository.ts:31-33 | exactly the records of the user |
| TextService.ForUserAppend | backend/src/modules/text-analyzer/infrastructure/repositories/text.repository.ts:14-33 | storing a record adds it at the end of its own user's records and leaves other users' records alone |
| TextService.StatsOfNormalized | backend/src/modules/text-analyzer/application/services/text-analyer.service.ts:35-36 | statistics of the normalised text have the word count, character count and longest words of the text as submitted |
| TextService.KeyEmptyIff | backend/src/modules/text-analyzer/application/services/text-analyer.service.ts:22-23 | the cache key is `""` exactly when the user id is empty or the text is blank |
| TextService.KeyNamesOneText | backend/src/modules/text-analyzer/application/services/text-analyer.service.ts:22-23 | with a digest that tells texts apart and leaves out `:`, a non-empty key names one user and one normalised text |
| TextService.CacheSoundStore | backend/src/modules/text-analyzer/application/services/text-analyer.service.ts:40 | storing the statistics of a text under its key keeps every cached entry the statistics of the text its key names |
| TextService.TextAnalyzerService.constructor | backend/src/modules/text-analyzer/application/services/text-analyer.service.ts:13-16 | an empty cache over the stored records |
| TextService.TextAnalyzerService.HitIsStatsOf | backend/src/modules/text-analyzer/application/services/text-analyer.service.ts:26-32 | with a sound digest, a cache hit under a non-empty key holds the statistics of the normalised text |
| TextService.TextAnalyzerService.Store | backend/src/modules/text-analyzer/application/services/text-analyer.service.ts:40 | the cache gains the entry and the records stay |
| TextService.TextAnalyzerService.Append | backend/src/modules/text-analyzer/infrastructure/repositories/text.repository.ts:14-25 | the records gain exactly the one record at the end and the cache stays |
| TextService.TextAnalyzerService.AnalyzeText | backend/src/modules/text-analyzer/application/services/text-analyer.service.ts:18-52 | a failed write returns nothing and changes nothing; on a hit it returns the cached statistics and writes no cache; on a miss it computes the statistics of the normalised text and caches them; every success appends exactly one record of user, original text and result |
| TextService.TextAnalyzerService.AnalyzeNormalized | backend/src/modules/text-analyzer/application/services/text-analyer.service.ts:66-69 | analysing the already normalised text gives the statistics of the normalised text, stored under the key; records stay |
| TextService.TextAnalyzerService.GetWordCount | backend/src/modules/text-analyzer/application/services/text-analyer.service.ts:54-71 | a hit returns the cached field and writes nothing; a miss caches the full statistics; the result is the cached field, and the word count of the text on a miss; no record is appended |
| TextService.TextAnalyzerService.GetCharacterCount | backend/src/modules/text-analyzer/application/services/text-analyer.service.ts:73-89 | as for the word count, with the total length of the words |
| TextService.TextAnalyzerService.GetSentenceCount | backend/src/modules/text-analyzer/application/services/text-analyer.service.ts:91-107 | as for the word count, with the sentence count of the normalised text |
| TextService.TextAnalyzerService.GetParagraphCount | backend/src/modules/text-analyzer/application/services/text-analyer.service.ts:109-136 | as for the word count, with the paragraph count of the normalised text |
| TextService.TextAnalyzerService.GetLongestWords | backend/src/modules/text-analyzer/application/services/text-analyer.service.ts:138-154 | as for the word count, with the longest words of the text |
| TextService.TextAnalyzerService.GetAnalyzeText | backend/src/modules/text-analyzer/application/services/text-analyer.service.ts:156-172 | a hit returns the cached statistics and writes nothing; a miss computes, caches and returns the statistics of the normalised text; no record is appended |
| TextService.TextAnalyzerService.GetAllAnalyzeByUserId | backend/src/modules/text-analyzer/application/services/text-analyer.service.ts:174-179 | exactly the stored records of the user, in storage order |

## Left out

- The MD5 digest (`createHash('md5')`) is the parameter `digest`. Only `generateHash("") == ""` is fixed. Statements that need distinct texts to hash apart name that assumption (`TextService.DigestSound`). The rest hold for any digest.
- `null` and `undefined` content are the empty string. JavaScript's falsy test treats them like `""`, and the model has no separate value for them.
- `Date.now()` is the parameter `now`. The configuration lookups are the constructor's optional parameters, with no string-to-number coercion.
- Promises, `async`/`await`, `setImmediate`, the logger and `console.log` are left out. Each computation is a plain function or method.
- The entity's `initializeStats` and private `analyzeText` are left out. That path lower-cases the text and nothing in the modelled core calls it.
- The cache manager's own failures are not modelled. Neither are `get`/`set` rejections or expiry. The cache is a map that only the service writes.
- TextService.TextAnalyzerService.AnalyzeText: a failed repository write is the flag `persistFails`. Its exception is not modelled as a value, and the write is assumed to fail before anything is stored.
- The repository is an append-only sequence of `(userId, content, stats)`. `find({ userId })` is assumed to return records in storage order. Document ids, timestamps and the other repository operations are not part of this model.
- TextService.TextAnalyzerService.GetWordCount and the other `get*` methods: on a hit with a non-empty key, the returned field equals the statistics of the text only under `DigestSound`. An arbitrary digest may make two texts share a key.
- The empty cache key is shared. When the user id is empty or the text is blank, every such call uses the key `""`, which the cache manager stores like any other key. `TextService.KeyEmptyIff` states when that happens.
- `backend/src/common/guards/throttler.guard.ts` is not part of this model. Its counting and blocking live in the `@nestjs/throttler` library.
- The limiter has no penalty box and the guard has no fail-open policy, so the model has neither.
- The guard's logging and the request object are reduced to the `device-id` header and the address (`""` when Express has none).
- Controllers, DTO validation, Mongoose schemas, authentication and the frontend are outside the core.
- Unicode case folding and normalisation are not involved. `\s` is the fixed whitespace set of JavaScript.
- Strings are sequences of Unicode scalar values (`char`), not of UTF-16 code units. Every string `.length` whose value the core uses is `TextCounts.Utf16Length`, which counts a character outside the Basic Multilingual Plane as two units. Splitting on whitespace sees the same words either way, because every `\s` character lies in that plane.
- JavaScript strings holding a lone surrogate have no counterpart, since a Dafny `char` cannot be one.
