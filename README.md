# Chat-to-gift pipeline: the deterministic core in Dafny

This project models the rules of the chat-to-gift recommender that sit
around its learned models. A KakaoTalk chat export is split into per-date
message lists. Each date's messages are filtered for meaningful
conversation. The date then gets:

- a topic and a shopping category;
- an average intimacy score over adjacent message pairs;
- an interest-weighted keyword table.

The keywords and the intimacy tier choose a cached product-embedding file,
and the products are ranked by similarity to the top keywords. Beside the
pipeline sit four smaller rules:

- the web front end's gift search endpoint (budget and keyword filter,
  price parsing, top three, a lazily filled catalog cache);
- the dialogue awkwardness features (top-speaker share,
  acknowledgement/reaction ratio);
- the DDRel relation-label collection and its awkward flag;
- the analysis page's cross-date keyword merge, top five and
  relationship series.

Every learned or external component is a parameter of the model: a
function value the rules call and never look inside. These are the
interest classifier, noun extractor, keyphrase extractor, pair intimacy
scorer, topic model, sentence encoder with cosine similarity, file
existence, file loading and JSON decoding. The only assumptions made about
them are the ranges the code relies on (pair scores in [0, 8]; phrase
scores non-negative where a lemma says so).

The model follows the source's form:

- The loops that fill dictionaries and lists are methods with loop
  invariants. These are the line loop of the parser, the sentence, phrase
  and noun loops of the keyword weighter, the pair loop of the intimacy
  average, the per-date drivers, the catalog join, the DDRel file and line
  loops, and the page's keyword merge.
- Each such method is proved equal to a recursive specification function.
- The source's properties are proved about those functions as lemmas.
- The gift route's module-level cache is a class with a mutable field.

Modules: `Wrappers` (Option/Result), `Text` (strip, split, words, ASCII
lower case, digits), `Ordering` (code-point string order and sort, stable
descending sort by a real key, prefixes), `Rounding` (`round(x, 2)`), `Tally` (an insertion-ordered
score dictionary), then one module per component: `ChatParser`, `Validity`,
`Intimacy`, `Topic`, `Keywords`, `EmbeddingCache`, `Recommender`,
`Pipeline`, `Gifts`, `Awkward`, `Ddrel`, `AnalysisPage`.

Behaviour worth knowing before reading the table:

- **Message before any date header.** Such a message is not skipped. It
  reads the unbound `current_date` (`data_by_date[current_date]`) and
  raises, so `ChatParser.Dialogues` returns `Failure(UnboundDate)` exactly
  then (`ChatParser.ParseFailsIffMessageBeforeHeader`). A message that
  strips to the empty string is never appended, so it raises nothing.
- **Topic score range.** The formula `(clip + 2) / 4 * 8` gives scores in
  [0, 8], not the 0–5 its inline comment names; [0, 8] is what is proved.
- **Rounding.** `round(x, 2)` is applied to the topic score, the intimacy
  average and the response ratio (`Rounding.Round2`). The intimacy tier of
  the embedding cache is read from the rounded average, so an average just
  below a tier edge lands in the next tier (`EmbeddingCache.RoundedTier`).
- **Two copies of the keyword weighter.** The inference scripts treat
  `" " in kw` as multi-word and drop the endings 다/어/지/음. The
  training-side script treats `len(kw.split()) > 1` as multi-word and also
  drops 야. Both are modelled (`Keywords.Variant`). `Keywords.MultiWordCopiesDiffer`
  exhibits a phrase (a leading space) on which they disagree.

## Model

| member | source | states |
|---|---|---|
| Text.DigitRun | presentRecommend-ai/final_inference.py:144 | `\d+` at a position: the run of digits is maximal |
| Text.AllDigitsRun | presentRecommend-f/app/api/gifts/route.ts:34 | on a string of digits the run from any position reaches the end |
| ChatParser.MeridiemRun | presentRecommend-ai/final_inference.py:147 | `[오전\|오후]+`: the maximal run of the four class characters 오, 전, \|, 후 |
| ChatParser.ShortFieldEnd | presentRecommend-ai/final_inference.py:144 | `\d{1,2}` followed by a delimiter: one or two digits, then the delimiter |
| ChatParser.DateAt | presentRecommend-ai/final_inference.py:144 | a date match yields a year below 10000 and month and day below 100 |
| ChatParser.FirstDateAt | presentRecommend-ai/final_inference.py:144 | `re.search` for the date: the leftmost position where the pattern matches, or none anywhere |
| ChatParser.DateKey | presentRecommend-ai/final_inference.py:146 | the key has the shape `YYYY-MM-DD`, all fields digits |
| ChatParser.DateKeyRoundTrip | presentRecommend-ai/final_inference.py:146 | reading the zero-padded key back gives the same year, month and day |
| ChatParser.ExtractDateKeyLeftmost | presentRecommend-ai/train/keyword_extract.py:28-34 | `extract_date_key` gives a key iff the date pattern occurs, and then the key of the leftmost occurrence |
| ChatParser.TimeSenderEnd | presentRecommend-ai/final_inference.py:147 | `\s*\d{1,2}:\d{2},\s*[^:]+:` matched at a position ends just past a colon that lies after it |
| ChatParser.DotFieldEnd | presentRecommend-ai/final_inference.py:148 | `\d{1,2}\. ` spans at least three characters |
| ChatParser.PrefixEnd | presentRecommend-ai/final_inference.py:147-148 | the anchored prefix, when it matches, lies within the line, and the line is then also detected by the unanchored message search |
| ChatParser.MessageText | presentRecommend-ai/final_inference.py:148 | the anchored prefix is removed only when it matches, otherwise the whole line is kept, then stripped |
| ChatParser.HeaderTakesPrecedence | presentRecommend-ai/final_inference.py:144-147 | a line with a date is a header with the leftmost date's key even if it looks like a message; otherwise it is a message iff the message pattern occurs |
| ChatParser.StepLine | presentRecommend-ai/final_inference.py:143-150 | one more line: a header moves the cursor and appends nothing; a non-empty message is appended under the current cursor; anything else changes nothing |
| ChatParser.EmittedPrefix | presentRecommend-ai/final_inference.py:143-150 | the messages appended for a prefix of the lines are a prefix of those for all lines |
| ChatParser.LastHeaderIsMostRecent | presentRecommend-ai/final_inference.py:144-146 | the cursor is the key of the last header line read, and there is none before any header |
| ChatParser.NoHeaderNoCursor | presentRecommend-ai/final_inference.py:143-146 | without a header line the cursor is unset |
| ChatParser.EmittedSound | presentRecommend-ai/final_inference.py:147-150 | every appended message is the non-empty text of a message line, dated by the most recent header before it, in line order |
| ChatParser.EmittedComplete | presentRecommend-ai/final_inference.py:149-150 | every message line with non-empty text is appended |
| ChatParser.OrphanInPrefix | presentRecommend-ai/final_inference.py:150 | once a message before any header has been read the parse fails, whatever follows |
| ChatParser.ParseFailsIffMessageBeforeHeader | presentRecommend-ai/final_inference.py:143-150 | the parse raises exactly when a non-empty message line comes before every header |
| ChatParser.MessagesOnAbsent | presentRecommend-ai/final_inference.py:150 | a date that received no message has no list |
| ChatParser.GroupedAppend | presentRecommend-ai/final_inference.py:150 | appending a dated message extends that date's list by it and leaves other dates alone |
| ChatParser.ParseLines | presentRecommend-ai/final_inference.py:139-151 | the line loop with its cursor and `defaultdict(list)` computes the grouping, or the failure |
| ChatParser.Dialogues | presentRecommend-ai/final_inference.py:139-151 | the parse raises exactly when a message line with non-empty text comes before every date header, and the only error is the unbound date |
| ChatParser.ExtractDialogues | presentRecommend-ai/train/keyword_extract.py:39-51 | `extract_kakao_dialogues` (both copies): the loop's result equals `Dialogues(lines)` |
| Validity.IsValidConversation | presentRecommend-ai/final_inference.py:153-154 | a kept message has a Hangul syllable and, at no position, `http://`, `https://` or 총…금액; a message without a Hangul syllable is never kept |
| Validity.IsValidConversationStaged | presentRecommend-ai/train/keyword_extract.py:64-69 | the staged checks (no Hangul → false, URL or 총…금액 → false, else true) agree with the one-line predicate |
| Validity.ValidMessages | presentRecommend-ai/final_inference.py:213 | the filtered list holds exactly the valid messages, each taken from the input |
| Validity.ValidMessagesAppend | presentRecommend-ai/final_inference.py:213 | the comprehension keeps order and repeats: the filter of `a + b` is the filter of `a` followed by that of `b` |
| Validity.ValidMessagesSingle | presentRecommend-ai/final_inference.py:213 | one message is kept alone exactly when it is valid, else dropped |
| Validity.UrlRejects | presentRecommend-b/final_test.py:144-145 | a message containing `http://` or `https://` is rejected |
| Validity.TotalAmountRejects | presentRecommend-b/final_test.py:144-145 | a message containing 총, optional whitespace, 금액 is rejected |
| Validity.LeadingSpaceOfPrefix | presentRecommend-b/final_test.py:145 | `\s*` consumes exactly the whitespace gap before a non-space |
| Validity.JamoOnlyRejected | presentRecommend-ai/final_inference.py:154 | messages made only of jamo such as ㅋㅋㅋ have no character in 가-힣 and are rejected |
| Validity.HangulSentenceKept | presentRecommend-ai/final_inference.py:154 | a plain Hangul sentence without URL or amount marker is kept |
| Intimacy.Pairs | presentRecommend-ai/final_inference.py:163 | exactly n-1 pairs (none for an empty list), the i-th being (m[i], m[i+1]) |
| Intimacy.PairsSnoc | presentRecommend-ai/final_inference.py:163 | a new last message adds exactly one pair, with the previous last message |
| Intimacy.PairScores | presentRecommend-ai/final_inference.py:166-172 | one score per pair |
| Intimacy.AverageScore | presentRecommend-ai/final_inference.py:156-174 | 0.0 below two messages; otherwise the value whose product with the number of pairs is the sum of the pair scores (the mean) |
| Intimacy.IntimacyScore | presentRecommend-ai/final_inference.py:174 | the returned score: 0.0 below two messages, else the mean rounded to two decimals, within 0.005 of it |
| Intimacy.NoPairsNoScore | presentRecommend-ai/final_inference.py:160-161 | with fewer than two messages there are no pairs and the result is 0.0 whatever the scorer |
| Intimacy.SumBounds | presentRecommend-ai/final_inference.py:174 | a sum of n scores in [lo, hi] lies in [n·lo, n·hi] |
| Intimacy.AverageInRange | presentRecommend-ai/final_inference.py:171-174 | with pair scores in [0, 8] the average and its rounding both lie in [0, 8] |
| Intimacy.AvgScoreFromPairs | presentRecommend-b/final_test.py:116-128 | the pair loop appending to `scores`, then `round(_, 2)`, computes `IntimacyScore` |
| Topic.SubjectName | presentRecommend-ai/final_inference.py:134 | a known id gives a name from the table; an unknown id gives exactly 알 수 없음 |
| Topic.MainCategory | presentRecommend-ai/final_inference.py:135 | a known id gives one of the seven categories that have a product file; an unknown id gives exactly 없음 |
| Topic.TablesCoverSameIds | presentRecommend-ai/final_inference.py:48-54 | both subject tables have the same 18 ids |
| Topic.CategoriesMatchFiles | presentRecommend-ai/final_inference.py:51-65 | every mapped category has a product file and every product file is reached by some subject |
| Topic.Clip | presentRecommend-ai/final_inference.py:128 | the clip lies in [-2, 2], is the identity inside, and saturates outside |
| Topic.TopicScore | presentRecommend-ai/final_inference.py:129 | the rescaled score lies in [0, 8] |
| Topic.TopicScoreShape | presentRecommend-ai/final_inference.py:128-129 | the score is 2·(raw+2) inside [-2, 2], 8 above and 0 below |
| Topic.TopicScoreMonotone | presentRecommend-ai/final_inference.py:128-129 | the score is non-decreasing in the raw value |
| Topic.ClassifyTopicAndScore | presentRecommend-ai/final_inference.py:120-137 | the subject and category of `classify_topic`; the score rounded to two decimals, in [0, 8], within 0.005 of the unrounded score |
| Topic.ClassifyTopic | presentRecommend-ai/final_inference.py:176-181 | a known id gives its table name (never 알 수 없음) and a category that has a product file; any other id gives exactly (알 수 없음, 없음) |
| Topic.MissingIdsFallBack | presentRecommend-ai/final_inference.py:134-135 | ids 4 and 19 give (알 수 없음, 없음), and 없음 has no product file |
| Keywords.FilterNouns | presentRecommend-ai/final_inference.py:187 | keeps exactly the nouns that are not stopwords and are longer than one character |
| Keywords.Dedup | presentRecommend-ai/final_inference.py:187 | the set: each element once, nothing added or lost |
| Keywords.NounList | presentRecommend-ai/final_inference.py:187 | the noun set is duplicate-free and holds exactly the kept nouns of the sentence |
| Keywords.Multiplier | presentRecommend-ai/final_inference.py:190-191 | 2.5 for a multi-word phrase and 2.0 otherwise under label 1, 0.5 under any other label |
| Keywords.NounBonus | presentRecommend-ai/final_inference.py:193 | a positive bonus of 0.1 or 0.3, larger than 0.1 exactly under interest label 1 |
| Keywords.AddPhrases | presentRecommend-ai/final_inference.py:188-191 | the phrase loop keeps the table well formed |
| Keywords.AddNouns | presentRecommend-ai/final_inference.py:192-193 | the noun loop keeps the table well formed |
| Keywords.SentenceStep | presentRecommend-ai/final_inference.py:186-193 | one sentence keeps the table well formed |
| Keywords.Accumulate | presentRecommend-ai/final_inference.py:186 | the sentence loop keeps the table well formed |
| Keywords.Weights | presentRecommend-ai/final_inference.py:184-193 | the final table is well formed |
| Keywords.KeepEntries | presentRecommend-ai/final_inference.py:195 | keeps exactly the entries whose tokens have no dropped ending |
| Keywords.KeepEntriesAppend | presentRecommend-ai/final_inference.py:195 | the comprehension keeps order and repeats: filtering distributes over concatenation |
| Keywords.KeepEntriesSingle | presentRecommend-ai/final_inference.py:195 | one entry is kept alone exactly when its key passes the ending filter, else dropped |
| Keywords.ValidKeywordMatchesFilter | presentRecommend-ai/train/keyword_extract.py:36-37 | on a single token, `is_valid_keyword` is false iff it ends in 다, 어, 지 or 음, as in the key filter |
| Keywords.MultiWordCopiesDiffer | presentRecommend-ai/train/keyword_extract.py:117-119 | the two copies' multi-word tests disagree on a phrase with a leading space |
| Keywords.AddPhrasesScore | presentRecommend-ai/final_inference.py:188-191 | the phrase loop adds to each key exactly the weighted scores of the matched phrases equal to it |
| Keywords.AddNounsScore | presentRecommend-ai/final_inference.py:192-193 | over distinct nouns, each noun gains the bonus exactly once and no other key changes |
| Keywords.SentenceStepScore | presentRecommend-ai/train/keyword_extract.py:109-126 | a sentence adds its matched-phrase gain to a key, plus one bonus if the key is one of its nouns, whether or not a phrase matched |
| Keywords.AccumulateScore | presentRecommend-ai/final_inference.py:186-193 | every key's final score is the sum of its per-sentence gains |
| Keywords.InterestingNounAtLeastBonus | presentRecommend-ai/final_inference.py:192-193 | with non-negative phrase scores, a noun of a label-1 sentence ends with at least 0.3 |
| Keywords.PhraseGainNonNegative | presentRecommend-ai/final_inference.py:191 | non-negative phrase scores add a non-negative amount |
| Keywords.TotalGainBound | presentRecommend-ai/final_inference.py:193 | one label-1 noun bonus bounds the total gain below by 0.3 |
| Keywords.TotalGainNonNegative | presentRecommend-ai/final_inference.py:191-193 | with non-negative phrase scores every total gain is non-negative |
| Keywords.KeywordList | presentRecommend-ai/final_inference.py:195-196 | the returned list is sorted by score, highest first, and every entry is a kept key of the weight table with its accumulated score |
| Keywords.KeywordListSpec | presentRecommend-ai/final_inference.py:195-196 | the list is sorted by score, highest first; it holds exactly the kept keys of the table with their scores; equal scores keep first-insertion order |
| Keywords.Bump | presentRecommend-ai/final_inference.py:191 | `keyword_scores[k] += x` on the ordered dictionary is `Tally.Add` |
| Keywords.AddPhrasesStep | presentRecommend-ai/final_inference.py:188-191 | one more phrase adds its weighted score iff all its tokens are nouns |
| Keywords.WeighPhrases | presentRecommend-ai/final_inference.py:188-191 | the phrase loop computes `AddPhrases` |
| Keywords.WeighNouns | presentRecommend-ai/final_inference.py:192-193 | the noun loop computes `AddNouns` |
| Keywords.ExtractInterestWeightedKeywords | presentRecommend-ai/final_inference.py:183-196 | the nested loops followed by filter and sort compute `KeywordList` |
| EmbeddingCache.TierSuffix | presentRecommend-ai/final_inference.py:78-85 | "_2" iff s<2, "_3" iff 2≤s<3, "_4" iff 3≤s<4, "_5" iff s≥4 |
| EmbeddingCache.TierMonotone | presentRecommend-ai/final_inference.py:78-85 | the tier is one of 2..5 and never decreases as the score grows |
| EmbeddingCache.TierEdges | presentRecommend-ai/final_inference.py:78-85 | 2.0 gives "_3" and 4.0 gives "_5"; values just below stay in the lower tier |
| EmbeddingCache.RoundedTier | presentRecommend-ai/final_inference.py:174 | the tier of the rounded average differs from that of the raw average exactly when the average lies within 0.005 below 2, 3 or 4 (1.996 is "_2" raw but "_3" rounded) |
| EmbeddingCache.LastIndex | presentRecommend-ai/final_inference.py:87 | the position of the last occurrence of a character, or -1 |
| EmbeddingCache.LastIndexIs | presentRecommend-ai/final_inference.py:87 | a position holding the character with none after it is the last index |
| EmbeddingCache.Basename | presentRecommend-ai/final_inference.py:87 | `os.path.basename`: a slash-free suffix of the path, the whole path when it has no slash |
| EmbeddingCache.StemOf | presentRecommend-ai/final_inference.py:87 | `os.path.splitext(...)[0]`: a prefix cut at the last dot, unless the part before it is all dots |
| EmbeddingCache.BaseNameOfCsv | presentRecommend-ai/final_inference.py:87 | `dir/stem.csv` gives the base name `stem` |
| EmbeddingCache.TieredIsNotFallback | presentRecommend-ai/final_inference.py:88-94 | the tiered cache path never equals the fallback path |
| EmbeddingCache.TiersAreDistinct | presentRecommend-ai/final_inference.py:88 | different tiers name different cache files |
| EmbeddingCache.LoadEmbeddings | presentRecommend-ai/final_inference.py:74-100 | an unknown category gives []; otherwise the tiered cache if it exists, else the fallback if it exists, else [] |
| EmbeddingCache.UnknownCategoryNoLookup | presentRecommend-ai/final_inference.py:75-77 | for an unknown category the result is [] whatever the file system holds |
| EmbeddingCache.ResultFromCategoryArtifacts | presentRecommend-ai/final_inference.py:90-100 | a non-empty result comes from a known category's tiered cache, or its fallback when the tiered file is missing |
| EmbeddingCache.BeautyArtifactName | presentRecommend-ai/final_inference.py:87 | the beauty category's caches are named after `beauty` |
| Recommender.QueryUsesTopFive | presentRecommend-b/final_test.py:167 | the query depends only on the names of the first five keywords |
| Recommender.SimOf | presentRecommend-ai/final_inference.py:206 | the sort key is the similarity |
| Recommender.Recommend | presentRecommend-ai/final_inference.py:198-206 | no cached products gives []; otherwise one (name, similarity) pair per product, a permutation of the scored products, sorted by similarity, highest first |
| Recommender.RecommendIgnoresTail | presentRecommend-b/final_test.py:167 | keywords beyond the fifth do not change the ranking |
| Recommender.FirstMatch | presentRecommend-b/final_test.py:181-183 | the first row whose name contains the product name literally, or none |
| Recommender.JoinTopFiveSpec | presentRecommend-b/final_test.py:179-200 | at most five records, the i-th for the i-th ranked product, with its name and the category, and the first matching row's image, price and URL, or None / 정보 없음 / None |
| Recommender.CatalogResults | presentRecommend-b/final_test.py:162-201 | no cached products gives []; never more than five records |
| Recommender.RankedSpec | presentRecommend-b/final_test.py:170-173 | the ranking is sorted by similarity and holds every product once with its similarity |
| Recommender.JoinCatalog | presentRecommend-b/final_test.py:178-200 | the loop appending to `results` computes `JoinTopFive` |
| Recommender.RecommendWithCatalog | presentRecommend-b/final_test.py:162-201 | the catalog-joining `recommend_products_from_keywords` computes `CatalogResults` |
| Pipeline.KeysOf | presentRecommend-ai/final_inference.py:212 | the date keys, each once, exactly those of the map |
| Pipeline.BatchesSound | presentRecommend-ai/final_inference.py:212-215 | every batch is a listed date with its valid messages, never empty |
| Pipeline.BatchesIncreasing | presentRecommend-ai/final_inference.py:212 | batches follow the increasing order of the dates |
| Pipeline.BatchesComplete | presentRecommend-ai/final_inference.py:213-215 | every listed date with a valid message gets a batch |
| Pipeline.CollectBatches | presentRecommend-ai/final_inference.py:212-215 | the filter-and-skip loop computes `Batches` |
| Pipeline.DateBatches | presentRecommend-ai/train/keyword_extract.py:140-150 | dates in strictly ascending order, each with its valid messages, a date without valid messages skipped and every other date present |
| Pipeline.DateReport | presentRecommend-ai/final_inference.py:217-232 | the date kept; the category has a product file or is 없음 with 알 수 없음; the intimacy within 0.005 of the mean and in [0, 8] when the pair scores are; at most five keywords and five products, each list highest first |
| Pipeline.ReportDate | presentRecommend-ai/final_inference.py:217-232 | one date's topic, intimacy, top-5 keywords and top-5 products, computed by the loops, equal `DateReport` |
| Pipeline.RunInference | presentRecommend-ai/final_inference.py:208-232 | fails iff the parse fails; otherwise one report per date with a valid message, in ascending date order, each from that date's valid messages |
| Pipeline.ReportAll | presentRecommend-ai/final_inference.py:212-232 | the loop over the date batches produces one report per batch, the k-th equal to `DateReport` of the k-th batch |
| Pipeline.RunKeywordExtraction | presentRecommend-ai/train/keyword_extract.py:135-156 | the same date walk, returning per date the first ten entries of the training-side keyword list, which is what is printed; interest labels from one classifier call per sentence (`Labels`) |
| Tally.Add | presentRecommend-ai/final_inference.py:191 | `d[k] += v` on a `defaultdict(float)`: only k changes, by v; a new key is appended to the key order |
| Tally.Entries | presentRecommend-ai/final_inference.py:195 | `items()`: the keys in insertion order, each with its score; no name twice, and the names are exactly the table's keys |
| Text.Strip | presentRecommend-ai/final_inference.py:148 | `str.strip()` never lengthens |
| Text.StripSpec | presentRecommend-ai/final_inference.py:148 | the result is the input without surrounding whitespace; empty iff the input is all whitespace |
| Text.Words | presentRecommend-ai/final_inference.py:189 | `str.split()` gives non-empty words without whitespace |
| Text.SingleWord | presentRecommend-ai/final_inference.py:189 | a word without whitespace splits into itself |
| Text.SplitOn | presentRecommend-f/app/api/gifts/route.ts:66 | `split(sep)` gives at least one field and no field contains the separator |
| Text.JoinSplitOn | presentRecommend-f/app/api/gifts/route.ts:66 | joining the fields with the separator gives the input back |
| Text.FirstFieldBeforeSeparator | presentRecommend-ai/train/awkward_score.py:4 | the first field is the text before the first separator |
| Text.Lower | presentRecommend-f/app/api/gifts/route.ts:56-57 | `toLowerCase` on ASCII: same length, no capital left, other characters unchanged, each capital becomes its own small letter |
| Text.LowerIdempotent | presentRecommend-f/app/api/gifts/route.ts:56-57 | lower-casing twice is lower-casing once |
| Text.LowerAppend | presentRecommend-f/app/api/gifts/route.ts:56 | lower-casing `name + " " + brand` lower-cases each part |
| Text.PadDigitsValue | presentRecommend-ai/final_inference.py:146 | `{:04d}`/`{:02d}` padding reads back as the same number |
| Ordering.SortStrings | presentRecommend-ai/train/ddrel_score_and_awkward_label.py:11 | `sorted` on names: ordered by code points and a permutation of the input |
| Ordering.SortedDistinctIncreasing | presentRecommend-ai/final_inference.py:212 | sorted distinct keys are strictly increasing |
| Ordering.SortDesc | presentRecommend-ai/final_inference.py:196 | `sorted(..., reverse=True)` by a key: non-increasing and a permutation |
| Ordering.SortDescStable | presentRecommend-ai/final_inference.py:196 | elements with equal keys keep their input order |
| Ordering.SortDescLength | presentRecommend-ai/final_inference.py:196 | sorting keeps the length |
| Ordering.Take | presentRecommend-b/final_test.py:179 | `s[:n]`: the first min(n, len) elements |
| Ordering.TakeSortedDesc | presentRecommend-ai/final_inference.py:223 | the first n entries of a list sorted highest first are sorted highest first |
| Rounding.Round2Index | presentRecommend-ai/final_inference.py:174 | the kept number of hundredths is within half a hundredth of 100·x, and even on a tie |
| Rounding.Round2 | presentRecommend-ai/final_inference.py:174 | `round(x, 2)` is a multiple of 0.01 within 0.005 of x |
| Rounding.Round2Monotone | presentRecommend-ai/final_inference.py:174 | rounding never reverses the order of two values |
| Rounding.Round2OfHundredths | presentRecommend-ai/final_inference.py:174 | a value that already has two decimals is unchanged |
| Rounding.Round2Idempotent | presentRecommend-ai/final_inference.py:174 | rounding twice is rounding once |
| Rounding.Round2Between | presentRecommend-ai/final_inference.py:174 | a value between two whole numbers rounds to a value between them |
| Gifts.ParseInt | presentRecommend-f/app/api/gifts/route.ts:34 | `parseInt(s, 10)`: a string of digits reads as its base-10 value; a string without any digit is NaN |
| Gifts.ParseIntReadsAt | presentRecommend-f/app/api/gifts/route.ts:65 | a string read as leading whitespace, an optional sign and a digit run that a non-digit or the end stops parses to the signed value of that run |
| Gifts.ParseIntReads | presentRecommend-f/app/api/gifts/route.ts:65 | the same for `w + sg + d + rest`: " 50000" is 50000, "-1" is -1, "50000원" is 50000 |
| Gifts.ParseIntNaN | presentRecommend-f/app/api/gifts/route.ts:65 | `parseInt` is NaN exactly when no digit follows the leading whitespace and the optional sign |
| Gifts.KeepDigits | presentRecommend-f/app/api/gifts/route.ts:34 | `replace(/[^0-9]/g, '')` leaves only digits |
| Gifts.KeepDigitsAppend | presentRecommend-f/app/api/gifts/route.ts:34 | the replacement works character by character over concatenation |
| Gifts.ParsePriceDigits | presentRecommend-f/app/api/gifts/route.ts:34 | the price is the base-10 value of the cell's digits in order, and NaN when the cell has none |
| Gifts.SeparatorsIgnored | presentRecommend-f/app/api/gifts/route.ts:34 | inserting a non-digit anywhere never changes the price |
| Gifts.ToGiftItems | presentRecommend-f/app/api/gifts/route.ts:31-37 | one gift item per record, in order, text columns copied; the price is NaN exactly when the price cell has no digit, else the value of its digits |
| Gifts.Affordable | presentRecommend-f/app/api/gifts/route.ts:53 | keeps exactly the items whose price is at most the budget (false when either is NaN), as a sub-multiset |
| Gifts.Matching | presentRecommend-f/app/api/gifts/route.ts:54-58 | keeps exactly the items that match the keywords, as a sub-multiset |
| Gifts.AffordableAppend | presentRecommend-f/app/api/gifts/route.ts:53 | the budget filter keeps order and repeats: it distributes over concatenation |
| Gifts.AffordableSingle | presentRecommend-f/app/api/gifts/route.ts:53 | one item is kept alone exactly when it is within budget, else dropped |
| Gifts.MatchingAppend | presentRecommend-f/app/api/gifts/route.ts:54-58 | the keyword filter keeps order and repeats: it distributes over concatenation |
| Gifts.MatchingSingle | presentRecommend-f/app/api/gifts/route.ts:54-58 | one item is kept alone exactly when it matches the keywords, else dropped |
| Gifts.FilterGiftItems | presentRecommend-f/app/api/gifts/route.ts:47-60 | every returned item is within budget and matches the keywords; the result is a sub-multiset of the input, sorted by price, highest first |
| Gifts.FilterGiftItemsSpec | presentRecommend-f/app/api/gifts/route.ts:47-60 | the result holds exactly the items within budget that match a lower-cased keyword in lower-cased "name brand"; it is a sub-multiset of the input, sorted by price non-increasing, with ties in input order |
| Gifts.NoKeywordsNoFilter | presentRecommend-f/app/api/gifts/route.ts:55 | with no keywords only the budget filters |
| Gifts.NaNBudgetEmpty | presentRecommend-f/app/api/gifts/route.ts:53 | a non-numeric budget leaves no item |
| Gifts.ParseKeywords | presentRecommend-f/app/api/gifts/route.ts:66 | no parameter gives no keywords; a present parameter is split on commas and always gives at least one |
| Gifts.ParseIntDigits | presentRecommend-f/app/api/gifts/route.ts:65 | `parseInt` of a digit string is its value |
| Gifts.DefaultBudgetValue | presentRecommend-f/app/api/gifts/route.ts:65 | a missing or empty budget parameter reads as 200000 |
| Gifts.Respond | presentRecommend-f/app/api/gifts/route.ts:76-86 | never a server error for a loaded catalog; 404 exactly when nothing passes the filter; otherwise one to three items, within budget, matching, most expensive first |
| Gifts.RespondSpec | presentRecommend-f/app/api/gifts/route.ts:76-86 | 404 exactly when nothing passes the filter, otherwise the first min(3, n) filtered items in order |
| Gifts.GiftRoute.constructor | presentRecommend-f/app/api/gifts/route.ts:14 | the cache starts empty |
| Gifts.GiftRoute.Get | presentRecommend-f/app/api/gifts/route.ts:62-94 | the catalog is read only while the cache is empty and kept once read; a failed read answers 500 with the message and leaves the cache empty; otherwise the answer is computed on the cached catalog |
| Awkward.Speaker | presentRecommend-ai/train/awkward_score.py:4 | a speaker name contains no colon |
| Awkward.SpeakerBeforeFirstColon | presentRecommend-ai/train/awkward_score.py:4 | the speaker is the stripped text before the first colon |
| Awkward.Speakers | presentRecommend-ai/train/awkward_score.py:4 | at most one speaker per message |
| Awkward.SpeakersSpec | presentRecommend-ai/train/awkward_score.py:4 | one speaker per message containing a colon, taken from such a message, and every such message contributes its speaker |
| Awkward.MaxCountAmong | presentRecommend-ai/train/awkward_score.py:8 | the largest count among the first k elements, attained by one of them |
| Awkward.MaxCount | presentRecommend-ai/train/awkward_score.py:5-8 | `max(Counter(s).values())`: bounds every count and is attained; between 1 and the length for a non-empty list |
| Awkward.NoSpeakersNoRatio | presentRecommend-ai/train/awkward_score.py:6-7 | with no message containing a colon the ratio is 0 |
| Awkward.ResponseRatio | presentRecommend-ai/train/awkward_score.py:4-9 | 0 without speakers; with a speaker the top speaker's share, in (0, 1] and at least one over the number of distinct speakers |
| Awkward.GetResponseRatio | presentRecommend-ai/train/awkward_score.py:9 | the ratio rounded to two decimals: 0 without speakers, always in [0, 1], within 0.005 of the share |
| Awkward.TopShareBounds | presentRecommend-ai/train/awkward_score.py:8 | the top element's share of a non-empty list lies in (0, 1] and is at least 1/(distinct elements) |
| Awkward.LengthAtMostDistinctTimesMax | presentRecommend-ai/train/awkward_score.py:8 | the total count is at most the number of distinct speakers times the top count |
| Awkward.CountIn | presentRecommend-ai/train/awkward_score.py:15-16 | the count of messages whose stripped text is in a word set is at most the number of messages |
| Awkward.AckReactRatio | presentRecommend-ai/train/awkward_score.py:14-17 | division by zero exactly for the empty dialogue |
| Awkward.CountInDisjointUnion | presentRecommend-ai/train/awkward_score.py:15-16 | counts against two disjoint sets add up to the count against their union |
| Awkward.WordSetsDisjoint | presentRecommend-ai/train/awkward_score.py:11-12 | the acknowledgement and reaction sets share no word |
| Awkward.AtMostOneWordPerMessage | presentRecommend-ai/train/awkward_score.py:11-16 | each message adds at most one to the numerator |
| Awkward.AckReactRatioBounds | presentRecommend-ai/train/awkward_score.py:17 | the ratio of a non-empty dialogue lies in [0, 1] |
| Ddrel.LineRecord | presentRecommend-ai/train/ddrel_score_and_awkward_label.py:17-26 | an undecodable line gives nothing; a record is produced exactly for an object with a truthy context (`context`, else `컨텍스트`) and a non-None label that convert, and it holds their joined text and integer; the line aborts exactly when the value is not an object or the join or the conversion fails, with the join's error first |
| Ddrel.JoinContext | presentRecommend-ai/train/ddrel_score_and_awkward_label.py:22 | `" ".join`: succeeds exactly on a list of strings, a string or an object; the only error is the conversion error; a one-string list joins to that string |
| Ddrel.IntOfString | presentRecommend-ai/train/ddrel_score_and_awkward_label.py:24 | `int` of a string: a string of digits reads as its base-10 value; a blank string does not convert |
| Ddrel.IntOfStringReadsAt | presentRecommend-ai/train/ddrel_score_and_awkward_label.py:24 | whitespace, an optional sign, digits and whitespace read as the signed value of the digits |
| Ddrel.IntOfStringReads | presentRecommend-ai/train/ddrel_score_and_awkward_label.py:24 | the same for `w + sg + d + w2`: " -3 " is -3 |
| Ddrel.IntOfStringNone | presentRecommend-ai/train/ddrel_score_and_awkward_label.py:24 | `int` of a string converts exactly when the string has that shape, and raises for any other string |
| Ddrel.IntOf | presentRecommend-ai/train/ddrel_score_and_awkward_label.py:24 | `int(label)`: a number is itself, a boolean 0 or 1, a digit string its value; None, a list or an object raises; every failure is the conversion error |
| Ddrel.ListContextJoined | presentRecommend-ai/train/ddrel_score_and_awkward_label.py:22 | a non-empty list of strings is truthy and becomes its items joined by single spaces |
| Ddrel.FileRecordsAppend | presentRecommend-ai/train/ddrel_score_and_awkward_label.py:16-24 | the rows of two runs of lines are those of the first followed by those of the second, and the first abort wins |
| Ddrel.BrokenLineSkipped | presentRecommend-ai/train/ddrel_score_and_awkward_label.py:25-26 | a line that is not valid JSON changes nothing |
| Ddrel.TextFiles | presentRecommend-ai/train/ddrel_score_and_awkward_label.py:12 | keeps exactly the names ending in ".txt" |
| Ddrel.VisitOrderSpec | presentRecommend-ai/train/ddrel_score_and_awkward_label.py:11-12 | the files read are exactly the folder's ".txt" names, in sorted order |
| Ddrel.TextFilesSorted | presentRecommend-ai/train/ddrel_score_and_awkward_label.py:11-12 | keeping the ".txt" names of a sorted list keeps it sorted |
| Ddrel.ReadFile | presentRecommend-ai/train/ddrel_score_and_awkward_label.py:15-26 | the line loop appending to `texts`/`labels` computes `FileRecords` |
| Ddrel.CollectRecords | presentRecommend-ai/train/ddrel_score_and_awkward_label.py:11-26 | the file loop computes the rows of the whole folder, file order then line order |
| Ddrel.AbortPersists | presentRecommend-ai/train/ddrel_score_and_awkward_label.py:24 | an uncaught error on a line aborts the whole file with that error |
| Ddrel.BadLineAborts | presentRecommend-ai/train/ddrel_score_and_awkward_label.py:17-26 | a line that decodes but fails to convert stops its file with that error, whatever lines follow |
| Ddrel.ListLabelAborts | presentRecommend-ai/train/ddrel_score_and_awkward_label.py:24 | `{"context": "ab", "label": []}` aborts with the conversion error rather than being skipped |
| Ddrel.TailFailureAborts | presentRecommend-ai/train/ddrel_score_and_awkward_label.py:11-24 | an uncaught error in a file aborts the whole run with that error |
| Ddrel.Score | presentRecommend-ai/train/ddrel_score_and_awkward_label.py:34-47 | a label has a score iff it is in the table |
| Ddrel.AwkwardFlag | presentRecommend-ai/train/ddrel_score_and_awkward_label.py:50 | 1 iff there is a score and it is at most 3.0, else 0 |
| Ddrel.Labelled | presentRecommend-ai/train/ddrel_score_and_awkward_label.py:28-52 | one row per record, text and label copied; a score exactly for the ten listed labels; the awkward flag set exactly for labels 8, 10, 11, 13 |
| Ddrel.AwkwardLabels | presentRecommend-ai/train/ddrel_score_and_awkward_label.py:34-50 | exactly the ten labels 1, 3, 4, 5, 6, 7, 8, 10, 11, 13 have scores; exactly 8, 10, 11, 13 are awkward |
| AnalysisPage.MergeOne | presentRecommend-f/app/analysis/page.tsx:91-95 | one keyword keeps the record well formed |
| AnalysisPage.MergeOneAdds | presentRecommend-f/app/analysis/page.tsx:91-95 | the truthy check's two branches together add the score, as `+=` on a zero default would |
| AnalysisPage.MergeAll | presentRecommend-f/app/analysis/page.tsx:89-96 | the merge keeps the record well formed |
| AnalysisPage.Merged | presentRecommend-f/app/analysis/page.tsx:88-97 | the merged record is well formed |
| AnalysisPage.MergeAllSums | presentRecommend-f/app/analysis/page.tsx:88-97 | each name's merged score is the sum of its scores, and exactly the mentioned names are present |
| AnalysisPage.MergedSums | presentRecommend-f/app/analysis/page.tsx:88-97 | the merged score of a name is the sum of its scores over all date results |
| AnalysisPage.MergeKeywords | presentRecommend-f/app/analysis/page.tsx:89-97 | the outer `forEach` computes `Merged` |
| AnalysisPage.MergeResult | presentRecommend-f/app/analysis/page.tsx:90-96 | the inner `forEach` over one result extends the merge by its keywords |
| AnalysisPage.TopKeywordsSpec | presentRecommend-f/app/analysis/page.tsx:88-102 | at most five distinct names, sorted by merged value non-increasing, each with its summed score, and no left-out name scores above a shown one |
| AnalysisPage.TopKeywords | presentRecommend-f/app/analysis/page.tsx:99-102 | five entries whenever the record has five names, else all of them, highest value first, no name twice, each a key of the merged record with its score |
| AnalysisPage.TopEntries | presentRecommend-f/app/analysis/page.tsx:99-102 | the first five entries of the record sorted by value: five whenever there are five names, none better left out |
| AnalysisPage.Relationship | presentRecommend-f/app/analysis/page.tsx:105-108 | one point per result, in result order, with that result's date and intimacy |
| AnalysisPage.RelationshipAppend | presentRecommend-f/app/analysis/page.tsx:105-108 | the series of concatenated results is the concatenation of the series |
| AnalysisPage.NoBetterLeftOut | presentRecommend-f/app/analysis/page.tsx:101-102 | a name not shown scores no more than every shown one |
| AnalysisPage.SortedEntries | presentRecommend-f/app/analysis/page.tsx:99-101 | the sorted entries are distinct and each carries its name's score |
| AnalysisPage.Page | presentRecommend-f/app/analysis/page.tsx:29-108 | no file id shows 파일 ID가 없습니다.; a shown analysis has at most five keywords, sorted, and one relationship point per result; nothing is rendered exactly when the thrown message is empty |
| AnalysisPage.MissingFileIdNoCall | presentRecommend-f/app/analysis/page.tsx:37-41 | without a file id the page shows 파일 ID가 없습니다. whatever the analysis would answer |
| AnalysisPage.PageShowsAnalysis | presentRecommend-f/app/analysis/page.tsx:105-108 | after a successful analysis the page shows the top keywords and one relationship point per result, in order, with date and intimacy unchanged |

## Left out

- The learned models and their libraries (KoBERT forward passes, softmax and argmax, KeyBERT, Okt, SentenceTransformer encoding, `util.cos_sim`, `torch.load`): they are function parameters. Pair scores are assumed to lie in [0, 8], which `sigmoid * 8` guarantees.
- `round(x, 2)` is modelled on exact reals, rounding a tie to the even hundredth. Python rounds the binary double instead, so a decimal tie such as 1.995, stored as 1.99499…, rounds down there and up here.
- Floating-point behaviour (NaN beyond the missing-price, missing-budget and unlisted-label cases, infinities, precision): reals are exact.
- Unicode classes: `\d`, `\s`, `str.strip()`, `str.split()`, `int()`, `parseInt` and `toLowerCase()` are modelled on ASCII digits, the six whitespace characters tab, line feed, vertical tab, form feed, carriage return and space, and ASCII letters. Non-ASCII digits and spaces and non-ASCII case mapping are not modelled.
- `Text.IsSpace`: Python's `str.isspace`, `strip()`, `split()` and the `re` class `\s` also count the ASCII separators U+001C to U+001F as whitespace; the model does not, so `Strip("\x1f")` is `"\x1f"` here and empty in Python. JavaScript's `parseInt` does not count them either, and agrees with the model on ASCII.
- File reading, printing, `os.makedirs`, the stopword file and CSV parsing: the lines of a file, the CSV rows (or the read error) and the stopword set are inputs.
- Python set iteration order of the per-sentence noun set: the nouns are visited in first-occurrence order. Since every distinct noun gets the same bonus, only the insertion order of new keys (and so the order of equal-score keywords) depends on this.
- `Ordering.SortStrings` and the date order compare by code point: Python's `str` ordering on these keys. Sorting is modelled by insertion sort; only its result matters.
- JavaScript `Object.entries` lists integer-like keys first; the model uses plain insertion order. A keyword named like an `Object.prototype` property (such as "constructor") is not modelled.
- `Gifts.ParsePriceDigits`: `parseInt` on more than 15–16 digits loses precision beyond 2^53; the model reads the exact integer.
- A catalog row without a '가격' column (which makes `readGiftItems` throw) is not modelled: records always carry the five columns.
- `Ddrel.IntOf`: `int()` of a float label, of a string with underscores or non-ASCII digits, and `UnicodeDecodeError` while reading a file are not modelled; a label string is whitespace, an optional sign and ASCII digits.
- The DDRel JSON decoder is an input (`decode`, None for a line that is not valid JSON); floats inside JSON are not modelled.
- `uuid.uuid4()` ids of the catalog-joined recommendations: random, left out of the records.
- The analysis page's loading state, React rendering, context updates and the HTTP call: the call is an input (`analyze`), and the model describes what is shown once loading ends.
- The training and model-definition scripts, the offline embedding build, the Flask and Next.js handlers other than the gift route, and the UI pages other than the analysis page's merge, top five and series: they are not part of this model.
