# GLMTK core in Dafny

This project models and proves properties of the core of GLMTK, the Generalized Language Modeling Toolkit:

- **Query cache builder** (`QueryCacherCreator`). For every pattern it collects the distinct window sequences of the query file. It sorts them as a `TreeSet` does. It then merge-joins them with the pattern's master count file and writes the matching count lines into the query cache.
- **Word index** (`WordIndex`). It reads the bucket boundary words and sends a word to its bucket by binary search.
- **Statistics helper** (`StatisticalNumberHelper`). It keeps named counters and running min/max/sum/count records.
- **Maximum-likelihood estimator** of the typology smoother (`MaximumLikelihoodEstimator`): the sequence and the history it counts.
- **Estimator base class** (`AbstractEstimator`): the full sequence and full history of a query, the default configuration, and how the configuration is forwarded to the substitute estimator.
- **Fast GLM estimator** (`FastGeneralizedLanguageModelAbsEstimator`) and **fast MKN estimator** (`FastModifiedKneserNeyAbsEstimator`): the recursive probability calculation and the memoised modified-Kneser-Ney discounts.

One Dafny module covers each source class, in files like `query_cacher_creator.dfy`, `word_index.dfy`, `statistical_number_helper.dfy`, `mle.dfy`, `abstract_estimator.dfy`, `fast_glm.dfy` and `fast_mkn.dfy`. Shared modules cover the rest:

- `Wrappers`: `Option`.
- `Text`: Java's `String.compareTo`, `indexOf`, `split("\t")[0]` and truncating `/`.
- `Patterns`: a pattern as its position symbols.
- `NGrams`: n-grams, caches, count records and the discount formula.

## How each part is modelled

- **Loops and state.** Code whose loops update state is written as methods with loop invariants on classes with fields. Each method is proved equal to a pure specification function, for example `Join` for the merge-join and `GlmProbability` for the GLM estimate. The properties are then lemmas about those functions.
- **Collaborators.** Code the core calls but that is not part of this model becomes a function-valued field of a parameter datatype. This covers `Pattern.apply`, `StringUtils`, the `NGram` operations, the caches and `Discount.getForCount`.
- **Termination.** The estimators' recursion ends because of an abstract size measure. A precondition requires every differentiated or backed-off history to be smaller by that measure.
- **Files.** The master and cache files are a `Disk` value passed in and returned: the lines of each existing file, plus the set of existing directories. A failing run returns the disk as it stands at the failure. The query file is given by its lines.
- **Exceptions.** An exception is a `None` result, or a `null` result. An `IOException` of `FilterAndWriteSequenceCounts`, `CachePattern`, `Call` or `CreateQueryCache` is `ok == false`, returned with the disk as the failing step left it. The `IllegalArgumentException` of the MKN `setBackoffMode` is `accepted == false`, and the estimator is left unchanged.

## Model

| member | source | states |
|---|---|---|
| Text.CompareToZero | src/main/java/de/typology/indexing/WordIndex.java:59-64 | `compareTo` is zero exactly for equal strings |
| Text.CompareToFlip | src/main/java/de/typology/indexing/WordIndex.java:59-62 | `a.compareTo(b) < 0` exactly when `b.compareTo(a) > 0` |
| Text.LessTransitive | src/main/java/de/glmtk/counting/QueryCacherCreator.java:96 | the `compareTo` order a `TreeSet` sorts by is transitive |
| Text.LessTrichotomy | src/main/java/de/glmtk/counting/QueryCacherCreator.java:96 | the `compareTo` order is a strict total order |
| Text.IndexOf | src/main/java/de/glmtk/counting/QueryCacherCreator.java:120 | `indexOf` is -1 exactly when the character is absent; otherwise it is the first position holding it |
| Text.Key | src/main/java/de/glmtk/counting/QueryCacherCreator.java:120-121 | the sequence of a count line is the line up to its first tab: a tab-free prefix that is cut at a tab or is the whole line |
| Text.Split | src/main/java/de/typology/indexing/WordIndex.java:38 | defines `String.split("\t")` with limit 0: no tab gives the line itself, even when empty; otherwise the tab-separated fields with trailing empty fields removed |
| Text.FirstField | src/main/java/de/typology/indexing/WordIndex.java:38 | `split("\t")[0]`: `None` (the exception) exactly when Java's `split` returns an empty array, and otherwise that array's first element. `Split` models `split` on its own: the whole line when there is no tab (even for an empty line), else the tab-separated fields with the trailing empty ones dropped |
| Text.JavaDiv | src/main/java/de/typology/indexing/WordIndex.java:58-69 | Java's `/` truncates toward zero: the remainder `a - q * b` is smaller than `b` in magnitude and is either zero or has the sign of `a` |
| Text.TruncatingDivisionOfMinusOne | src/main/java/de/typology/indexing/WordIndex.java:69 | on an empty index `(lo + hi) / 2` is 0 in Java, whereas Euclidean division would give -1 |
| WordIndex.WordIndex.Empty | src/main/java/de/typology/indexing/WordIndex.java:22 | a new index holds no words |
| WordIndex.WordIndex.Read | src/main/java/de/typology/indexing/WordIndex.java:31-41 | construction fails exactly when some line's `split("\t")[0]` throws; otherwise the index holds the first field of every line, in order |
| WordIndex.WordIndex.Rank | src/main/java/de/typology/indexing/WordIndex.java:54-70 | 0 for an empty index; otherwise an index in range. On a sorted index: a present word's position; for an absent word, the last entry below it when one exists, and 0 when none does |
| Statistics.MinOf | src/main/java/de/glmtk/utils/StatisticalNumberHelper.java:56-58 | the running minimum is a sample and no sample is smaller |
| Statistics.MaxOf | src/main/java/de/glmtk/utils/StatisticalNumberHelper.java:53-55 | the running maximum is a sample and no sample is larger |
| Statistics.MinAtMostMax | src/main/java/de/glmtk/utils/StatisticalNumberHelper.java:72-73 | a record that has seen a sample reports min <= max |
| Statistics.Add | src/main/java/de/glmtk/utils/StatisticalNumberHelper.java:53-60 | defines how one sample updates a record: a new maximum, a new minimum, the sum and the count |
| Statistics.AddSummarizes | src/main/java/de/glmtk/utils/StatisticalNumberHelper.java:47-61 | adding a sample to the fresh record (MIN_VALUE, MAX_VALUE, 0, 0), or to a record of xs, gives the record of xs + [x]: count, sum, min and max |
| Statistics.StatisticalNumberHelper.constructor | src/main/java/de/glmtk/utils/StatisticalNumberHelper.java:29-32 | no counters and no averages |
| Statistics.StatisticalNumberHelper.Count | src/main/java/de/glmtk/utils/StatisticalNumberHelper.java:34-36 | `count(name)` adds one to the name's counter and changes nothing else |
| Statistics.StatisticalNumberHelper.CountBy | src/main/java/de/glmtk/utils/StatisticalNumberHelper.java:38-45 | `count(name, n)` adds n to the counter, which starts at 0 when missing; nothing else changes |
| Statistics.StatisticalNumberHelper.Average | src/main/java/de/glmtk/utils/StatisticalNumberHelper.java:47-61 | the name's record, created on first use, takes in the sample; other records and the counters are unchanged; every record still summarises its samples |
| Statistics.StatisticalNumberHelper.Reset | src/main/java/de/glmtk/utils/StatisticalNumberHelper.java:77-79 | `reset()` forgets all averages and keeps the counters |
| Statistics.StatisticalNumberHelper.StoredRecordsAreCounted | src/main/java/de/glmtk/utils/StatisticalNumberHelper.java:69-74 | every stored record has count >= 1 (so `print`'s division is defined) and min <= max |
| QueryCacherCreator.ShortLineHasNoWindows | src/main/java/de/glmtk/counting/QueryCacherCreator.java:88 | a line with fewer tokens than the pattern's size contributes no sequence |
| QueryCacherCreator.WindowsMembers | src/main/java/de/glmtk/counting/QueryCacherCreator.java:80-91 | a sequence is collected exactly when some line has a window at an offset in 0..split.length - size that projects to it |
| QueryCacherCreator.CollectSequences | src/main/java/de/glmtk/counting/QueryCacherCreator.java:74-93 | the two nested loops fill the set with exactly the window sequences of all lines |
| QueryCacherCreator.Insert | src/main/java/de/glmtk/counting/QueryCacherCreator.java:96 | inserting a new element into a strictly ascending list keeps it strictly ascending, with exactly one more element |
| QueryCacherCreator.SortedQueue | src/main/java/de/glmtk/counting/QueryCacherCreator.java:95-96 | the `TreeSet` copy lists the set's elements strictly ascending, each once |
| QueryCacherCreator.SortedOf | src/main/java/de/glmtk/counting/QueryCacherCreator.java:96 | the ascending listing of a set is strictly sorted and has exactly the set's members |
| QueryCacherCreator.SortedUnique | src/main/java/de/glmtk/counting/QueryCacherCreator.java:96 | two strictly sorted lists with the same members are equal, so the `TreeSet` order is determined |
| QueryCacherCreator.NeededSequences | src/main/java/de/glmtk/counting/QueryCacherCreator.java:73-97 | `neededSequences` is the strictly ascending list of the distinct window sequences |
| QueryCacherCreator.SortedIsDistinct | src/main/java/de/glmtk/counting/QueryCacherCreator.java:95-96 | a strictly ascending queue holds no duplicates |
| QueryCacherCreator.Join | src/main/java/de/glmtk/counting/QueryCacherCreator.java:118-133 | defines the outer read loop: each master line in turn runs the inner polling loop (`Poll`) from the current queue head, and every polled entry equal to the line's key writes the line |
| QueryCacherCreator.Poll | src/main/java/de/glmtk/counting/QueryCacherCreator.java:124-132 | the inner loop only moves the queue head forward and never past the end |
| QueryCacherCreator.PollUpTo | src/main/java/de/glmtk/counting/QueryCacherCreator.java:124-132 | the inner loop polls and writes as `Poll` says, and has written the rendering of the emitted lines |
| QueryCacherCreator.MergeLines | src/main/java/de/glmtk/counting/QueryCacherCreator.java:118-133 | the read loop over the master file produces `Join`'s head and lines, and writes them line by line with `\n` |
| QueryCacherCreator.FilterSequenceCounts | src/main/java/de/glmtk/counting/QueryCacherCreator.java:109-135 | writes `Join` of the master lines and the queue; an empty queue writes nothing; the queue left over is a suffix of the queue |
| QueryCacherCreator.JoinProperties | src/main/java/de/glmtk/counting/QueryCacherCreator.java:109-135 | each written line is a master line whose key is needed; no key is written more often than it is needed; with distinct needed keys the output is a subsequence of the matching master lines; with both sides strictly ascending it is exactly the matching master lines, in order |
| QueryCacherCreator.JoinNothing | src/main/java/de/glmtk/counting/QueryCacherCreator.java:114-116 | with an empty queue nothing is written and the head stays at 0 |
| QueryCacherCreator.PatternFiles | src/main/java/de/glmtk/counting/QueryCacherCreator.java:99-107 | defines the pair of files for a pattern: the master file and the cache file, both named after the pattern, in the absolute or the continuation directories by the pattern's kind |
| QueryCacherCreator.PatternFilesFacts | src/main/java/de/glmtk/counting/QueryCacherCreator.java:99-107 | both files are named after the pattern and lie in the directory pair of the pattern's kind; different patterns get different cache files; with separate directories no cache file is a master file |
| QueryCacherCreator.CachedIsMatching | src/main/java/de/glmtk/counting/QueryCacherCreator.java:73-135 | for a master file with strictly ascending keys, a cache file holds exactly the master lines whose key is a window sequence of the query, and only such lines |
| QueryCacherCreator.Creator.constructor | src/main/java/de/glmtk/counting/QueryCacherCreator.java:147 | the pattern queue starts empty |
| QueryCacherCreator.Creator.CreateQueryCache | src/main/java/de/glmtk/counting/QueryCacherCreator.java:151-187 | with no patterns it returns before touching anything. Otherwise both target directories exist afterwards, whether or not the run fails. With separate directories it fails exactly when some master file is missing. The cache files written are then those of the patterns the set hands out before that one. On success every pattern's cache file holds its merge-join |
| QueryCacherCreator.CreatedOutcome | src/main/java/de/glmtk/counting/QueryCacherCreator.java:166-186 | once both target directories exist, draining the queue fails exactly when a master file is missing |
| QueryCacherCreator.Enumerate | src/main/java/de/glmtk/counting/QueryCacherCreator.java:177-178 | the queue holds every pattern of the set exactly once |
| QueryCacherCreator.Worker.constructor | src/main/java/de/glmtk/counting/QueryCacherCreator.java:40-44 | a worker belongs to its creator and starts with an empty queue |
| QueryCacherCreator.Worker.ExtractSequences | src/main/java/de/glmtk/counting/QueryCacherCreator.java:73-97 | the worker's queue becomes the ascending distinct window sequences of the query for its pattern |
| QueryCacherCreator.Worker.GetPatternFiles | src/main/java/de/glmtk/counting/QueryCacherCreator.java:99-107 | absolute patterns use the absolute directories and other patterns the continuation directories, with the pattern's name as the file name |
| QueryCacherCreator.Worker.FilterAndWriteSequenceCounts | src/main/java/de/glmtk/counting/QueryCacherCreator.java:109-135 | fails exactly when the master file or the cache directory is missing, and then leaves the disk as it was. Otherwise only the cache file changes: it receives the merge-join of the master file (when the two are different files). The queue left over is a suffix |
| QueryCacherCreator.Worker.CachePattern | src/main/java/de/glmtk/counting/QueryCacherCreator.java:56-58 | the three steps fail exactly when the pattern's files are not ready, and then change nothing on disk; otherwise only the cache file changes, receiving the merge-join when it is not the master file |
| QueryCacherCreator.Worker.Call | src/main/java/de/glmtk/counting/QueryCacherCreator.java:47-71 | the queue is drained in order and the directories never change. With separate directories the run fails exactly when some pattern is not ready. The files are then those left by the patterns before the first pattern that is not ready. On success the queue is empty and every cache file holds its merge-join |
| QueryCacherCreator.CachedPrefixStep | src/main/java/de/glmtk/counting/QueryCacherCreator.java:48-58 | caching one more pattern keeps every earlier cache file and master file as it was |
| QueryCacherCreator.CachedAllOnFailure | src/main/java/de/glmtk/counting/QueryCacherCreator.java:48-58 | the pattern that fails is the first one that is not ready, and the files are those the patterns before it left |
| QueryCacherCreator.CachedAllOnSuccess | src/main/java/de/glmtk/counting/QueryCacherCreator.java:48-67 | after the whole queue every pattern's cache file holds its merge-join |
| QueryCacherCreator.OverlaySource | src/main/java/de/glmtk/counting/QueryCacherCreator.java:48-58 | with separate directories, writing cache files never alters a master file |
| QueryCacherCreator.OverlayTargets | src/main/java/de/glmtk/counting/QueryCacherCreator.java:48-58 | each cache file written by the run holds its own pattern's merge-join; later patterns do not overwrite it |
| NGrams.Max | src/main/java/de/glmtk/querying/estimator/fast/FastGeneralizedLanguageModelAbsEstimator.java:76 | `Math.max` is an upper bound equal to one of its arguments |
| NGrams.DiscountClosedForm | src/main/java/de/glmtk/querying/estimator/fast/FastGeneralizedLanguageModelAbsEstimator.java:86-102 | getDiscounts' formula has the closed forms d1 = (n1 - n2)/(n1 + n2), d2 = 2 - 3 n1 n3/((n1 + n2) n2), d3 = 3 - 4 n1 n4/((n1 + n2) n3) |
| NGrams.DiscountBounds | src/main/java/de/glmtk/querying/estimator/fast/FastModifiedKneserNeyAbsEstimator.java:103-119 | the discounts satisfy -1 < d1 < 1, d2 < 2 and d3 <= 3 |
| AbstractEstimator.FullSequence | src/main/java/de/glmtk/querying/estimator/AbstractEstimator.java:48-51 | the full sequence is the history followed by the sequence; `MaximumLikelihoodEstimator.getSequence` (its lines 48-58) builds the same list from the condition and the requested words |
| AbstractEstimator.FullHistory | src/main/java/de/glmtk/querying/estimator/AbstractEstimator.java:53-59 | the full history is the history followed by one `SKP_WORD` per word of the sequence; `MaximumLikelihoodEstimator.getHistory` builds the same list with its skipped word |
| AbstractEstimator.GetFullHistory | src/main/java/de/glmtk/querying/estimator/AbstractEstimator.java:53-59 | the loop builds exactly the full history |
| AbstractEstimator.FullHistoryMasksFullSequence | src/main/java/de/glmtk/querying/estimator/AbstractEstimator.java:48-59 | the full history has the full sequence's length and history part, with the skip word wherever the full sequence has a sequence word |
| AbstractEstimator.AbstractEstimator.constructor | src/main/java/de/glmtk/querying/estimator/AbstractEstimator.java:77-85 | name "Unnamed", no cache, MARG. A substitute estimator has no substitute; any other estimator gets a fresh one with the same defaults |
| AbstractEstimator.AbstractEstimator.Unigram | src/main/java/de/glmtk/querying/estimator/AbstractEstimator.java:78-79 | an AbsoluteUnigramEstimator, which is a substitute, has no substitute and the defaults |
| AbstractEstimator.AbstractEstimator.SetCache | src/main/java/de/glmtk/querying/estimator/AbstractEstimator.java:102-108 | the cache is set on the estimator and, when there is one, on its substitute; name and mode are unchanged |
| AbstractEstimator.AbstractEstimator.SetProbMode | src/main/java/de/glmtk/querying/estimator/AbstractEstimator.java:115-121 | the mode is set on the estimator and, when there is one, on its substitute; name and cache are unchanged |
| MaximumLikelihoodEstimator.GetHistory | src/main/java/de/typology/smoothing/MaximumLikelihoodEstimator.java:63-75 | the loop builds the condition followed by one skipped word per requested word, the same list as getFullHistory with the condition as history (so `FullHistoryMasksFullSequence` applies to it); this is the list as intended, and the throwing case is `HistoryAsWritten` |
| MaximumLikelihoodEstimator.Numerator | src/main/java/de/typology/smoothing/MaximumLikelihoodEstimator.java:16-26 | defines getNumerator: the count of the condition followed by the requested words |
| MaximumLikelihoodEstimator.Denominator | src/main/java/de/typology/smoothing/MaximumLikelihoodEstimator.java:28-43 | defines getDenominator as intended: the word count for an empty history, otherwise the history's count |
| MaximumLikelihoodEstimator.FractionCounts | src/main/java/de/typology/smoothing/MaximumLikelihoodEstimator.java:16-43 | the numerator counts cond + req; the denominator is the word count when both are empty, and otherwise the count of cond + skips |
| MaximumLikelihoodEstimator.SequenceAsWritten | src/main/java/de/typology/smoothing/MaximumLikelihoodEstimator.java:48-58 | defines getSequence as written: it throws (`None`) when the capacity `req.size() + cond.size() - 1` is negative |
| MaximumLikelihoodEstimator.HistoryAsWritten | src/main/java/de/typology/smoothing/MaximumLikelihoodEstimator.java:63-75 | defines getHistory as written: it throws (`None`) for the same negative capacity |
| MaximumLikelihoodEstimator.DenominatorAsWritten | src/main/java/de/typology/smoothing/MaximumLikelihoodEstimator.java:28-43 | defines getDenominator as written, on top of the throwing getHistory |
| MaximumLikelihoodEstimator.EmptyHistoryBranchIsDead | src/main/java/de/typology/smoothing/MaximumLikelihoodEstimator.java:28-68 | as written, both lists empty make `getHistory` and `getSequence` throw, and every denominator returned is the count of a non-empty history |
| FastGlm.GlmProbability | src/main/java/de/glmtk/querying/estimator/fast/FastGeneralizedLanguageModelAbsEstimator.java:56-84 | defines the value calcProbability computes. An unseen full history gives the unigram frequency of the sequence, and a history of skips the plain fraction. Otherwise it is the clipped discounted fraction plus gamma times the mean estimate over the differentiated histories |
| FastGlm.BetaSum | src/main/java/de/glmtk/querying/estimator/fast/FastGeneralizedLanguageModelAbsEstimator.java:77-81 | defines the running sum of the loop: the estimates of the first k differentiated histories |
| FastGlm.Interpolate | src/main/java/de/glmtk/querying/estimator/fast/FastGeneralizedLanguageModelAbsEstimator.java:76-83 | defines the returned combination alpha + gamma * beta / k, with alpha clipped at zero |
| FastGlm.GlmBaseCases | src/main/java/de/glmtk/querying/estimator/fast/FastGeneralizedLanguageModelAbsEstimator.java:60-66 | an unseen full history gives the unigram frequency of the sequence, the same for every unseen history; a history of skips only gives the plain fraction |
| FastGlm.GlmInterpolated | src/main/java/de/glmtk/querying/estimator/fast/FastGeneralizedLanguageModelAbsEstimator.java:68-83 | otherwise the estimate is alpha + gamma * beta over the average of the differentiated histories, each of which is smaller |
| FastGlm.GlmNonNegative | src/main/java/de/glmtk/querying/estimator/fast/FastGeneralizedLanguageModelAbsEstimator.java:56-84 | with non-negative discounts every estimate is non-negative |
| FastGlm.BetaSumNonNegative | src/main/java/de/glmtk/querying/estimator/fast/FastGeneralizedLanguageModelAbsEstimator.java:77-81 | with non-negative discounts the sum over differentiated histories is non-negative |
| FastGlm.InterpolateNonNegative | src/main/java/de/glmtk/querying/estimator/fast/FastGeneralizedLanguageModelAbsEstimator.java:76-83 | alpha is clipped at zero, so a non-negative weight and sum give a non-negative result |
| FastGlm.FastGeneralizedLanguageModelAbsEstimator.constructor | src/main/java/de/glmtk/querying/estimator/fast/FastGeneralizedLanguageModelAbsEstimator.java:42-44 | backoff mode SKP, an empty memo, and the estimator defaults with a fresh substitute |
| FastGlm.FastGeneralizedLanguageModelAbsEstimator.SetBackoffMode | src/main/java/de/glmtk/querying/estimator/fast/FastGeneralizedLanguageModelAbsEstimator.java:46-48 | any mode is stored; the memo is untouched |
| FastGlm.FastGeneralizedLanguageModelAbsEstimator.SetCache | src/main/java/de/glmtk/querying/estimator/fast/FastGeneralizedLanguageModelAbsEstimator.java:50-54 | the cache goes to the estimator and its substitute, and the memo is emptied |
| FastGlm.FastGeneralizedLanguageModelAbsEstimator.GetDiscounts | src/main/java/de/glmtk/querying/estimator/fast/FastGeneralizedLanguageModelAbsEstimator.java:86-102 | returns the discount formula for the pattern's counts; the count record is read only on a memo miss, and the memo stays sound |
| FastGlm.FastGeneralizedLanguageModelAbsEstimator.CalcProbability | src/main/java/de/glmtk/querying/estimator/fast/FastGeneralizedLanguageModelAbsEstimator.java:56-84 | the result is `GlmProbability`, whatever the memo held. The memo only grows and stays sound. It holds the history's pattern afterwards exactly when the full history was seen and the history is not only skips; in the two early-return cases it is unchanged |
| FastGlm.FastGeneralizedLanguageModelAbsEstimator.SumDifferentiated | src/main/java/de/glmtk/querying/estimator/fast/FastGeneralizedLanguageModelAbsEstimator.java:77-81 | the loop sums the estimates of all differentiated histories, in iteration order |
| FastGlm.FastGeneralizedLanguageModelAbsEstimator.Probability | src/main/java/de/glmtk/querying/estimator/AbstractEstimator.java:123-130 | fails when no cache is set; otherwise it gives `GlmProbability` |
| FastGlm.FastGeneralizedLanguageModelAbsEstimator.Probability3 | src/main/java/de/glmtk/querying/estimator/AbstractEstimator.java:132-144 | calls calcProbability one level deeper and returns its result |
| FastMkn.MknProbability | src/main/java/de/glmtk/querying/estimator/fast/FastModifiedKneserNeyAbsEstimator.java:56-101 | defines the value calcProbability computes. A history of skips gives the plain fraction, or the first word's unigram frequency when unseen. Otherwise alpha + gamma * beta, with beta the estimate for the history backed off until seen; `None` where `sequence.get(0)` throws |
| FastMkn.Alpha | src/main/java/de/glmtk/querying/estimator/fast/FastModifiedKneserNeyAbsEstimator.java:86-95 | defines alpha: the clipped discounted fraction, or the first word's unigram frequency when the history is unseen |
| FastMkn.MknInterpolated | src/main/java/de/glmtk/querying/estimator/fast/FastModifiedKneserNeyAbsEstimator.java:71-100 | a history that is not only skips interpolates with the estimate for its backed-off history, which is smaller |
| FastMkn.MknDefined | src/main/java/de/glmtk/querying/estimator/fast/FastModifiedKneserNeyAbsEstimator.java:56-101 | only an empty sequence can make calcProbability throw |
| FastMkn.MknUnseenHistory | src/main/java/de/glmtk/querying/estimator/fast/FastModifiedKneserNeyAbsEstimator.java:60-100 | a history whose count with a skip is zero gives the first word's unigram frequency, whatever the backoff gives |
| FastMkn.MknNonNegative | src/main/java/de/glmtk/querying/estimator/fast/FastModifiedKneserNeyAbsEstimator.java:56-101 | with non-negative discounts every estimate is non-negative |
| FastMkn.CombineNonNegative | src/main/java/de/glmtk/querying/estimator/fast/FastModifiedKneserNeyAbsEstimator.java:100 | non-negative parts give a non-negative interpolation |
| FastMkn.MknNegativeWithFewerOnceThanTwice | src/main/java/de/glmtk/querying/estimator/fast/FastModifiedKneserNeyAbsEstimator.java:71-100 | the discount formula does not clamp: with n1 = 1 and n2 = 2 the first discount is -1/3, and a seen history whose continuations are all seen once gets a negative estimate (-1/12 here); `NonNegativeDiscounts` cannot be dropped from `MknNonNegative` |
| FastMkn.FastModifiedKneserNeyAbsEstimator.constructor | src/main/java/de/glmtk/querying/estimator/fast/FastModifiedKneserNeyAbsEstimator.java:39-41 | backoff mode DEL, no count cache and an empty memo |
| FastMkn.FastModifiedKneserNeyAbsEstimator.SetBackoffMode | src/main/java/de/glmtk/querying/estimator/fast/FastModifiedKneserNeyAbsEstimator.java:43-48 | accepts exactly DEL and SKP; any other mode is refused and changes nothing |
| FastMkn.FastModifiedKneserNeyAbsEstimator.SetCountCache | src/main/java/de/glmtk/querying/estimator/fast/FastModifiedKneserNeyAbsEstimator.java:50-54 | the count cache is stored and the memo emptied |
| FastMkn.FastModifiedKneserNeyAbsEstimator.GetDiscounts | src/main/java/de/glmtk/querying/estimator/fast/FastModifiedKneserNeyAbsEstimator.java:103-119 | returns the discount formula for the pattern's counts; the count record is read only on a memo miss, and the memo stays sound |
| FastMkn.FastModifiedKneserNeyAbsEstimator.CalcProbability | src/main/java/de/glmtk/querying/estimator/fast/FastModifiedKneserNeyAbsEstimator.java:56-101 | the result is `MknProbability`, whatever the memo held; `None` where `sequence.get(0)` throws. The memo only grows and stays sound. A history that is not only skips always has its pattern in the memo afterwards, even with a zero denominator; a history of skips leaves the memo unchanged |

## Left out

- **Query file**: the query file is read once, as the `queryLines` argument of `CreateQueryCache`. `extractSequences` re-reads it for every pattern (QueryCacherCreator.java:77), and the `IOException` for a missing or unreadable query file is not modelled.
- QueryCacherCreator.Worker.FilterAndWriteSequenceCounts: when the master file and the cache file are the same file, the contract says only that no other file changes. The Java writer is opened after the reader and may empty the file first, but that depends on `NioUtils`, which is not part of this model. The creator-level contracts assume separate directories, which rules this case out.
- QueryCacherCreator.Worker.CachePattern: the same gap as FilterAndWriteSequenceCounts when a pattern's master file is its own cache file.
- WordIndex.WordIndex.Rank: `(lo + hi) / 2` on the return line (WordIndex.java:69) is 32-bit `int` arithmetic, which overflows for an index of more than 2^30 entries; the model uses unbounded integers.
- **Concurrency**: the worker threads of `createQueryCache`, the blocking queue's poll timeout, `Progress`, `Status` and logging. One sequential worker drains the queue, so a `null` poll never happens.
- **calculateMemory and buffer sizes**: they affect only performance.
- **File I/O**: reader/writer buffering, the charset and `Files.createDirectories` are reduced to the `Disk` value. The parent chain that `createDirectories` would also create is not modelled; only the two target directories are added.
- **Missing master file**: opening a missing master file throws in the code, so the run fails. The model follows the code, not a reading in which the pattern would be skipped.
- **Unmodelled code**:
  - `getUsedPatterns` (a tracking cache filled with random counts)
  - `WordIndex.openWriters` / `closeWriters` (file creation only)
  - `StatisticalNumberHelper.print` (logging)
  - `SplitterTask` and `AbcTestCorpus`
  - the `toString`, `getName` and `setName` accessors
- **Floating point**: Java `double`/`float` arithmetic becomes exact `real` arithmetic. The divisions that IEEE-754 would turn into NaN or Infinity are excluded by preconditions:
  - a positive word count
  - non-zero count records for every pattern a history can have
  - at least one differentiated history
- **FastGlm.FastGeneralizedLanguageModelAbsEstimator.CalcProbability**: requires a non-null cache. The `NullPointerException` of the three-argument `probability` without a cache is not modelled; only the two-argument `probability` models the missing-cache failure. The same holds for Probability3 and SumDifferentiated.
- **FastMkn.FastModifiedKneserNeyAbsEstimator.CalcProbability**: requires a count cache. `Estimator.java` is not part of this model, and the recursive `probability(sequence, history, recDepth)` is taken to call `calcProbability` one level deeper, as `AbstractEstimator` does.
- **Memo before the cache is set**: the memo is `null` until `setCache`/`setCountCache` runs. The model starts with an empty memo; estimation before a cache is set fails on the cache first in both cases.
- **Unused recDepth parameter**: `getDiscounts`' `recDepth` parameter does not appear in the model.
- **Differentiated histories**: the `HashSet` returned by `getDifferentiatedNGrams` is a sequence in its iteration order.
- **NGram operations**: `isEmptyOrOnlySkips`, `getPattern`, `backoffUntilSeen` and `Discount.getForCount` are parameters, because `NGram.java` and `Discount.java` are not part of this model.
- **Statistics.StatisticalNumberHelper.CountBy**: counters and sums are unbounded integers; Java `long` wrap-around is not modelled (samples themselves are `long`s). The same holds for Statistics.StatisticalNumberHelper.Average's sum and count.
- **Statics and AverageItem**: the static maps of `StatisticalNumberHelper` are fields of one object. `AverageItem` is a value, not a mutable object, since it never leaves its map.
- **Strings**: Java strings are compared character by character as Dafny `char`s. UTF-16 surrogate pairs are not distinguished.
- **Bad constructor line**: `AbstractEstimator`'s constructor assigns a field `countCache` that the class does not declare (line 83); the model leaves it out.
- **One cache type**: the estimators name two cache classes, `de.glmtk.common.Cache` (`AbstractEstimator.java`, lines 33 and 73) and `de.glmtk.cache.Cache` (`FastGeneralizedLanguageModelAbsEstimator.java`, lines 28 and 50). The override at line 50 only type-checks if the two are one type, so the model has one `Cache` datatype for both.
- **FastGlm.FastGeneralizedLanguageModelAbsEstimator.SetBackoffMode**: accepts every mode, as the code does; unlike the MKN estimator there is no check.
- FastGlm.GlmNonNegative: proves only the lower bound 0, not the upper bound 1, which needs counts that agree with each other (an n-gram counted no more often than its history); the model's caches are uninterpreted functions. The hypothesis `NonNegativeDiscounts` excludes n1 < n2, and any pattern whose d2 or d3 is negative; the code in lines 56-84 has the same arithmetic as the MKN estimator and can then return a negative value.
- FastMkn.MknNonNegative: proves only the lower bound 0, not the upper bound 1, for the same reason. `NonNegativeDiscounts` excludes n1 < n2 and negative d2 or d3; `MknNegativeWithFewerOnceThanTwice` shows that without it the estimate can be negative.

## Findings

| source | as written | input that shows it | evidently intended | confidence | as-written member | corrected member |
|---|---|---|---|---|---|---|
| src/main/java/de/typology/smoothing/MaximumLikelihoodEstimator.java:63-68 | `getHistory` (and `getSequence`, line 53) allocates `new ArrayList<String>(req.size() + cond.size() - 1)`. A negative capacity throws `IllegalArgumentException`, so the `history.isEmpty()` branch of `getDenominator` (lines 35-36) can never be taken. | reqSequence = [], condSequence = [] | the capacity is only a size hint; an empty history is counted as the number of words | not executed; follows from `ArrayList(int)` rejecting a negative capacity | MaximumLikelihoodEstimator.EmptyHistoryBranchIsDead | MaximumLikelihoodEstimator.FractionCounts |
