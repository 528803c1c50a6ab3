# A verified model of the search engine

This project models the hard core of a C++ search engine in Dafny and proves that its fast,
incremental or concurrent code agrees with a simple specification. `dafny verify dfyconfig.toml`
checks everything.

The engine keeps an inverted index up to date document by document, compiles queries to plans and
evaluates them by merging posting lists, publishes immutable segments from a durable writer with a
write-ahead log, a background thread and compaction, searches shards with global statistics, and
replicates a mutation log to followers. For each of these the model has the code in its own form
(classes with `modifies` clauses, loops with invariants, a step machine for the concurrent writer)
and a specification that never mentions how the code works:

* **The index.** `slots` is the list of documents by internal ID. Postings, statistics and records
  are functions of it (`IndexModel`), and `InMemoryIndex` keeps its maps equal to that rebuild through
  every accepted and refused put and erase. What is accepted is said of the documents alone
  (`RefusalIs`), and over whole runs a slot only gets newer and holds the newest version offered
  (`VersionsIncrease`, `RunHoldsNewest`).
* **Queries.** `QueryMatches` is the meaning of a query tree and `Matches`, `ScoreOf` and `Verdict`
  judge one document against a plan. Planning is a refinement in two stages: a plan's `Shape` forgets
  order and estimates, `Outline` is the shape a tree has to get, and the `Builder` class delivers a
  normal form of exactly that shape. `QueryScore` is the score a tree gives a document, and every plan of
  the tree gives that score. Evaluation by merging equals a scan that judges document after document, and
  top-K and sharding are proved on top of it, so an answer is a function of documents, tree and K.
* **Query text.** `Syntax` is how a query may be written and `Yield` what is then written; a text parses
  to a tree if and only if it spells a proper way of writing that tree (`AcceptsExactly`).
* **The writer.** `WriterMachine` is a state machine whose steps are the stretches of code between two
  lock operations or two durable file operations. A crash may come between any two steps. `history`
  records what reached the log, `acked` what callers were told. A put is logged if and only if it is
  acceptable and newer than everything in `history` (`PutIsLoggedIff`), and what was logged survives.
* **Replication and recovery.** Every replica's documents are the fold of a prefix of the log, and
  restoring a snapshot commutes with that fold up to the renaming of internal IDs.
* **Formats.** Posting sections, variable-byte integers, log frames and manifests are byte strings;
  decoding inverts encoding, and what decoding accepts is characterised exactly.

Scores are exact reals; the logarithm, the printer of boosts and the reader of numbers are parameters.

## What turned out not to hold

Six promises fail as the code stands. Each has a lemma with the failing input or family and a
theorem that says exactly when the promise does hold.

* A put that waits for room at src/storage/index_writer.cpp:49 does not look at `refreshing_` again
  and can be logged between the freeze and the reset of a refresh (line 54). `RaceLosesAPut` is a
  concrete run that acknowledges a put and loses it. `ResetIsSafeIff` and `RunIsDurableIff` say that a
  run is durable if and only if no reset of the log happens with mutations buffered, and
  `GuardedRunsLoseNothing` that re-testing `refreshing_` is enough.
* A publication can fail after the rename of CURRENT (src/storage/manifest.cpp:112-123), and
  `manifest_` then stays behind CURRENT. Nothing is lost, but `FailedMergeBlocksTheNextFlush` is a
  concrete run in which the next flush is refused because its generation is not new, and
  `SecondMergeIsUndefined` shows that a second `merge_all` has no defined way on. The checks of
  `publish` pass if and only if `manifest_` is what CURRENT names and that loads
  (`RecordingIsPublishable`, `NoFileIsMissed`); a writer that is behind stays behind until it is opened
  again (`BehindForGood`).
* `ManifestStore::publish` sets no limit on the size of a manifest but loading does.
  `AcceptedButUnreadable` shows manifests of 559240 segments or more that are published and can never
  be opened; `LoadCurrent` and `Publish` state that a published manifest loads if and only if its file
  is within the limit, and that beyond it every later publication is refused as well.
* A segment file is opened again before it gets its name (src/storage/segment.cpp:344), and refused if
  it is over a read limit, so merging can fail for good. `TwoLargeSegmentsStay` is a generation of two
  segments of six million documents each, each within the limits, that no call of `merge_all` makes
  one. `Compact` and `MergeAll` say exactly when a merge goes through and what is left when it does not
  (nothing is lost); everything has to be writable as one segment (`ThroughNeedsWhole`), and where only
  the number of documents matters that is enough (`ThroughByCount`).
* `WriteAheadLog::append` knows none of the limits of `replay`. `LoggedButUnreadable` is a document
  with an ID one byte too long, `OverlongLogFails` is a log of eleven hundred documents, each within the
  limits, whose file is too long, and `TornOverLimitFails` is an append cut off behind the header of a
  record that is too long; none of these logs replays. `ReplaysWithTailIff` says that a log replays if
  and only if the file, the number of complete records and each of them are within the read limits and
  a torn record that shows its length does not announce more than the record limit. So a writer opens
  again after a crash if and only if its log and its manifest meet that (`GuardedRunsReopen`,
  `ReopensWithinLimits`).
* The persistent log of a replica has the same limits, and `LogRoundTrip` and `TornAppend` the same
  conditions, without and with a torn append. An append that reports an error may leave the whole record
  behind: tried again, the sequence number is there twice and nothing is recovered
  (`RepeatedAppendFails`).

`MetricsInUnit` is about rankings of distinct documents, and needs that: a document listed twice gives
recall 2 (`RepeatedDocumentExceedsOne`), and `RecallInUnitIff` says exactly when recall stays within 1.

docs/query_planning.md:13 says that reversed ranges are rejected. src/query/planner.cpp:232-262 does
not do that and neither does the model: such a range matches nothing
(`ReversedRangeMatchesNothing`).

## Model

| member | source | states |
|---|---|---|
| `Analysis.AnalyzeStandard` | src/analysis/analyzer.cpp:36-52 | The scanning loop with its 32-bit position counter returns exactly the kept words of the text, or fails exactly where an offset does not fit. |
| `Analysis.WordsAreMaximalRuns` | src/analysis/analyzer.cpp:26-52 | The words are precisely the maximal runs of word bytes, in order, numbered consecutively with stop words counted, and nothing between them is a word byte. |
| `Analysis.AnalyzeIsDisciplined` | src/analysis/analyzer.cpp:36-65 | Whatever an analyzer returns has strictly increasing positions and disjoint increasing offsets, all below 2^32. |
| `Analysis.TokensAreWords` | src/analysis/analyzer.cpp:36-52 | The tokens are exactly the maximal runs of word bytes in lower case that are no stop words, each with its place in the text. |
| `Analysis.CaseIsIgnored` | src/analysis/analyzer.cpp:17-24 | Two texts that differ only in the case of ASCII letters analyse alike. |
| `Analysis.OneWord` | src/analysis/analyzer.cpp:26-52 | A text of word bytes only is one token at position 0, unless it is a stop word. |
| `Numbers.ToStringRoundTrip` | src/query/planner.cpp:232-262 | A 64-bit integer printed as a canonical range bound reads back whole as itself. |
| `Numbers.DecimalInjective` | src/query/planner.cpp:21-23 | Two numbers with the same decimal text are equal. |
| `IndexModel.PostingsAscend` | src/index/in_memory_index.cpp:129-139 | A rebuilt posting list is strictly sorted by internal ID and mentions no ID outside 1..n. |
| `IndexModel.PostingsAfterReplace` | src/index/in_memory_index.cpp:111-139 | Replacing one document changes a rebuilt posting list by exactly that document's posting: the old one leaves, the new one is sorted in. |
| `IndexModel.FrequencyBelowCount` | src/ranking/bm25.cpp:34-42 | Document frequency never exceeds the field's document count, which never exceeds the number of documents. |
| `IndexModel.TotalsFit` | src/index/in_memory_index.cpp:140-144 | As long as internal IDs fit in 32 bits, a field's total length fits in 64. |
| `IndexModel.RefusalIs` | src/index/in_memory_index.cpp:10-60 | A put is accepted if and only if the ID is not empty, every document of that ID is strictly older, fields and metadata are allowed, an ID is free or the document is held already, and the text analyses; each error comes exactly under its own condition, in that order. |
| `IndexModel.StoreIs` | src/index/in_memory_index.cpp:50-156 | Storing overwrites the slot of the same ID or takes the next internal ID, and leaves every other slot alone. |
| `IndexRuns.VersionsIncrease` | src/index/in_memory_index.cpp:10-170 | Over every sequence of puts and erases no slot is lost or renamed, and a slot changes only to a strictly higher version. |
| `IndexRuns.RunHoldsNewest` | src/index/in_memory_index.cpp:10-170 | After every sequence of puts and erases each slot holds the newest storable version offered for its ID, the first offered one of equal versions, and while IDs are free every storable document offered has a slot. |
| `MemoryIndex.RemovePostings` | src/index/in_memory_index.cpp:111-126 | Exactly the postings of one document leave, in the referenced terms only; emptied terms and fields disappear. |
| `MemoryIndex.InstallPostings` | src/index/in_memory_index.cpp:129-139 | Exactly the document's new postings enter at their sorted place and stored frequencies stay the lengths of the lists. |
| `MemoryIndex.PutRebuildsPostings` | src/index/in_memory_index.cpp:97-139 | Removing through the old document's term references and then installing the new postings yields the dictionaries of a rebuild. |
| `MemoryIndex.PutRebuildsStatistics` | src/index/in_memory_index.cpp:102-145 | Subtracting the old lengths and adding the new ones yields the recomputed live counts and total lengths of every field. |
| `MemoryIndex.RetireStatistics` | src/index/in_memory_index.cpp:102-110 | Taking a document's lengths out lowers each field's count by one and its total by exactly that length, and drops a field whose count reaches zero. |
| `MemoryIndex.InMemoryIndex.Put` | src/index/in_memory_index.cpp:10-156 | Succeeds if and only if the document is acceptable (strictly newer, allowed, analysable, an ID free or held); then the index equals a rebuild of the updated documents, otherwise it has the right error and nothing changed. IDs run 1..n, are never zero or reused, and exhaustion is refused even where the counter wraps. |
| `MemoryIndex.InMemoryIndex.Erase` | src/index/in_memory_index.cpp:158-170 | An erase is the put of a tombstone, accepted if and only if that is acceptable: same refusals, same rebuild, and the document leaves every posting list. |
| `MemoryIndex.InMemoryIndex.Lookup` | src/index/in_memory_index.cpp:172-177 | A term is found exactly when a live document contains it, with one posting per such document, sorted, with the analyzer's positions. |
| `MemoryIndex.InMemoryIndex.LiveDocumentIds` | src/index/in_memory_index.cpp:200-208 | The IDs of the live documents, in order. |
| `MemoryIndex.InMemoryIndex.Statistics` | src/index/in_memory_index.cpp:215-222 | Document count and total length equal the recomputed ones, and the total fits in 64 bits. |
| `MemoryIndex.InMemoryIndex.View` | src/index/in_memory_index.cpp:172-222 | What planner and executor read of an index represents its documents exactly. |
| `Views.PostingHasSlot` | src/index/in_memory_index.cpp:129-139 | Every posting belongs to a document that contains the term and carries its frequency and positions. |
| `Views.SlotHasPosting` | src/index/in_memory_index.cpp:129-139 | Every document that contains the term has its posting in the list. |
| `Views.StatisticsAreConsistent` | src/query/executor.cpp:233-252 | At every scored posting 0 < df <= N, 0 < tf <= length and the average is positive, so no search over a reachable index meets inconsistent BM25 statistics. |
| `Bm25.ScoreSaturates` | src/ranking/bm25.cpp:27-61 | Under a positive logarithm every match scores above zero and at most idf (k1 + 1) boost, and one more occurrence never lowers the score. |
| `Bm25.WeightBounds` | src/ranking/bm25.cpp:48-61 | The frequency weight lies in (0, k1 + 1] and does not fall as the term frequency grows. |
| `Bm25.RarerIsWorthMore` | src/ranking/bm25.cpp:53-55 | Under a strictly increasing logarithm the inverse frequency falls strictly with the document frequency and rises strictly with the number of documents. |
| `Bm25.LongerWeighsLess` | src/ranking/bm25.cpp:56-60 | At equal frequency a longer document never weighs more, and strictly less when b > 0. |
| `Bm25.ScorePrefers` | src/ranking/bm25.cpp:48-61 | On consistent statistics a rarer term scores strictly higher and a longer document not higher. |
| `Plans.UnmatchedScoresZero` | tests/support/reference_evaluator.cpp:50-174 | A document that does not match a plan scores zero. |
| `Plans.ReversedRangeMatchesNothing` | src/query/executor.cpp:211-231 | A range whose lower bound lies above its upper bound matches no document. |
| `Ranges.IntegerRange` | src/query/executor.cpp:211-231 | A range over printed 64-bit integers accepts a value if and only if it lies between the bounds as numbers, each bound itself only when it is inclusive and `*` without limit. |
| `Ranges.IntegerTexts` | src/index/schema.cpp:82-101 | A text is an integer value if and only if it is digits behind at most one minus whose value fits in 64 bits. |
| `Ranges.DateRange` | src/query/executor.cpp:211-231 | A range over valid dates accepts exactly the dates between its bounds in calendar order, although dates are compared as text. |
| `Ranges.FourCenturies` | src/index/schema.cpp:14-32 | The calendar behind date validation has 146097 days in any 400 years. |
| `Ranges.RangeIsTwoHalves` | src/query/executor.cpp:211-231 | A range is the intersection of its two halves; each half accepts its own bound if and only if that is inclusive, everything strictly inside and nothing strictly outside. |
| `Ranges.RangeReads` | src/query/executor.cpp:179-209 | A range reads the field of a document, the metadata only without the field, and matches nothing when neither is there. |
| `Canonicalization.CanonicalIsPrefixFree` | src/query/planner.cpp:21-59 | canonical(a)+s == canonical(b)+t implies that the plans agree on everything evaluation reads and that s == t. |
| `Canonicalization.CanonicalDecides` | src/query/planner.cpp:21-59 | Two plans have the same canonical text if and only if they agree on everything evaluation reads. |
| `Shapes.MatchIsOfShape` | src/query/planner.cpp:283-315 | Which documents a plan matches depends on the set of its clauses only, not on their order or repetition. |
| `Shapes.ScoreIsOfShape` | src/query/planner.cpp:283-315 | Without repeated clauses the score too is independent of clause order. |
| `Outlines.OutlineMatches` | src/query/planner.cpp:121-315 | Default-field expansion, field and boost pushing, deduplication and collapse leave the matched documents equal to the tree's own meaning. |
| `PlanningErrors.PlanningIsExplained` | src/query/planner.cpp:66-277 | A plan exists only for trees within the depth limit in which no node is at fault, and an error other than a limit names a fault that some node of the tree has. |
| `PlanningErrors.DepthIsBounded` | src/query/planner.cpp:66-119 | Whatever plans is nowhere deeper than the limit allows. |
| `NormalForms.NormalFormIsUnique` | src/query/planner.cpp:283-315 | In one index a shape has one normal form: deduplication finds every repeated clause and the cost order leaves no choice. |
| `NormalForms.EstimateBoundsMatches` | src/query/planner.cpp:121-315 | The estimate computed for a node is at least the number of live documents that match it. |
| `NormalForms.CheapestFirst` | src/query/planner.cpp:283-315 | The clauses of every planned conjunction come cheapest first and its estimate is at most that of each; a disjunction is estimated at no less than each of its clauses, up to the number of live documents; a term at its posting count. |
| `Planning.Builder.Deduplicate` | src/query/planner.cpp:286-292 | Comparing canonical texts keeps exactly one clause of every shape. |
| `Planning.Builder.NormalizeBoolean` | src/query/planner.cpp:283-315 | The sorted, deduplicated, possibly collapsed node has the specified shape, is in normal form and counts the specified resources. |
| `Planning.Builder.TermForField` | src/query/planner.cpp:121-140 | An analysed text becomes a disjunction of its distinct terms, with the source's errors and limits. |
| `Planning.Builder.PhraseForField` | src/query/planner.cpp:142-156 | An analysed phrase becomes one node whose estimate is its rarest term's posting count. |
| `Planning.Builder.BuildRange` | src/query/planner.cpp:232-262 | Range bounds are checked and put in canonical form; reversed ranges are planned like any other. |
| `Planning.Builder.Build` | src/query/planner.cpp:66-277 | For every tree the builder refines the outline: the same error, or a normal plan of the outlined shape using the outlined nodes and tokens. |
| `Searching.PlanQuery` | src/query/planner.cpp:333-349 | Whether a query plans, and to which shape, is decided without the index; the plan returned is a normal form of that shape. |
| `Searching.PlanningPreservesMeaning` | src/query/planner.cpp:121-315 | For every query that plans, the plan matches a document if and only if the query tree does. |
| `Searching.PlanningPreservesScores` | src/query/planner.cpp:121-315 | Whatever plan a query gets, it scores every document with the score of the query tree. |
| `Searching.BoostedPlanScores` | src/query/planner.cpp:264-270 | Any plan of a query under a boost b scores every document b times what any plan of the query scores it. |
| `QueryScores.TreePlanScores` | src/query/planner.cpp:121-315 | The plan read off a tree node by node, without index or counters, scores as the tree does. |
| `QueryScores.BoostMultiplies` | src/query/planner.cpp:264-270 | A boost on the way down to the terms multiplies the score of every tree, whatever is nested below it. |
| `QueryScores.OneTermScores` | src/query/planner.cpp:121-170 | A one-term query scores the sum over the default fields of the term score at boost 1 times search boost times schema boost, and b times that under a boost b. |
| `QueryScores.EqualLengthsDoNotMatter` | src/query/executor.cpp:233-252 | Where all documents have the same length the score is idf tf (k1 + 1) / (tf + k1) boost: document length enters only relative to the average. |
| `QueryScores.PhraseScoreAdds` | src/query/executor.cpp:136-142 | The score of a phrase is the sum of the scores of its terms. |
| `Searching.PlannedEstimateBounds` | src/query/planner.cpp:283-315 | At every node of a planned query the attached estimate bounds the true number of matches from above. |
| `Searching.CostIsFixed` | src/query/planner.cpp:66-119 | Every query adds a fixed amount to the node and token counters, and plans to the same shape wherever there is room for that amount. |
| `Searching.ReorderOperands` | src/query/planner.cpp:184-210 | Exchanging the operands of any number of AND and OR nodes anywhere in a query decides neither whether it plans nor the canonical plan and its estimate. |
| `Merging.Intersect` | src/query/executor.cpp:42-51 | The merge returns a strictly sorted list of exactly the documents in both lists, with summed scores. |
| `Merging.Unite` | src/query/executor.cpp:53-64 | The merge returns exactly the documents in either list, scores summed where both have one. |
| `Merging.Exclude` | src/query/executor.cpp:66-75 | The merge returns exactly the documents of the universe that are not excluded. |
| `Merging.SortedUnique` | src/query/executor.cpp:42-75 | A sorted candidate list is determined by the score it gives each document. |
| `Execution.FindPosting` | src/query/executor.cpp:77-80 | Binary search finds the posting of a document exactly when there is one. |
| `Execution.PositionsMatch` | src/query/executor.cpp:82-98 | True exactly when some position of the first token starts the phrase in every other list, in 32-bit offsets. |
| `Execution.PositionsDecide` | src/query/executor.cpp:82-98 | The test on posting positions is true if and only if the phrase stands in the analysed text; where a phrase stands is said without offsets by `Phrases`. |
| `Phrases.OccursIffStands` | src/query/executor.cpp:82-98 | An analysed phrase occurs in a text if and only if some shift moves each of its terms to a token with the same term, gaps of stop words included. |
| `Phrases.SliceOccurs` | src/query/executor.cpp:82-98 | Every non-empty slice of an analysed text occurs in that text as a phrase. |
| `Phrases.GaplessOccursIff` | src/query/executor.cpp:82-98 | Between texts without gaps a phrase occurs if and only if its terms are a slice of the terms of the text. |
| `Phrases.PassageTokens` | src/analysis/analyzer.cpp:36-52 | A passage cut out of a text from the start of one token to the end of another analyses to the tokens between, moved to its start. |
| `Phrases.PassageIsFound` | src/query/executor.cpp:82-98 | Every passage of a text, put as a phrase, is found in that text. |
| `Phrases.QuotedPassageMatches` | src/query/executor.cpp:114-146 | A document matches the phrase query of every passage of its field. |
| `Phrases.TermFindsWords` | src/query/planner.cpp:121-140 | A field with the standard analyzer matches a word that is no stop word if and only if that stands in it as a whole word, in any mixture of cases. |
| `Phrases.TermFindsKeyword` | src/analysis/analyzer.cpp:62-65 | A keyword field matches exactly its own whole text. |
| `Execution.ScorePostingIs` | src/query/executor.cpp:233-252 | Scoring a posting never fails on a served corpus and gives the document-at-a-time score. |
| `Execution.EvaluatePhrase` | src/query/executor.cpp:114-146 | Whichever term is the anchor, the list holds exactly the live documents with the phrase and their scores. |
| `Execution.EvaluateAnd` | src/query/executor.cpp:148-159 | Intersecting clause after clause, with the early exit, is exact in every clause order. |
| `Execution.EvaluateOr` | src/query/executor.cpp:161-169 | Uniting clause after clause is exact. |
| `Execution.EvaluateNot` | src/query/executor.cpp:171-177 | The complement among live documents, each with score zero. |
| `Execution.EvaluateRange` | src/query/executor.cpp:179-190 | Exactly the live documents whose field or metadata value lies in the range. |
| `Execution.Evaluate` | src/query/executor.cpp:105-260 | For every plan and every represented index the evaluator succeeds with a list strictly increasing in internal ID that holds exactly the matching live documents and their reference scores. |
| `Execution.ExactIsScan` | tests/support/reference_evaluator.cpp:182-198 | Any exact list equals the scan that judges every document in turn. |
| `Explanations.Explain` | src/query/executor.cpp:298-365 | The explanation mirrors the plan, and every line carries the verdict of its node, its field and boost, and the true inputs of its formula. |
| `Explanations.ExplanationAddsUp` | src/query/executor.cpp:298-365 | Every explanation can be checked on its own: a term's inputs give its score, phrases and conjunctions show the sum of their lines, disjunctions the sum of the matching ones, negations and ranges zero. |
| `TopK.RankedUnique` | src/ranking/top_k.cpp:9-13 | Better-first order, scores then IDs, is total: a collection has one ranking. |
| `TopK.BestAre` | src/ranking/top_k.cpp:9-39 | The K best are K of what was offered, or all of it, in order of falling score and then rising ID, and nothing left out comes before one of them. |
| `TopK.TopKCollector.Collect` | src/ranking/top_k.cpp:15-27 | The bounded heap keeps the K best of everything offered so far. |
| `TopK.TopKCollector.Results` | src/ranking/top_k.cpp:29-39 | Draining gives the K best in order, as a full sort would. |
| `TopK.BestOfParts` | src/distributed/local_cluster.cpp:20 | Keeping only the K best of a part changes nothing about the K best of the whole. |
| `Searching.SearchPlan` | src/query/executor.cpp:279-296 | Hits are the K best of the reference scan and the total is its length; the only error is an invalid scorer. |
| `Searching.Search` | src/query/executor.cpp:271-277 | Whether a search fails is decided without the index; otherwise the hits are the K best by `QueryScore` of the live documents the query tree means, and the total is their number. |
| `Searching.ScanIsQueryScan` | tests/support/reference_evaluator.cpp:182-198 | The scan with any plan of a query is the scan that judges and scores every document by the tree. |
| `Searching.ScanCounts` | tests/support/reference_evaluator.cpp:182-198 | Total hits equal the number of live documents the query tree itself matches. |
| `Sharding.Route` | src/distributed/local_cluster.cpp:15 | The hash loop computes a fixed function of ID and shard count, below the count when there are shards. |
| `Sharding.KnownHash` | src/distributed/local_cluster.cpp:15 | The hash is 64-bit FNV-1a: on the published input `a` it has the published value. |
| `Sharding.PartOfStore` | src/distributed/local_cluster.cpp:18 | Storing a document in the corpus stores it in its own shard and leaves every other shard alone. |
| `Sharding.ShardAccepts` | src/distributed/local_cluster.cpp:18 | What the global index accepts its shard accepts, so a put is never split. |
| `LocalCluster.ShardRepresents` | src/distributed/local_cluster.cpp:9-14 | Local postings under global frequencies and statistics represent the shard's documents scored against the whole corpus. |
| `LocalCluster.ShardSearchView.Lookup` | src/distributed/local_cluster.cpp:11 | The memo of adjusted entries never changes an answer. |
| `LocalCluster.PartsAreWhole` | src/distributed/local_cluster.cpp:9-20 | Every match of the corpus is a match of exactly one shard, with the same score. |
| `LocalCluster.AnswerIsUnique` | src/distributed/local_cluster.cpp:20 | One corpus, query and K have one answer, whichever plans gave it, and that is the answer by the query tree. |
| `LocalCluster.LocalShardCluster.Create` | src/distributed/local_cluster.cpp:16-17 | Succeeds exactly for 1 to 1024 shards, with empty disjoint shards. |
| `LocalCluster.LocalShardCluster.Put` | src/distributed/local_cluster.cpp:18 | Refused with nothing changed anywhere, or applied so that the shards remain the partition of the global index. |
| `LocalCluster.LocalShardCluster.Search` | src/distributed/local_cluster.cpp:20 | For every K, searching all shards and merging gives exactly the hits and the total of a search over the global index; the sum of totals never overflows. |
| `Generations.JoinAllIsNewest` | src/storage/generation.cpp:30-39 | Resolution finds exactly the IDs of the segments, each with a highest version. |
| `Generations.AddRecords` | src/storage/generation.cpp:33-38 | One segment's records compete with the winners; the only error is one version with different delete flags. |
| `Generations.ResolveSegments` | src/storage/generation.cpp:26-39 | Schema mismatch and version conflicts are reported in order; otherwise the result is the newest version of every document. |
| `Generations.AgreeingSegmentsResolve` | src/storage/generation.cpp:26-39 | Segments of one schema whose equal versions agree always resolve. |
| `Generations.BuildIndex` | src/storage/generation.cpp:40-45 | The winners enter a fresh index that then holds exactly them, unless there are more than IDs. |
| `Generations.MergeSegments` | src/storage/generation.cpp:59-86 | The merged segment holds exactly the resolution of its inputs, tombstones included, or is refused: too many documents for the index, or a file over the read limits. |
| `Generations.CompactionPreserves` | src/storage/index_writer.cpp:57-68 | Replacing any subset of segments, neighbours or not, by their merge leaves the resolution unchanged. |
| `Generations.AgreeCompacted` | src/storage/index_writer.cpp:57-68 | Compaction keeps equal versions in agreement, so it can be repeated. |
| `Generations.ChooseSmallest` | src/storage/index_writer.cpp:60-64 | The chosen files are the smallest, ties broken by position. |
| `Generations.Compact` | src/storage/index_writer.cpp:57-68 | A generation of one segment stays; otherwise exactly the smallest segments are merged and what is visible is preserved, if and only if what they merge to can be written; if not, the call fails. |
| `Generations.MergeAll` | src/storage/index_writer.cpp:69 | Without concurrent writes the loop ends with at most one segment if and only if every merge on the way can be written; otherwise it stops with an error before the first that cannot. Either way what is left holds the same documents. |
| `Generations.SmallestIsUnique` | src/storage/index_writer.cpp:60-64 | There is one choice of smallest files, so which merges are tried is determined. |
| `Generations.ThroughNeedsWhole` | src/storage/index_writer.cpp:69 | If the merges go through, the newest versions of all documents can be written as one segment. |
| `Generations.ThroughByCount` | src/storage/index_writer.cpp:69 | Where only the number of documents matters, the merges go through if and only if all documents together are within the limit. |
| `Generations.TwoLargeSegmentsStay` | src/storage/index_writer.cpp:57-69 | Two segments of six million documents each are each within the limit and are never merged. |
| `WriterSafety.ReplayIs` | src/storage/index_writer.cpp:43-44 | Replaying the log over the segments' versions yields the newest logged version of every document not already published, and counts what it buffered. |
| `WriterSafety.OkIsDurable` | src/storage/index_writer.cpp:37-46 | When nothing logged is missing from both log and segments, reopening yields exactly the newest logged version of every document. |
| `WriterAcceptance.RunsAreLogged` | src/storage/index_writer.cpp:37-69 | In every run, whatever fails, all that memory, segments and log hold is in the history of the log. |
| `WriterAcceptance.FreshPutIsLogged` | src/storage/index_writer.cpp:49 | In every reachable state of a serving writer a put that is acceptable and newer than everything logged of its ID is appended to log, history and acknowledgements, or as much of it as its append does; an unacceptable one changes none of them, and without room it waits. |
| `WriterAcceptance.PutIsLoggedIff` | src/storage/index_writer.cpp:49 | Where no reset came with mutations buffered, a put with room is logged if and only if it is acceptable and newer than everything logged of its ID; otherwise log, history and acknowledgements stay. |
| `WriterAcceptance.FreshResumeIsLogged` | src/storage/index_writer.cpp:49 | A put that waited for room is logged under the same conditions when it goes on. |
| `WriterAcceptance.MemoryIsBounded` | src/storage/index_writer.cpp:47-50 | No step of a run brings the buffered mutations over their bound or the frozen indexes over theirs. |
| `WriterMerging.SegmentsStayFew` | src/storage/index_writer.cpp:51-68 | A writer that starts with up to n segments and merges automatically from n + 1 on, or earlier, never has more than n + 1 until a crash, and no more than n whenever its background thread waits, whoever else merges and whatever fails. |
| `WriterDurability.StepKeeps` | src/storage/index_writer.cpp:37-69 | Every step of puts, refreshes, worker, publication, failures before and after the rename of CURRENT, compaction, reclaim, readers, crashes and opening keeps the invariant, except a reset of the log with mutations buffered. |
| `WriterDurability.QuietKeeps` | src/storage/index_writer.cpp:49-54 | If a put re-tests `refreshing_`, nothing is buffered between freeze and reset. |
| `WriterDurability.GuardedRunsLoseNothing` | src/storage/index_writer.cpp:37-54 | In every guarded run with crashes anywhere, reopening finds for every document a version no older than the newest acknowledged one, with exactly that version's content. |
| `WriterDurability.GuardedRunsReopen` | src/storage/index_writer.cpp:37-46 | After any guarded run and a crash, in the middle of an append or not, the writer opens again if and only if the log with its torn end and the manifest are within their read limits, and segments and replayed log together are then exactly the newest logged version of every document. |
| `WriterDurability.ReopensWithinLimits` | src/storage/index_writer.cpp:42-44 | For the byte format of the log that condition is: the file, the number of complete records and each of them within the read limits, and a torn record that shows its length not over the record limit. |
| `WriterDurability.AppendsFollowWholeRecords` | src/storage/index_writer.cpp:49 | In every run, guarded or not, records are only appended behind complete ones: after an append that did not finish nothing is appended until the log has been replayed and cut. |
| `WriterDurability.ResetIsSafeIff` | src/storage/index_writer.cpp:54 | Emptying the log keeps the index durable if and only if no mutation is buffered. |
| `WriterDurability.ActiveIsLost` | src/storage/index_writer.cpp:49-54 | Every document that is only in the active index when the log is emptied is lost by a crash. |
| `WriterDurability.RunIsDurableIff` | src/storage/index_writer.cpp:37-69 | A run is durable at every moment if and only if it never empties the log with mutations buffered. |
| `WriterDurability.RefreshPublishesAll` | src/storage/index_writer.cpp:54 | After a refresh with nothing buffered the published segments alone hold the newest logged version of every document. |
| `WriterDurability.RecordingIsPublishable` | src/storage/manifest.cpp:168-189 | The checks of `publish` pass if and only if `manifest_` is what CURRENT names and that is within the read limit. |
| `WriterRace.RaceLosesAPut` | src/storage/index_writer.cpp:47-54 | A concrete run of the code acknowledges a put and loses it in a crash after the refresh. |
| `WriterPublication.StepPublishes` | src/storage/manifest.cpp:112-123 | `CURRENT` changes only by the rename that ends a publication, and only to a later generation. |
| `WriterPublication.NoFileIsMissed` | src/storage/index_writer.cpp:51-68 | In every run, guarded or not, with failures and crashes anywhere, CURRENT names a complete manifest whose segment files all exist, a reader under the lock never meets a reclaimed file, and a publication is refused exactly when `manifest_` is behind CURRENT or that does not load. |
| `WriterPublication.ReaderSeesAGeneration` | src/storage/index_writer.cpp:55 | What a reader returns is exactly the segments of one published generation. |
| `WriterPublication.GenerationsIncrease` | src/storage/manifest.cpp:170-183 | Every prefix of a run is a run, and along it the published generation never goes back. |
| `WriterLag.BehindForGood` | src/storage/index_writer.cpp:51-68 | Once a publication has failed after the rename of CURRENT, `manifest_` stays behind and CURRENT stays what it is until the writer is opened again. |
| `WriterLag.FailedMergeBlocksTheNextFlush` | src/storage/index_writer.cpp:51-69 | A concrete run: a merge is published, its caller is told that it failed, the writer goes on, and the next flush is refused; everything stays durable. |
| `WriterLag.SecondMergeIsUndefined` | src/storage/index_writer.cpp:57-64 | In that run the writer chooses among two segments and CURRENT names one, so every choice has a position past the end of the opened readers. |
| `Manifests.EncodeManifest` | src/storage/manifest.cpp:152-155 | The buffer loop writes the specified bytes. |
| `Manifests.KnownManifest` | src/storage/manifest.cpp:152-155 | The file of a manifest of one segment, byte by byte. |
| `Manifests.DecodeManifest` | src/storage/manifest.cpp:138-150 | The cursor loop computes the specified result, error for error. |
| `Manifests.DecodeInvertsEncode` | src/storage/manifest.cpp:138-155 | A manifest reads back as itself if and only if it lists at least one and at most a million distinct, plainly named segments under a nonzero generation. |
| `Manifests.DecodedIsEncoded` | src/storage/manifest.cpp:138-155 | Only encodings decode: two files with one meaning are one file. |
| `Manifests.CurrentRoundTrip` | src/storage/manifest.cpp:157-166 | `CURRENT` gives back the name written, or is rejected when that is no file name. |
| `Manifests.SizeDecides` | src/storage/manifest.cpp:125-150 | The byte limit implies the segment limit, so it alone decides what reads back. |
| `Manifests.AcceptedButUnreadable` | src/storage/manifest.cpp:168-198 | From 559240 ordinary segment names on, an acceptable manifest cannot be loaded. |
| `Manifests.ManifestStore.LoadCurrent` | src/storage/manifest.cpp:196-198 | Loading finds the published manifest, or the size error exactly when its file is over the limit. |
| `Manifests.ManifestStore.Publish` | src/storage/manifest.cpp:168-194 | Whatever fails and wherever it stops, the old or the new manifest is published as a whole; generations increase, and an oversized manifest blocks every later publication. |
| `Manifests.ManifestStore.OpenCurrent` | src/storage/manifest.cpp:200-203 | Opening succeeds exactly when the manifest loads and every listed segment opens with its own ID. |
| `WriteAhead.DecodeInvertsEncode` | src/storage/write_ahead_log.cpp:16-22 | A logged document decodes to itself if it respects the read limits and is reported corrupt otherwise. |
| `WriteAhead.ReplayOfCut` | src/storage/write_ahead_log.cpp:25-26 | For every list of documents within the limits and every byte cut, replay returns exactly the documents whose records lie wholly before the cut, and that boundary, unless what is left of the file is over the file limit. |
| `WriteAhead.AppendAfterRepair` | src/storage/write_ahead_log.cpp:25-26 | After a torn tail is cut off, a later append replays as that prefix plus the new document, unless the file is over its limit before the repair or after the append. |
| `WriteAhead.LoggedButUnreadable` | src/storage/write_ahead_log.cpp:25-26 | A document whose ID is one byte over the read limit is appended, and the log then fails to replay. |
| `WriteAhead.OverlongLogFails` | src/storage/write_ahead_log.cpp:25-26 | Eleven hundred documents, each within the limits as is their number, make a file that does not replay. |
| `WriteAhead.ReplaysIff` | src/storage/write_ahead_log.cpp:25-26 | A log that `append` wrote replays if and only if the file, the number of documents and every document respect the read limits; then all come back, and otherwise nothing does. |
| `WriteAhead.ReplaysWithTailIff` | src/storage/write_ahead_log.cpp:25-26 | With a torn record at its end a log replays if and only if the file, the number of complete records and each of them are within the limits and the torn record, if its header is there, does not announce more than the record limit; then exactly the complete records come back. |
| `WriteAhead.TornOverLimitFails` | src/storage/write_ahead_log.cpp:25-26 | An append of a record over the limit that is cut off behind its header makes a log without any complete record fail to replay. |
| `WriteAhead.ComputeCrc` | src/storage/write_ahead_log.cpp:19 | The bit loop computes the CRC32C of section 12.1 of RFC 3720. |
| `WriteAhead.KnownCrc` | src/storage/write_ahead_log.cpp:19 | On the input `a` the checksum has the published value of CRC32C. |
| `Bytes.LittleAt` | src/storage/write_ahead_log.cpp:16-17 | Byte i of a written integer is its i-th digit in base 256, lowest first. |
| `WriteAhead.KnownRecord` | src/storage/write_ahead_log.cpp:16-21 | The payload of a deletion, byte by byte. |
| `WriteAhead.EncodeDocument` | src/storage/write_ahead_log.cpp:16-21 | The append loops write the specified payload, or fail exactly when a size does not fit its field. |
| `WriteAhead.Cursor.Strings` | src/storage/write_ahead_log.cpp:20-22 | The cursor reads one string map and stands behind it, or rejects it for its count, a truncated or oversized text, an empty or a repeated key. |
| `WriteAhead.DecodeDocument` | src/storage/write_ahead_log.cpp:22 | The cursor computes the specified document or reports corruption, on every byte string. |
| `WriteAhead.WriteAheadLog.Append` | src/storage/write_ahead_log.cpp:25 | Refused untouched, or the whole record is appended; on a failure a prefix of it, or all of it, stays in the file. |
| `WriteAhead.WriteAheadLog.Replay` | src/storage/write_ahead_log.cpp:26 | The size test and the loop return what the log holds and truncate the file to the last complete record; an error leaves it alone. |
| `VariableBytes.Encode` | src/storage/posting_codec.cpp:4 | The loop appends the canonical variable-byte form. |
| `VariableBytes.VarByteAt` | src/storage/posting_codec.cpp:4 | Byte i holds the i-th digit in base 128, lowest first, only the last byte has its top bit set, and there are no more bytes than needed. |
| `VariableBytes.Decode` | src/storage/posting_codec.cpp:5 | The loop reads one integer and its end, with truncation, overflow and non-canonical forms told apart. |
| `VariableBytes.VarByteIsBijective` | src/storage/posting_codec.cpp:4-5 | Decoding accepts exactly the images of encoding: a bijection on 32-bit integers. |
| `VariableBytes.EncodeDeltas` | src/storage/posting_codec.cpp:6 | Succeeds exactly on strictly increasing positive values. |
| `VariableBytes.DecodeDeltas` | src/storage/posting_codec.cpp:7 | The loop computes the specified values, with limits, order, overflow and trailing bytes checked. |
| `VariableBytes.UndeltaInvertsDeltas` | src/storage/posting_codec.cpp:6-7 | Delta decoding inverts delta encoding on every strictly increasing list, whatever follows. |
| `SectionCoding.EncodeSections` | src/storage/segment.cpp:178-214 | The loops with their running offsets and counters write the specified three sections, in either format. |
| `SectionCoding.DecodeSections` | src/storage/segment.cpp:425-463 | The cursor loops read back exactly what the specified decoder does, or reject. |
| `PostingSections.SectionsRoundTrip` | src/storage/segment.cpp:178-214 | Compressed and fixed-width sections both decode to the dictionary that was encoded if and only if it is within the read limits, and are rejected otherwise. |
| `SegmentDictionary.GatherAll` | src/storage/segment.cpp:460 | The loop puts every term in its field and rejects a repeated one. |
| `SegmentDictionary.GatherInvertsListing` | src/storage/segment.cpp:460 | Inserting the listed terms one by one rebuilds the dictionary and meets no duplicate. |
| `SegmentDictionary.DictionaryRoundTrip` | src/storage/segment.cpp:425-463 | For every reachable index and either format, writing and reading the sections gives exactly its term dictionary if that is within the read limits, and is rejected otherwise. |
| `Replication.OrderedReplica.Apply` | src/distributed/replication.cpp:11 | Only the next record in sequence is applied, an exact repeat is recognised, anything else is turned away with nothing changed; the index stays the fold of the applied records. |
| `Replication.JudgeIs` | src/distributed/replication.cpp:11 | What a replica answers, said of its log alone: each error, duplicate and application exactly under its own condition. |
| `Replication.FollowerAnswers` | src/distributed/replication.cpp:11 | A replica at a prefix of a gap-free log takes the next record and calls every earlier one a duplicate. |
| `Replication.Select` | src/distributed/replication.cpp:14 | Some eligible replica that is healthy unless no eligible one is and comes first among those of its health by lag, then by work in flight, then by ID; an error exactly when no replica in service is within the lag. |
| `Replication.BestIsHealthy` | src/distributed/replication.cpp:14 | A replica chosen is in service, and healthy whenever an eligible healthy one exists. |
| `Replication.AcknowledgingIs` | src/distributed/replication.cpp:17 | A receipt counts the primary and exactly the other replicas in service. |
| `Replication.ReplicationGroup.Create` | src/distributed/replication.cpp:15-16 | Succeeds exactly for a valid topology, with empty replicas. |
| `Replication.ReplicationGroup.Submit` | src/distributed/replication.cpp:17 | The log grows by exactly the new record or not at all, numbered 1..n; the receipt counts primary and in-service replicas, and an `all_replicas` success means all replicas are equal. |
| `Replication.ReplicationGroup.CatchUp` | src/distributed/replication.cpp:20 | Replaying the log completes a replica from any prefix and never fails. |
| `Replication.ReplicationGroup.SetHealth` | src/distributed/replication.cpp:20 | A known node always changes health and comes into service only complete. |
| `Replication.ReplicationGroup.Statuses` | src/distributed/replication.cpp:18 | The reported lag is the distance from the end of the log. |
| `Replication.ReplicationGroup.SelectReadReplica` | src/distributed/replication.cpp:19 | Whatever lag is tolerated, the replica chosen for reads holds exactly the primary's documents and is suspect only if none is healthy; none is found only if none is in service. |
| `ReplicaRecovery.UnwrapInvertsWrap` | src/distributed/replication.cpp:23-87 | A record wrapped as a log document unwraps to itself. |
| `ReplicaRecovery.LogRoundTrip` | src/distributed/replication.cpp:23-87 | The bytes of the persistent log give back every gap-free list of records appended to it if and only if they are within the read limits, and otherwise an error. |
| `ReplicaRecovery.TornAppend` | src/distributed/replication.cpp:23-87 | After an append that did not finish, the file gives back the records before it and is repaired if and only if these are within the read limits and the torn record does not announce more than one; otherwise nothing comes back and the file stays. |
| `ReplicaRecovery.RepeatedAppendFails` | src/distributed/replication.cpp:23-87 | An append that reported an error with the whole record in the file, tried again, makes every later replay fail. |
| `ReplicaRecovery.UnwrappedIsGapFree` | src/distributed/replication.cpp:47-87 | Nothing but gap-free records of the right shard and epoch is ever given back. |
| `ReplicaRecovery.PersistentMutationLog.Append` | src/distributed/replication.cpp:23-45 | An incomplete identity or a record too large leaves the file alone; otherwise the record, or on a failure a prefix or all of it, is appended. |
| `ReplicaRecovery.LogBytesAppend` | src/distributed/replication.cpp:41 | What an append adds to the file of a list of records gives the file of the longer list, so appends in turn write the log that `LogRoundTrip` is about. |
| `ReplicaRecovery.PersistentMutationLog.Replay` | src/distributed/replication.cpp:47-87 | The replay of the file underneath, with its limits and its repair, then the unwrapped records or the first error. |
| `ReplicaRecovery.RecoverReplica` | src/distributed/replication.cpp:96-107 | Recovery equals direct application of the records the file gives back: all go in, or the result is the first refusal. |
| `ReplicaRecovery.OrderedGoesIn` | src/distributed/replication.cpp:11 | A gap-free list of records goes into a fresh replica whole if and only if its operations are named once and every mutation is acceptable where it stands. |
| `ReplicaRecovery.RefusalByContents` | src/index/in_memory_index.cpp:10-60 | Whether a mutation is accepted depends on the documents, not on their internal IDs. |
| `ReplicaRecovery.CatchUpAgrees` | src/distributed/replication.cpp:11-12 | A snapshot at k and records k+1..n give the same documents as records 1..n, and every later record is accepted. |
| `ReplicaRecovery.SamePostings` | src/distributed/replication.cpp:12 | Equal documents have equal postings up to the renaming of internal IDs. |
| `ReplicaRecovery.SameSlots` | src/distributed/replication.cpp:12 | That renaming is a bijection. |
| `ReplicaRecovery.WriteSnapshot` | src/distributed/replication.cpp:109-121 | The snapshot holds exactly the replica's documents under its applied sequence; an empty replica is refused, and so is one whose segment file would be over the read limits. |
| `ReplicaRecovery.Restore` | src/distributed/replication.cpp:12 | The restored replica holds exactly the snapshot's documents and starts at its sequence. |
| `ReplicaRecovery.CatchUp` | src/distributed/replication.cpp:11-12 | A restored replica takes every later record and ends with the documents of the whole log. |
| `Lexing.Lex` | src/query/lexer.cpp:33-134 | The cursor loop computes the list of lexemes or the first error, with every limit and escape. |
| `Lexing.LexedEnds` | src/query/lexer.cpp:132-134 | Every lexed query ends with the end token. |
| `Spelling.SpelledLexes` | src/query/lexer.cpp:33-134 | Every text that spells a list of lexemes within the limits, with any spacing between them, lexes to it. |
| `Spelling.LexedIsSpelled` | src/query/lexer.cpp:33-134 | Whatever lexes spells its lexemes within the limits. |
| `Spelling.LexemesStandWhereTheySay` | src/query/lexer.cpp:33-134 | Every lexeme carries the place in the text at which it begins, in increasing order. |
| `Parsing.Parser.ParseOr` | src/query/parser.cpp:45-56 | On every lexeme sequence the recursive descent terminates, never leaves the lexemes, restores the depth and computes the result whose meaning is `Grammar.ParsesIff`. |
| `Parsing.Parser.ParsePrimary` | src/query/parser.cpp:114-160 | The same for terms, phrases, fields, ranges and groups, errors and nesting limit included. |
| `Parsing.Parse` | src/query/parser.cpp:194-198 | Lexing and parsing give a tree exactly for the texts of that tree (`Rendering.AcceptsExactly`), or the first error, on every input. |
| `Grammar.ParsesIff` | src/query/parser.cpp:18-184 | Lexemes parse to a tree if and only if they are what a proper way of writing that tree yields within the nesting limit: adjacency and OR below AND, below NOT, below boosts, below fields. |
| `Rendering.AcceptsExactly` | src/query/parser.cpp:18-198 | A text parses to a tree if and only if it is within the limits and spells a proper way of writing that tree. |
| `Rendering.AdjacentWords` | docs/query_language.md:31-32 | Two adjacent words are their disjunction. |
| `Rendering.OrOfAnd` | src/query/parser.cpp:45-69 | `a OR b AND c` is the disjunction of a and the conjunction. |
| `Rendering.NotBeforeAnd` | src/query/parser.cpp:58-79 | `NOT a AND b` is the conjunction of the negation and b. |
| `Rendering.BoostOfField` | src/query/parser.cpp:81-132 | `f:a^2` is the boost of the field query. |
| `Rendering.OperatorsInAnyCase` | src/query/lexer.cpp:8-29 | AND, OR, NOT and TO are operators in any mixture of cases. |
| `Rendering.RenderParses` | src/query/parser.cpp:18-184 | For every tree within the limits, lexing and parsing its escaped text returns that tree, both for the printer that writes all parentheses and for the one that writes them only where precedence needs them and OR as adjacency where it can. |
| `Rendering.ParsedIsRenderable` | src/query/parser.cpp:18-184 | Every tree the parser returns can be written, given a printer for its boosts, so the round trip shuts out no query. |
| `ResultCache.QueryResultCache.Get` | src/query/cache.cpp:6 | A hit is the value last put under the key and becomes the most recently used entry; a miss changes only its counter. |
| `ResultCache.QueryResultCache.Put` | src/query/cache.cpp:7 | Byte count, list and lookup stay in agreement within the bound; the new entry is in front and stays. |
| `ResultCache.QueryResultCache.InvalidateBefore` | src/query/cache.cpp:8 | Exactly the entries of older generations leave, in order. |
| `ResultCache.FittingIsLongest` | src/query/cache.cpp:7 | Eviction removes the shortest suffix: with one entry more the bound would not hold. |
| `ResultCache.FrontStays` | src/query/cache.cpp:7 | An entry that fits on its own is never evicted by its own insertion. |
| `RankingMetrics.Evaluate` | src/evaluation/metrics.cpp:7-36 | The accumulator loops compute the defined metrics, all in [0,1] for distinct documents. |
| `RankingMetrics.IdealIsBest` | src/evaluation/metrics.cpp:20-28 | No ranking of distinct documents gains more, discounted, than the judged grades in falling order. |
| `RankingMetrics.MetricsInUnit` | src/evaluation/metrics.cpp:31-35 | Precision, recall, average precision, reciprocal rank and nDCG of distinct documents lie in [0,1]. |
| `RankingMetrics.PerfectRankingIsOne` | src/evaluation/metrics.cpp:20-35 | A ranking of exactly the relevant documents by falling grade has every metric 1. |
| `RankingMetrics.WorthlessRankingIsZero` | src/evaluation/metrics.cpp:7-36 | A ranking without relevant documents has every metric 0. |
| `RankingMetrics.PrecisionCountsPlaces` | src/evaluation/metrics.cpp:29-33 | Precision at k counts empty places against the ranking, and what is listed behind place k changes neither precision nor recall nor nDCG. |
| `RankingMetrics.RecallInUnitIff` | src/evaluation/metrics.cpp:29-33 | Recall lies in [0,1] if and only if the relevant documents among the first k, counted as often as they are listed, are no more than the relevant ones. |
| `RankingMetrics.RepeatedDocumentExceedsOne` | src/evaluation/metrics.cpp:29-35 | A document listed twice gives recall 2. |

## Left out

- I/O, clocks, threads and condition variables: a file operation is an atomic durable step or a parameter that says how far it got; waits are guards of steps; temporary files are not modelled.
- IEEE rounding: scores, boosts and metrics are exact reals, so the checks for non-finite numbers have no counterpart; log, log2, the boost printer and the number reader are parameters with the facts used.
- Boost printing: the printer is assumed to tell the boosts in use apart and to use neither comma nor closing parenthesis.
- Schema validation of whole schemas: every indexed field is assumed to have an analyzer; src/index/schema.cpp:48-57 admits an indexed field without one and src/index/in_memory_index.cpp:72 would dereference it.
- Empty children of query and plan nodes: null pointers cannot be written in the datatypes.
- The reference evaluator's fallback to stored metadata for analysed fields (tests/support/reference_evaluator.cpp:23-30): the model reads analysed text from `fields` only, as the index does.
- validate_invariants of index and segment: the facts they audit are the class invariant, which is proved; the audit itself would only repeat it.
- The segment header, directory, schema, document and statistics bytes and the error codes of sections: the three posting sections carry the hard part; a rejected section is `None`.
- WriterMachine: logs and manifests are values there, and which of them are within the read limits is a parameter; the limits themselves are proved on the bytes, by `ReplaysIff` and `LoadCurrent`.
- Segment read limits other than the number of documents (file, names and texts, fields, terms, postings, positions): one parameter of the merge; for the three posting sections they are proved on the bytes, by `SectionsRoundTrip`.
- Torn files: an append that did not finish leaves a prefix of its record; blocks written out of order by the disk are not modelled.
- WriterMachine: a rename that has happened survives a crash even when making it durable reported an error, and a compaction that would index past the end of the opened readers has no step.
- Failures to read, stat or truncate a file during replay and loading: an error that leaves everything as it is.
- WriterMachine: the selection of a compaction is any subset of the segments, which includes the smallest ones that `ChooseSmallest` proves are taken.
- WriterMachine: the destructor and closing are not steps; a crash covers what they could lose.
- Counters of 64 bits (generations, segment IDs, sequences, cache statistics): unbounded, wrap-around is out of reach of any run.
- The shard RPC, TCP transport, deadlines, telemetry, command lines, benchmarks and document files: input and output or single-pass code.
- Hash-table details of the cache key and the quality of routing: only determinism and the range matter.
