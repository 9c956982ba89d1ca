# Verified model of the opportunity engine

This project models, in Dafny, the deterministic middle layer of the backend: the opportunity table and its
lifecycle, keyset pagination, the scoring engine, the chunker, rank fusion, the in-process limiters, the tool
executor with its budget, the investigation graph and its decision stages, the embedding cache, semantic memory,
and the posting printer with the keyword parser that reads postings back.

Run `dafny verify dfyconfig.toml` in this directory to check everything.

## How it is organised

| Files | What they hold |
|---|---|
| `Text`, `LabelScan`, `FieldText`, `Vocabulary`, `Posting` | string primitives, the line scanner, the field parsers, and the print/parse round trip |
| `Lifecycle`, `Freshness`, `Dedup`, `DedupLaws`, `OpportunityStore`, `StoreLaws`, `IngestionService` | the opportunity table as a value with an event log, its invariants over every history, and the class that updates it in place |
| `Pagination`, `CursorCodec` | listings, cursors and traversals while other writers change the table; the opaque cursor text |
| `Chunking`, `ChunkTheorems`, `Paragraphs`, `ChunkLayout` | the chunker's loops, what they guarantee together, how a text is cut, and which blocks share a chunk |
| `Rounding`, `Weights`, `WeightLaws`, `Scoring`, `ScoringLaws` | quantising, the weight vectors, the score |
| `StableSort`, `Fusion` | the stable descending sort, and reciprocal rank fusion |
| `SlidingWindow`, `RateLimiters`, `ToolExecutor` | window arithmetic over histories, the two limiters, budget and executor |
| `Investigation`, `InvestigationPaths`, `Decisions` | the state graph with its runs and audit; stress test, gates and decisions |
| `EmbeddingCache`, `Memory` | the cache in front of an embedding provider; superseding memory records |

Conventions. Where the code updates an object or runs a loop, the model is a class or a method proved equal to a
function, and the properties are proved about that function. Exceptions are `Result` or `Option` values. Queries
that pick one row without an order may return any matching row. Times are reals or microsecond counts passed in by
the caller; agents' answers are arbitrary. Quantised numbers are counts of quanta (10000 for 1.0000, and so on).

## Where the code does something else than it looks like

- A value that holds a comma-separated list or a colon is read back correctly, but a skill with a comma in it is
  not (`Posting.CommaInSkillSplits`). The round trip holds exactly for the rows that `Posting.RoundTripIff`
  describes: any other row is extracted as something else than its label.
- The URL and hash probes skip flagged duplicates, but the content hash is unique in the table. Ingesting the same
  payload as a flagged duplicate therefore fails on insert. `OpportunityStore.IntegrityErrorIff` says exactly when,
  `OpportunityStore.FlaggedPayloadFails` reaches the failure from the empty table, and
  `OpportunityStore.IngestTwice` says what a second ingest of one payload leads to.
- Refreshing an inactive row that is past its date records a revalidation, not an expiry
  (`OpportunityStore.RefreshRecords`).
- A word that alone exceeds the chunk size is dropped (`ChunkTheorems.OversizedWordIsDropped`);
  `ChunkTheorems.LosslessIff` says that nothing else ever is.
- Memory stores the stripped key and looks the raw key up. `Memory.UniqueIff` says exactly when a write keeps one
  active record a key, and `Memory.UntrimmedKeyForks` gives a write that does not.
- Raising the verdict pressure from the middle to the top band makes a strong recommendation milder:
  `Decisions.PressureMonotoneIff` says exactly when, `Decisions.MorePressureCanBeMilder` gives a case.
- Only successful tool calls are charged, the remaining money is never checked, and a call that succeeds after a
  retry stores the error text of the failed attempt (`ToolExecutor.SuccessIff`).
- No node of the investigation graph updates the remaining money, so a run that starts without any never replans
  (`Investigation.InvestigationLength`).
- The HTTP limiter raises an index error on every hit if its limit is not positive, and never otherwise
  (`RateLimiters.IndexErrorIff`).

## Model

| member | source | states |
|---|---|---|
| LabelScan.FindAllPrinted | backend/app/finetuning/baselines.py:16-39 | the line scanner finds every label of a printed posting with its value, in order, also when a value holds colons or is padded with blanks; only leading blanks are dropped |
| LabelScan.PrintedIsScanned | backend/app/finetuning/baselines.py:16-39 | printing and scanning are inverse on fields whose values are trimmed lines |
| LabelScan.MatchPrinted | backend/app/finetuning/baselines.py:16-16 | one printed line is matched as its own label and its value without leading blanks, whatever follows on later lines |
| FieldText.DigitsRoundTrip | backend/app/finetuning/baselines.py:135-137 | decimal integers are printed in digits only, without leading zeros, and read back |
| FieldText.CsvRoundTrip | backend/app/finetuning/baselines.py:113-116 | splitting a comma-joined list gives the list, for non-empty trimmed parts without commas |
| FieldText.ParsedCsvIsClean | backend/app/finetuning/baselines.py:113-116 | whatever the text, every parsed part is non-empty, trimmed and free of commas |
| FieldText.CompensationRoundTrip | backend/app/finetuning/baselines.py:119-140 | the search finds the printed amounts, currency and period of every clean compensation |
| FieldText.CompensationAnyCase | backend/app/finetuning/baselines.py:119-140 | amounts behind any text without digits are found, in any mix of cases, with the currency in upper and the period in lower case |
| FieldText.MissingPeriodIsYear | backend/app/data/extraction_gold.py:49-56 | a compensation without a period is printed, and read back, with the period year |
| FieldText.ParsedCompensationIsClean | backend/app/finetuning/baselines.py:119-140 | whatever the text, a parsed compensation is absent altogether or complete, with an upper-case three-letter currency and a lower-case period, over the ASCII classes |
| Posting.CorpusItemToPosting | backend/app/data/extraction_gold.py:27-58 | appending line by line gives the declared posting text of the row |
| Posting.CategoryRoundTrip | backend/app/finetuning/baselines.py:86-92 | every category is read back from its printed value |
| Posting.RemoteRoundTrip | backend/app/finetuning/baselines.py:95-101 | every remote status is read back from its printed value |
| Posting.CategoryIff | backend/app/finetuning/baselines.py:86-92 | a category is read exactly from its value in any case and padding; everything else is OTHER |
| Posting.RemoteIff | backend/app/finetuning/baselines.py:95-101 | a remote status is read exactly from its value in any case and padding; everything else is UNKNOWN |
| Posting.NothingFound | backend/app/finetuning/baselines.py:35-63 | a text without labelled lines gives the defaults |
| Posting.ScanRendered | backend/app/finetuning/baselines.py:35-40 | the field dictionary of a printed row with visible slots holds exactly the printed slots, stripped, and nothing for the omitted ones |
| Posting.ExtractClean | backend/app/finetuning/baselines.py:35-63 | extracting a printed clean row gives its label, but for empty text fields, the organisation Unknown when there is none, and the padding of the deadline |
| Posting.ExtractedIsClean | backend/app/finetuning/baselines.py:35-63 | whatever the text, every value the extractor puts into a result is trimmed, on one line and well-formed |
| Posting.RoundTripIff | backend/app/data/extraction_gold.py:27-88 | for every row whose deadline is absent, empty or one visible line: print and extract give its label if and only if the row is well-formed, within the schema limits, and its deadline means the same without its padding; and whatever the deadline, no row with another unclean field survives |
| Posting.CommaInSkillSplits | backend/app/finetuning/baselines.py:113-116 | a row whose skill holds a comma does not survive |
| Lifecycle.InactiveIsForGood | backend/app/services/lifecycle.py:27-84 | along any path of legal moves an inactive status stays inactive, and ARCHIVED has no way out |
| Lifecycle.MovesGoForward | backend/app/services/lifecycle.py:27-84 | among active statuses exactly the forward moves and two withdrawals are legal, and every status but ARCHIVED can fall into every other exit |
| Lifecycle.ScoringNeverFails | backend/app/services/scoring_service.py:60-63 | scoring an active row is always a legal move, and a no-op exactly when the row is there already |
| Pagination.ApplyFilters | backend/app/services/opportunity_service.py:101-131 | the conditions built one by one select exactly the rows the filters ask for |
| Pagination.ListOpportunities | backend/app/services/opportunity_service.py:154-208 | one request returns the first rows of the sorted, filtered listing behind the cursor, with a cursor at the last one exactly when more follow |
| Pagination.ListingMembers | backend/app/services/opportunity_service.py:168-192 | a listing holds exactly the matching rows strictly behind the cursor |
| Pagination.ListingOrdered | backend/app/services/opportunity_service.py:93-99 | a listing is in strict (sort value, id) order |
| Pagination.OrderedUnique | backend/app/services/opportunity_service.py:187-192 | the order determines the list: same rows, same listing |
| Pagination.PageColumns | backend/app/services/opportunity_service.py:93-99 | in the rows' own columns: by deadline dates rise and undated rows come last, by score scores fall and unscored rows come last, by recency creation falls, ties by id, for deadlines before the year 9999 ends and scores that are not negative |
| Pagination.PageStartsAtTheTop | backend/app/services/opportunity_service.py:187-192 | no matching row belongs before the first row of the first page |
| Pagination.TraverseOrdered | backend/app/services/opportunity_service.py:168-208 | pages read from a changing table stay in strict order across page borders |
| Pagination.TraverseComplete | backend/app/services/opportunity_service.py:168-208 | a row present with an unchanged key throughout is returned by a finished traversal |
| Pagination.TraversalUnderInterference | backend/app/services/opportunity_service.py:154-208 | whatever is inserted, deleted or changed between pages, no key is returned twice, the order holds, and each row that stayed put is returned exactly once |
| Pagination.PagesAreSound | backend/app/services/opportunity_service.py:168-208 | every returned row was in the table its page was read from and matched the filters |
| Pagination.ListingBehind | backend/app/services/opportunity_service.py:172-186 | the listing behind the cursor of a full page is the rest of the listing |
| Pagination.StaticTraversal | backend/app/services/opportunity_service.py:154-208 | on an unchanged table the pages concatenate to the listing in exactly PageCount pages |
| Pagination.PageCountIsCeiling | backend/app/services/opportunity_service.py:192-198 | that page count is the least one that holds all rows, at least one |
| CursorCodec.PaddingRestored | backend/app/services/opportunity_service.py:41-50 | the stripped base64 padding is restored from the length alone |
| CursorCodec.PaddedRoundTrip | backend/app/services/opportunity_service.py:41-50 | base64url decoding inverts encoding for every byte string |
| CursorCodec.UpperLetters | backend/app/services/opportunity_service.py:41-43 | values 0 to 25 are the upper-case letters of the base64url alphabet |
| CursorCodec.LowerLetters | backend/app/services/opportunity_service.py:41-43 | values 26 to 51 are its lower-case letters |
| CursorCodec.DigitsAndMarks | backend/app/services/opportunity_service.py:41-43 | values 52 to 63 are the digits, the dash and the underscore |
| CursorCodec.GroupIsPositional | backend/app/services/opportunity_service.py:41-43 | four sextets are the same 24-bit number as the three bytes |
| CursorCodec.CursorRoundTrip | backend/app/services/opportunity_service.py:34-52 | decoding an encoded cursor gives the same sort value and id, for every key whose own texts read back, and only then |
| CursorCodec.ServeOpportunities | backend/app/services/opportunity_service.py:154-208 | a request with a malformed cursor is an error, and any other one is answered by the page behind the decoded position |
| CursorCodec.ServedCursorContinues | backend/app/services/opportunity_service.py:197-207 | handing a served cursor back continues at the position the page ended at |
| Chunking.SplitBlocksWords | backend/app/retrieval/chunking.py:21-26 | cutting a text into paragraph blocks loses and reorders no word |
| Paragraphs.BlocksRoundTrip | backend/app/retrieval/chunking.py:21-26 | the blocks of paragraphs joined by two or more line ends are those paragraphs |
| Paragraphs.WindowsBlocks | backend/app/retrieval/chunking.py:21-26 | Windows line ends make no difference |
| Paragraphs.EstimateIsLeast | backend/app/retrieval/chunking.py:12-18 | the estimate is the least number no less than the words and the full quarters of the trimmed length |
| Chunking.SplitLongBlock | backend/app/retrieval/chunking.py:89-105 | the splitter emits the greedy runs of the block's words |
| Chunking.SplitWords | backend/app/retrieval/chunking.py:93-104 | the two loops emit the greedy runs for any notion of what fits |
| Chunking.RunsMaximal | backend/app/retrieval/chunking.py:95-104 | every emitted run fits, and with one more word it would not |
| Chunking.RunsKeepWords | backend/app/retrieval/chunking.py:95-104 | the emitted pieces hold, in order, every word but the individually oversized ones |
| Chunking.SplitFacts | backend/app/retrieval/chunking.py:89-105 | pieces are within max_tokens, maximal, non-blank, and keep all words that fit |
| Chunking.TailTokens | backend/app/retrieval/chunking.py:108-119 | the overlap is the declared tail: the fewest last words that reach overlap_tokens, or all |
| Chunking.CollectTail | backend/app/retrieval/chunking.py:114-118 | the loop over the reversed words stops at that number of words |
| Paragraphs.TailIsLeast | backend/app/retrieval/chunking.py:108-119 | the tail reaches the overlap unless it is the whole text, and with fewer words it would not |
| Paragraphs.TailIsSuffix | backend/app/retrieval/chunking.py:108-119 | the words of the tail are the last words of the text |
| Chunking.ChunkText | backend/app/retrieval/chunking.py:29-86 | the chunks are those of the declared packing; the two configuration errors are raised exactly when they apply |
| ChunkLayout.FittingBlocksArePackedGreedily | backend/app/retrieval/chunking.py:64-85 | when every block fits, the chunks hold the blocks in order, a block joins the current chunk exactly while the sum of estimates stays within max_tokens, and every later chunk starts with an overlap if one is asked for |
| ChunkLayout.SingleChunkIff | backend/app/retrieval/chunking.py:64-85 | fitting blocks make a single chunk if and only if their estimates sum to at most max_tokens |
| ChunkLayout.LongBlockSeparates | backend/app/retrieval/chunking.py:64-72 | before and behind an oversized block the text is chunked as if it stood alone, with the pieces of the block in between |
| ChunkTheorems.GlueEstimate | backend/app/retrieval/chunking.py:12-18 | joining n non-empty blocks adds at most floor((5n-2)/4) to the sum of their estimates |
| ChunkTheorems.StepHolds | backend/app/retrieval/chunking.py:64-83 | one block, whichever branch it takes, keeps the chunking invariant |
| ChunkTheorems.PackHolds | backend/app/retrieval/chunking.py:64-85 | the invariant holds for every list of blocks |
| ChunkTheorems.ChunkingIsFaithful | backend/app/retrieval/chunking.py:29-86 | chunks without their overlaps concatenate to the words that are not oversized; indices run from zero; each overlap is the previous chunk's tail; each chunk is within max_tokens + overlap + floor((5n-2)/4) |
| ChunkTheorems.LosslessIff | backend/app/retrieval/chunking.py:29-105 | nothing is lost if and only if no word is oversized on its own |
| ChunkTheorems.OversizedWordVanishes | backend/app/retrieval/chunking.py:95-104 | a text that is one oversized word yields nothing at all |
| ChunkTheorems.OversizedWordIsDropped | backend/app/retrieval/chunking.py:95-104 | with a budget of one token an eight-letter word is dropped |
| Weights.ReadEntries | backend/app/services/scoring.py:160-169 | raw weights are read exactly when every key is a benefit dimension and every value a usable weight, in the order of their first naming |
| Weights.FillMissing | backend/app/services/scoring.py:171-172 | unnamed dimensions weigh nothing and follow the named ones in their standard order |
| Weights.SumQuantised | backend/app/services/scoring.py:178-182 | quantising n ratios moves their sum by at most n/2 quanta |
| Weights.DriftIsSmall | backend/app/services/scoring.py:182-183 | the drift is at most four quanta and the heaviest weight is worth more than that |
| Weights.RepairedIsNormalised | backend/app/services/scoring.py:181-184 | after the repair the vector sums to exactly one, is non-negative, keeps zeros, and is within 4.5e-8 of the exact ratios |
| Weights.RatiosAreShares | backend/app/services/scoring.py:174-178 | dividing by the positive total gives non-negative ratios that sum to one |
| Weights.Quantise | backend/app/services/scoring.py:181-184 | quantising and giving the drift to the first heaviest entry produces such a vector; every other entry is just its rounded ratio |
| Weights.Construct | backend/app/services/scoring.py:128-143 | the constructor's checks never fire on a repaired vector |
| Weights.Build | backend/app/services/scoring.py:146-191 | succeeds if and only if the input is acceptable, with a valid, exactly normalised vector whose drift is in the first heaviest entry of the dictionary's order |
| Weights.WithOverride | backend/app/services/scoring.py:193-216 | a partial override replaces raw weights, rejects unknown keys, and normalises again |
| WeightLaws.OverriddenRaw | backend/app/services/scoring.py:202-216 | an override replaces exactly the benefit weights it names, by the last value it gives them |
| WeightLaws.OverriddenCost | backend/app/services/scoring.py:203-210 | and likewise the two cost weights |
| WeightLaws.RawIsLast | backend/app/services/scoring.py:160-169 | a raw weight is the last value given for its dimension |
| Scoring.Redistribute | backend/app/services/scoring.py:447-460 | the loop gives every known dimension its proportional share and sums to the weighted mean |
| Scoring.Score | backend/app/services/scoring.py:422-513 | overall, confidence, verdict, version, and the dimensions, effective weights, contributions, benefit and cost as quantised for display |
| Scoring.BenefitIsConvex | backend/app/services/scoring.py:447-460 | benefit lies between any bounds of the known values |
| Scoring.SharesSumToOne | backend/app/services/scoring.py:450-457 | redistributed shares sum to one |
| Scoring.RevealingMovesBenefit | backend/app/services/scoring.py:447-460 | revealing a dimension moves benefit towards the revealed value and never past it; with no weight known before, benefit becomes that value if the dimension weighs anything |
| Scoring.OverallInRange | backend/app/services/scoring.py:466-467 | the overall score is in [0, 100] |
| Scoring.OverallMonotone | backend/app/services/scoring.py:447-467 | overall never falls when known benefits rise and effort and risk fall, through clipping and half-up rounding |
| ScoringLaws.CostOfRevealing | backend/app/services/scoring.py:462-464 | revealing effort adds the effort weight times its value to the cost, revealing risk the risk weight times its value, and a benefit dimension nothing |
| ScoringLaws.WeightlessCost | backend/app/services/scoring.py:462-467 | a cost whose weight is zero does not move the score |
| ScoringLaws.OverallIsRatio | backend/app/services/scoring.py:464-467 | overall is a hundred times benefit over cost, rounded half up to hundredths; without known costs the cost is one |
| ScoringLaws.RevealingIsWeighted | backend/app/services/scoring.py:447-460 | a revealed benefit dimension enters the mean with exactly its weight |
| Scoring.RevealingRaisesConfidence | backend/app/services/scoring.py:474-480 | revealing any dimension never lowers confidence |
| Scoring.ConfidenceInRange | backend/app/services/scoring.py:474-480 | confidence is in [0, 1] for every vector the constructor lets through |
| ScoringLaws.RevealingAddsItsWeight | backend/app/services/scoring.py:474-479 | revealing any dimension adds exactly its own weight to the known weight |
| ScoringLaws.ConfidenceIsShare | backend/app/services/scoring.py:474-480 | confidence is the known share of all weight, rounded half up to four places |
| ScoringLaws.ConfidenceExtremes | backend/app/services/scoring.py:474-480 | nothing known is confidence zero, everything known is confidence one |
| Scoring.VerdictMonotone | backend/app/services/scoring.py:516-534 | with the same known dimensions, a score that is at least as good gets a verdict at least as enthusiastic |
| Scoring.EnthusiasmIsEarned | backend/app/services/scoring.py:364-374 | PURSUE verdicts need an eligible row, the threshold and the confidence floor |
| ScoringLaws.VerdictBands | backend/app/services/scoring.py:364-374 | every verdict by its band of the score, the confidence floor and eligibility |
| ScoringLaws.ClampIs | backend/app/services/scoring.py:97-112 | a factor is capped to [0, 1], and unknown unless it is a finite number |
| Fusion.ReciprocalRankFusion | backend/app/retrieval/hybrid.py:10-35 | the output is the prefix of all keys sorted by declarative score, ties by first occurrence, each with its last passage |
| Fusion.Count | backend/app/retrieval/hybrid.py:15-22 | the loops compute, for every key, the sum over its occurrences of 1/(60+rank), and keep its last passage |
| Fusion.TallyStep | backend/app/retrieval/hybrid.py:19-22 | one more passage keeps the dictionaries equal to the declarative score and last passage |
| Fusion.GainIs | backend/app/retrieval/hybrid.py:19-21 | rank i counted from one is worth 1/(60+i) |
| Fusion.SameKeyIff | backend/app/retrieval/hybrid.py:38-41 | passages are the same exactly with the same chunk, or without one and with the same content hash |
| StableSort.SortDescRanked | backend/app/retrieval/hybrid.py:24-24 | the stable descending sort ranks by score, then by insertion |
| Fusion.MassIsConserved | backend/app/retrieval/hybrid.py:15-22 | the scores of all keys sum to the worth of all list positions |
| Fusion.DominatedTotal | backend/app/retrieval/hybrid.py:18-22 | a passage ahead of another in every list that holds the other scores strictly more |
| Fusion.DominantPrecedes | backend/app/retrieval/hybrid.py:10-35 | such a passage precedes the other in the result and is never cut while the other is kept |
| Fusion.DominantIsReported | backend/app/retrieval/hybrid.py:24-35 | wherever the dominated passage is reported, the other is reported before it with a higher score |
| SlidingWindow.HitValid | backend/app/api/middleware.py:123-135 | every hit keeps the window invariant, for the half-open and the closed window |
| SlidingWindow.WindowBounds | backend/app/api/middleware.py:126-128 | the half-open window is (t-w, t] and the closed one [t-w, t] |
| SlidingWindow.SpacedCount | backend/app/api/middleware.py:127-135 | hits spaced by the invariant never put more than the limit into any window |
| SlidingWindow.RunValid | backend/app/api/middleware.py:120-135 | the invariant holds for every key after every chronological history |
| SlidingWindow.NeverOverLimit | backend/app/api/middleware.py:113-135 | over any history and for any window end, no key has more accepted hits in the window than its limit |
| SlidingWindow.RefusedOnlyWhenFull | backend/app/tools/rate_limit.py:19-28 | a hit is refused exactly when the window that ends with it is full |
| RateLimiters.IndexErrorIff | backend/app/api/middleware.py:130-131 | a hit raises an index error exactly when the limit is not positive |
| RateLimiters.RetryAfterIsEnough | backend/app/api/middleware.py:130-132 | after every refusal, waiting the reported time guarantees acceptance, and it overshoots the necessary wait by at most a second |
| RateLimiters.EdgeOfWindow | backend/app/tools/rate_limit.py:22-25 | a hit exactly one window old still counts for a tool but not for a request |
| RateLimiters.HitWindow | backend/app/api/middleware.py:125-135 | one hit on the deque of its key expires, answers and appends as the window model says |
| RateLimiters.PopExpired | backend/app/tools/rate_limit.py:24-25 | the loop removes exactly the leading hits that left the window |
| RateLimiters.InMemoryRateLimiter.Hit | backend/app/api/middleware.py:123-135 | one hit answers and updates its own key as the window model says, and no other key |
| RateLimiters.ToolRateLimiter.Check | backend/app/tools/rate_limit.py:19-28 | one check does so over the closed window with the per-tool or default limit |
| Freshness.ScoreInRange | backend/app/services/freshness.py:89-142 | the score is in [0, 1] |
| Freshness.FreshnessOnlyFalls | backend/app/services/freshness.py:63-142 | with fixed facts the score never rises with time, expiry is permanent and scores zero, and the expiry date does not move |
| Freshness.VerifyingNeverLowers | backend/app/services/freshness.py:122-142 | verifying a row now gives it full trust and never lowers its score |
| Freshness.ExpiryPriority | backend/app/services/freshness.py:78-86 | a stored expiry wins, then a stated deadline, then the usual lifetime from posting, else from discovery |
| Freshness.Lifetimes | backend/app/services/freshness.py:24-45 | the usual lifetime of every category, in days |
| Freshness.ExpiredIff | backend/app/services/freshness.py:114-123 | expired is strictly later than the expiry date, and scores zero |
| Freshness.DaysUntilIs | backend/app/services/freshness.py:118-120 | days remaining are whole days left, or one more than the whole days gone by, negatively |
| Freshness.TrustIsDated | backend/app/services/freshness.py:125-132 | information is dated by its verification, else its discovery, else its posting; undated it is half trusted |
| Freshness.DampingIs | backend/app/services/freshness.py:134-137 | nothing is damped more than a week ahead, and (7+d)/14 is left with d days to go |
| Freshness.DampedScore | backend/app/services/freshness.py:134-142 | before expiry the score is the damped trust, rounded half even to four places |
| Dedup.JaccardLaws | backend/app/services/dedup.py:105-113 | similarity is symmetric, in [0, 1], one exactly for equal trigram sets and zero exactly for disjoint ones |
| DedupLaws.TrigramsAre | backend/app/services/dedup.py:94-102 | trigrams are the runs of three characters of the text behind two blanks and before one |
| DedupLaws.TrigramsOfCat | backend/app/services/dedup.py:94-102 | the documented trigrams of cat |
| DedupLaws.SimilarityExtremes | backend/app/services/dedup.py:105-113 | a text is fully similar to itself and not at all to one without a common trigram |
| DedupLaws.CompatibleIff | backend/app/services/dedup.py:116-132 | titles of plain words are compatible exactly when they carry the same seniority markers |
| DedupLaws.DifferentRungs | backend/app/services/dedup.py:44-57 | titles that differ in one of the ten markers are never compatible |
| DedupLaws.SeparatorIsBlank | backend/app/services/dedup.py:116-121 | brackets, commas, slashes and dashes count as blanks |
| Dedup.ScanStep | backend/app/services/dedup.py:203-209 | comparing a raw ratio with the rounded best keeps the pick within 1e-4 of the maximum |
| Dedup.ScanBest | backend/app/services/dedup.py:202-210 | the scan fires exactly when a compatible row reaches the threshold, reports the rounding of the true maximum, and picks a row within 1e-4 of it |
| OpportunityStore.MatchIsRow | backend/app/services/dedup.py:130-237 | whatever probe hits, the match is an existing row that is not a duplicate, and URL or hash hits win over similar rows |
| OpportunityStore.SetStatusValid | backend/app/services/ingestion.py:326-339 | a status change keeps the table invariant and every row's identity |
| OpportunityStore.RefreshValid | backend/app/services/ingestion.py:289-324 | so does a refresh |
| OpportunityStore.RefreshRecords | backend/app/services/ingestion.py:313-324 | a refresh records an expiry exactly for an active row past its date, else a revalidation, and changes no other row |
| OpportunityStore.RevalidateValid | backend/app/services/ingestion.py:341-357 | so does a revalidation |
| OpportunityStore.InsertValid | backend/app/services/ingestion.py:192-255 | so does an insert whose probes found nothing by URL or hash |
| OpportunityStore.IngestValid | backend/app/services/ingestion.py:119-263 | so does every outcome of an ingest |
| OpportunityStore.StepValid | backend/app/services/ingestion.py:119-357 | so does every operation |
| OpportunityStore.EveryHistoryIsValid | backend/app/services/ingestion.py:119-357 | after any history of ingest, refresh, set_status and score: active rows share no URL and no hash, hashes are unique, duplicate links point to older rows, the event log replays to every status through legal moves, expiry dates and identities are fixed, inactive rows stay inactive |
| OpportunityStore.IntegrityErrorIff | backend/app/models/opportunity.py:144-144 | an ingest fails on the unique hash exactly when only flagged duplicates carry it and no row is found by URL or hash |
| OpportunityStore.FlaggedPayloadFails | backend/app/services/dedup.py:239-243 | from the empty table: ingest a payload, flag its row as a duplicate, and ingesting it again fails whatever the probes may answer |
| IngestionService.Service.ExactProbe | backend/app/services/dedup.py:141-172 | returns any row that is not a duplicate and hits, or none if there is none |
| IngestionService.Service.FindDuplicate | backend/app/services/dedup.py:130-139 | the four probes in order give an answer the probes may give |
| IngestionService.Service.SimilarityProbe | backend/app/services/dedup.py:174-237 | a similarity probe answers with the best compatible row over its threshold, or none |
| IngestionService.Service.SimilarDuplicate | backend/app/services/dedup.py:174-237 | the embedding probe is only asked when the title probe finds nothing |
| IngestionService.Service.IngestRaw | backend/app/services/ingestion.py:119-263 | the in-place ingest equals the step on the table, with its outcome |
| IngestionService.Service.IngestCandidate | backend/app/services/ingestion.py:145-263 | what follows once title and URL are usable equals the step on the table, for an answer the probes may give |
| IngestionService.Service.Insert | backend/app/services/ingestion.py:165-263 | appends exactly the new row and its events, or nothing when the hash is taken |
| IngestionService.Service.Revalidate | backend/app/services/ingestion.py:341-357 | updates verification time and freshness of one row and records one event |
| IngestionService.Service.RefreshRow | backend/app/services/ingestion.py:289-324 | the in-place refresh equals the step on the table |
| IngestionService.Service.SetRowStatus | backend/app/services/ingestion.py:326-339 | an illegal move is an error that changes nothing, an unchanged status is no event |
| IngestionService.Service.ScoreOpportunity | backend/app/services/scoring_service.py:60-63 | scoring moves active rows only, and never raises |
| OpportunityStore.IngestTwice | backend/app/services/ingestion.py:145-168 | a payload ingested twice merges when it was created or merged, fails on the unique hash when it was flagged as a duplicate, and never adds a second row |
| StoreLaws.CandidateIs | backend/app/services/ingestion.py:129-152 | a payload is usable exactly with a title and a URL; the identity is that URL and the hash of title, organisation and description |
| StoreLaws.InsertedRow | backend/app/services/ingestion.py:192-227 | identity, facts and dates of an inserted row |
| StoreLaws.InsertedExpiry | backend/app/services/ingestion.py:178-226 | an inserted row expires at its stated deadline, else after its category's lifetime from posting or from now; it starts expired exactly when unmatched and past that date, and as a duplicate exactly when a row matched, linked to it |
| StoreLaws.InsertIsLogged | backend/app/services/ingestion.py:231-255 | the events of an insert |
| StoreLaws.MergedRow | backend/app/services/ingestion.py:341-357 | seeing a row again verifies it now, rescores it and leaves everything else alone |
| StoreLaws.MergingRefreshes | backend/app/services/ingestion.py:341-357 | it leaves the row at least as fresh as a refresh would |
| StoreLaws.RefreshedRow | backend/app/services/ingestion.py:310-311 | a refresh stores the assessed score and expiry and no other column but the status |
| StoreLaws.ScoredRow | backend/app/services/scoring_service.py:163-172 | scoring leaves an active row RECOMMENDED exactly on STRONGLY_PURSUE or PURSUE, else SCORED |
| StoreLaws.MoveIsLogged | backend/app/services/lifecycle.py:56-110 | the kind, origin and target of the event that a legal move records |
| StoreLaws.NoMove | backend/app/services/lifecycle.py:87-103 | an illegal move and a move to the same status change nothing |
| StoreLaws.ComparedByTitle | backend/app/services/dedup.py:174-196 | a row of the same organisation or the same domain is compared by title, unless it is a duplicate |
| StoreLaws.NothingToCompare | backend/app/services/dedup.py:182-185 | without organisation and domain nothing is compared by title |
| StoreLaws.SimilarEnough | backend/app/services/dedup.py:208-235 | a title match is at least 0.62 similar, a vector match at least 0.92 |
| StoreLaws.SimilarTitleMatches | backend/app/services/dedup.py:202-210 | a compared, compatible row of at least that similarity makes the title probe answer |
| Memory.HeadIsActive | backend/app/memory/service.py:42-71 | from any semantic record the links lead to the one active record of its user and key |
| Memory.WriteKeepsChain | backend/app/memory/service.py:42-71 | a write by a trimmed or new key extends the chain and changes no stored content |
| Memory.WriteEffect | backend/app/memory/service.py:51-71 | a write adds nothing, or one open record under the stripped key, and closes and links exactly the record it looked up |
| Memory.UniqueIff | backend/app/memory/service.py:51-71 | a write keeps active records unique if and only if its key is trimmed or has no active record |
| Memory.UntrimmedKeyForks | backend/app/memory/service.py:51-71 | the same key with and without a blank leaves two active records |
| Memory.HistoryIsChained | backend/app/memory/service.py:42-140 | after any history every closed record links to the next record of its key with different content, and nothing but closing ever changes |
| Memory.MemoryService.ActiveSemantic | backend/app/memory/service.py:123-134 | returns an active record of the key, or none if there is none |
| Memory.MemoryService.WriteSemantic | backend/app/memory/service.py:42-71 | the in-place write equals the step on the records; blank keys are an error that changes nothing |
| Memory.MemoryService.WriteOther | backend/app/memory/service.py:73-115 | episodic and outcome writes only append |
| Memory.MemoryService.Recall | backend/app/memory/service.py:23-40 | the newest open records of a kind, newest first, at most limit |
| Investigation.BuildInvestigationGraph | backend/app/agents/graph.py:68-105 | the built graph has exactly the declared nodes, entry point and edges |
| Investigation.RunLength | backend/app/agents/routing.py:10-30 | from any node on, replans stay below the cap and the visits follow from their number |
| Investigation.InvestigationLength | backend/app/agents/graph.py:81-105 | every run terminates within the replan cap, never replans without money, and visits at most 11 + 5 ceil(k/2) + 3 floor(k/2) nodes for k replans, exactly that many when no triage is empty |
| InvestigationPaths.RunShape | backend/app/agents/graph.py:81-105 | a run without an empty triage visits exactly the lead-in, the rounds of its replans and the closing stages, in this order |
| InvestigationPaths.ReplanIff | backend/app/agents/routing.py:14-23 | behind a verification comes a replan exactly when claims are unresolved, replans are left and there is money, else scoring |
| InvestigationPaths.ReplanExtremes | backend/app/agents/routing.py:14-23 | no replan without unresolved claims; all of them with some in every answer, candidates and money |
| InvestigationPaths.ReplansAreVisits | backend/app/agents/nodes.py:429-439 | the counted replans are the visits of the replan node |
| Investigation.ReplanCostClosed | backend/app/agents/nodes.py:429-439 | the closed form of the nodes that k alternating replans add |
| Investigation.ScoreReachedIff | backend/app/agents/routing.py:10-11 | scoring is reached exactly when no triage comes up empty |
| Investigation.AuditInvestigationTrace | backend/app/evaluation/trace_audit.py:50-100 | the audit reports exactly the missing stages and tasks, the counts and completeness, and everything missing for a run that does not exist |
| Investigation.LoggedStages | backend/app/agents/nodes.py:297-301 | a run logs exactly its visited stages, scoring only when the goal was found |
| Investigation.AuditIff | backend/app/evaluation/trace_audit.py:15-93 | no stage is missing exactly when the run passed scoring with its goal found, and then no task is missing |
| Decisions.ApplyContrarianPressure | backend/app/agents/decision_gates.py:32-59 | the branch cascade equals the table of downgrades per verdict |
| Decisions.GatesNeverUpgrade | backend/app/agents/decision_gates.py:23-59 | the gates only downgrade, only cost confidence, and report a change exactly when they downgraded |
| Decisions.PressureBands | backend/app/agents/decision_gates.py:45-57 | what each band of pressure does to verdict and confidence |
| Decisions.FloorComesFirst | backend/app/agents/decision_gates.py:23-29 | below the confidence floor an enthusiastic verdict becomes CONSIDER and pressure does no more |
| Decisions.PressureMonotoneIff | backend/app/agents/decision_gates.py:45-57 | more pressure downgrades at least as far, except exactly from the middle to the top band on a confident strong recommendation |
| Decisions.MorePressureCanBeMilder | backend/app/agents/decision_gates.py:45-57 | pressure 0.8 leaves a confident strong recommendation higher than pressure 0.6 |
| Decisions.ContrarianNode | backend/app/agents/nodes.py:485-536 | stress-tests the candidates among the stable top five and changes only their confidence |
| Decisions.PressedExactly | backend/app/agents/nodes.py:516-521 | pressure of at least 0.4 takes a quarter of itself from the confidence, less takes nothing |
| Decisions.TopFiveSize | backend/app/agents/nodes.py:493-498 | the stress-tested candidates are the first five, or all, by falling score |
| Decisions.TopFiveAreBest | backend/app/agents/nodes.py:493-498 | no other entry scores more than one of them |
| Decisions.DecideNode | backend/app/agents/nodes.py:336-395 | decides on the candidates among the stable top five, in order |
| Decisions.SortAdjusted | backend/app/agents/nodes.py:342-346 | re-sorting the adjusted scores gives the same order |
| Decisions.DecisionsAreStressTested | backend/app/agents/nodes.py:336-536 | decided ids equal stress-tested ids in order, a decision is INELIGIBLE exactly when the engine or the eligibility assessment says so, and none is more enthusiastic or more confident than the engine |
| ToolExecutor.SuccessIff | backend/app/tools/executor.py:125-153 | the retry loop succeeds exactly when the body returns after only retryable failures within the allowed attempts |
| ToolExecutor.EndsAt | backend/app/tools/executor.py:125-153 | the first attempt that does not fail retryably ends the call and decides its status, timeouts included |
| ToolExecutor.AllRetried | backend/app/tools/executor.py:144-149 | when every attempt fails retryably, all are made and the call has failed |
| ToolExecutor.AccountStep | backend/app/tools/executor.py:79-176 | one invocation keeps the books in agreement with the rows and below every cap |
| ToolExecutor.RunIsAccounted | backend/app/tools/executor.py:39-211 | over any invocations: one row each, successes within the total and per-tool caps, counters equal to successes, money equal to the initial amount less the successful costs |
| ToolExecutor.TotalIsSum | backend/app/tools/budget.py:34-37 | the total counter is the sum of the per-tool counters |
| ToolExecutor.ToolBudget.CheckTotal | backend/app/tools/budget.py:25-27 | refuses exactly when the total is used up |
| ToolExecutor.ToolBudget.CheckTool | backend/app/tools/budget.py:29-32 | refuses exactly when the tool's cap is used up |
| ToolExecutor.ToolBudget.Record | backend/app/tools/budget.py:34-37 | charges one call, with the money floored at zero |
| ToolExecutor.Executor.Admit | backend/app/tools/executor.py:79-101 | denied or failed exactly for the stated reasons in this order; the limiter is only touched within budget |
| ToolExecutor.Executor.Attempts | backend/app/tools/executor.py:125-153 | the in-place retry loop equals its declarative result, charges successes only, and executes the body at most max_retries + 1 times |
| ToolExecutor.Executor.Invoke | backend/app/tools/executor.py:39-177 | one invocation updates budget and rows as the step on values does, hits the limiter of its own tool exactly when the tool exists and the budget allows, and leaves other tools' limits alone |
| EmbeddingCache.MissingIff | backend/app/retrieval/embedding.py:146-152 | exactly the uncached positions are forwarded, in order, repeats included |
| EmbeddingCache.CachedProvider.Probe | backend/app/retrieval/embedding.py:141-152 | the first loop finds the cached vectors and the texts to forward |
| EmbeddingCache.CachedProvider.Fill | backend/app/retrieval/embedding.py:154-176 | the second loop completes the answer and the cache with true embeddings |
| EmbeddingCache.CachedProvider.Embed | backend/app/retrieval/embedding.py:137-159 | result i is the inner embedding of text i, and the cache keeps holding only true embeddings |
| EmbeddingCache.FilledBatch | backend/app/retrieval/embedding.py:154-159 | forwarding only the uncached positions leaves every text of the batch cached |

## Left out

- Posting.RoundTripIff: for a deadline that is blank or spans lines, only the second half is stated; such text can pose as other lines of the posting, so that what it does depends on all of them.
- Posting.ExtractedIsClean: categories and remote statuses given as plain strings are not modelled; every row has an enum value.
- FieldText.CompensationRoundTrip: `\d`, `\w`, case folding and IGNORECASE are the ASCII classes.
- FieldText.ParsedCompensationIsClean: the same ASCII classes; other scripts' digits and letters are not modelled.
- CursorCodec.CursorRoundTrip: JSON, UUID, decimal and ISO-date texts are functions given by the caller; base64 characters outside the alphabet are an error instead of being skipped.
- Pagination.PageColumns: deadlines at or behind the end of the year 9999 and negative scores sort among the missing ones.
- Pagination.ListOpportunities: takes the decoded position, CursorCodec.ServeOpportunities the opaque text; the joined latest score is a column of the row, ILIKE and upper-casing are parameters.
- Scoring.Score: explanation text and the predefined weight profiles are not modelled.
- Weights.Build: ratios are exact reals, without the 28-digit context of `decimal`; which error is raised is not stated when several apply.
- Fusion.ReciprocalRankFusion: floats are exact reals; metadata is not modelled.
- Dedup.ScanBest: models the loop of both similarity probes; the ratios are its inputs.
- OpportunityStore.EveryHistoryIsValid: text and URL normalisation, the content hash, vector similarity and the half-life curve are parameters; date parsing is done; score rows, evidence and descriptive columns are not part of the rows, and the indexing job that stores vectors is not an operation.
- IngestionService.Service.FindDuplicate: the result sets of the similarity queries are inputs, any 200 rows when there are more.
- IngestionService.Service.IngestRaw: a failed insert changes nothing; the surrounding transaction is not modelled.
- Freshness.FreshnessOnlyFalls: the half-life curve is any function into [0, 1] that never rises with age.
- Memory.MemoryService.Recall: creation order is the order of writes; limits are not negative.
- Investigation.InvestigationLength: a run is the sequence of nodes; exceptions that end it early, the recursion limit of the graph library and parallel steps are not modelled.
- Investigation.AuditInvestigationTrace: the order of the reported names is not modelled.
- ToolExecutor.Executor.Invoke: an argument parser or a tool body that returns nothing is not modelled, because the declared types of `parse_args` and `run` exclude it; nor are latencies, results and error texts.
- EmbeddingCache.CachedProvider.Embed: the inner provider is deterministic and pointwise, keys are injective; the JSON payloads in Redis are not modelled, its expiry is `Evict`.
- RateLimiters.InMemoryRateLimiter.Hit: one process and one caller at a time; the Redis limiter is not part of this model.
- HTTP routes, authentication, LLM providers and prompts, LangGraph internals, Celery, metrics, tracing and the CRUD services are not part of this model.
