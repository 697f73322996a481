# Smart page search, modelled in Dafny

A browser extension sends the text of each visited page to a local backend.
The backend cleans the text, cuts it into overlapping chunks and embeds each
chunk. It stores the vectors in a flat inner-product index, with one page
record per vector. A search embeds the query, takes the nearest stored
chunks and shapes them into chunk-level results. The extension then shows
those results with date labels and highlights the matched text on the page.

This project models the logic of that pipeline and proves what it promises:

- `content_processor.dfy`: cleaning, whitespace normalisation, the quality
  score and the chunking walk.
- `vector_store.dfy`: the vector store, as a class whose fields `Add`
  updates, with a brute-force top-k search.
- ranker.dfy: the recency staircase, the strategy scores, the stable sort
  and the renumbering.
- cache.dfy: the TTL cache, as a class over a map with an explicit clock.
- searcher.dfy: query validation and the search decision.
- executor.dfy: the chunk keys and their parsing, the de-duplicating merge
  of the chunk metadata file, the indexing loop, and both request handlers.
- helpers.dfy: `truncate_text`.
- background.dfy: which urls are indexed, and which frame's text stands
  for a page.
- `content_script.dfy`: `escapeRegExp`, and the split-and-highlight
  decision over a page's text nodes.
- popup.dfy: the date labels.
- `py_text.dfy`: the Python string built-ins the backend relies on:
  `isspace`, `split()`, `strip()`, `find`, slicing, `str(n)` and `int(s)`.
- schemas.dfy: the record types.
- `optional.dfy` and `seqs.dfy`: an option type and a few sequence lemmas.

Other modelling choices:

- Floating-point numbers are modelled as reals, and vectors as sequences of
  reals. Similarity is the exact inner product.
- Clocks are parameters. Backend times are integer microseconds, and the
  extension's times are integer milliseconds.
- The embedding model is a function that may fail. It is a field of the
  executor.

## Model

| member | source | states |
|---|---|---|
| PyText.FirstFrom | backend/src/smart_search/agent/executor.py:123 | `find` reports an occurrence at or after the start, and no earlier one exists |
| PyText.ContainsOccurs | backend/src/smart_search/agent/executor.py:123 | `sub in s` holds exactly when `sub` occurs somewhere, and then `find` reports a position |
| PyText.NonSpaceRun | backend/src/smart_search/perception/content_processor.py:55-56 | the greedy `\S+` run is all non-space and stops at a space or at the end |
| PyText.TokenCount | backend/src/smart_search/decision/searcher.py:34 | `len(s.split())` is at most `len(s)`, and is zero exactly for all-whitespace text |
| PyText.Strip | backend/src/smart_search/perception/content_processor.py:67 | `strip()` leaves no whitespace at either end, adds no character, and is empty exactly for all-whitespace text |
| PyText.SliceTo | backend/src/smart_search/utils/helpers.py:25 | `s[:n]` is a prefix of length `min(n, len)`, or `len + n` clipped at 0 for negative `n` |
| PyText.Decimal | backend/src/smart_search/agent/executor.py:49 | `str(n)` is non-empty, all digits, and has no leading zero |
| PyText.DecimalValue | backend/src/smart_search/agent/executor.py:49 | the digits of `str(n)` have the value `n` |
| PyText.ParseDecimal | backend/src/smart_search/agent/executor.py:125 | `int(str(n)) == n` |
| PyText.StripDigits | backend/src/smart_search/agent/executor.py:125 | `int` strips nothing from a digit string |
| PyText.ParseInt | backend/src/smart_search/agent/executor.py:125 | a parsed value means the stripped text is non-empty, and a negative value means it starts with `-` |
| ContentProcessor.StripUrls | backend/src/smart_search/perception/content_processor.py:55 | removing URL tokens never lengthens the text or adds a character |
| ContentProcessor.StripEmails | backend/src/smart_search/perception/content_processor.py:56 | removing e-mail tokens never lengthens the text or adds a character |
| ContentProcessor.Clean | backend/src/smart_search/perception/content_processor.py:53-59 | cleaning never lengthens the text, leaves no control character, and adds no character but `!` |
| ContentProcessor.BangRun | backend/src/smart_search/perception/content_processor.py:57 | the run of `!`/`?` that starts the text is maximal |
| ContentProcessor.CollapseBangs | backend/src/smart_search/perception/content_processor.py:57 | after collapsing, no two `!`/`?` are adjacent, the text does not grow, and every character is from the input or a `!` |
| ContentProcessor.RemoveControl | backend/src/smart_search/perception/content_processor.py:58 | no character in U+0000–U+001F or U+007F–U+009F remains; text without them is unchanged |
| ContentProcessor.RunOf | backend/src/smart_search/perception/content_processor.py:64-65 | a run of one character is maximal |
| ContentProcessor.CollapseRuns | backend/src/smart_search/perception/content_processor.py:64-65 | after collapsing, no two copies of the character are adjacent; the first character is kept |
| ContentProcessor.ReplaceTabs | backend/src/smart_search/perception/content_processor.py:66 | the length is kept and no tab remains |
| ContentProcessor.Normalize | backend/src/smart_search/perception/content_processor.py:62-67 | normalising never lengthens the text and leaves no tab and no whitespace at either end |
| ContentProcessor.NoControlSurvivesCollapse | backend/src/smart_search/perception/content_processor.py:64-65 | collapsing runs adds no control character |
| ContentProcessor.NormalizedTextShape | backend/src/smart_search/perception/content_processor.py:23-24 | the normalised text has no control character, no two consecutive spaces, no whitespace at either end, and is no longer than the raw text |
| ContentProcessor.NormalizedText | backend/src/smart_search/perception/content_processor.py:23-24 | the text `process` walks, cleaned then normalised: no longer than the raw text, with no tab and no whitespace at either end |
| ContentProcessor.StripKeepsShape | backend/src/smart_search/perception/content_processor.py:67 | stripping keeps the text free of control characters and double spaces |
| ContentProcessor.QualityScore | backend/src/smart_search/perception/content_processor.py:70-80 | the score lies in [0, 1], and an empty original scores 0 |
| ContentProcessor.QualityOfChunk | backend/src/smart_search/perception/content_processor.py:70-80 | for a chunk no longer than the raw page, the score is exactly 0.7·len(chunk)/len(page) plus 0.15 for each bonus |
| ContentProcessor.WalkStarts | backend/src/smart_search/perception/content_processor.py:30-48 | every window start lies in [start, len) |
| ContentProcessor.WalkStartsShape | backend/src/smart_search/perception/content_processor.py:30-48 | the starts are `start + j·step`, the last is before the end and the next would not be |
| ContentProcessor.Chunks | backend/src/smart_search/perception/content_processor.py:27-48 | one chunk per window start, each carrying the page url, title and timestamp, and the caller's metadata with `chunk_index` set to its number |
| ContentProcessor.ChunksAreChunks | backend/src/smart_search/perception/content_processor.py:28-48 | chunk k is `text[k·step : min(k·step + size, L)]`, non-empty and at most `size` long, numbered k, with `processed_length` its length and `original_length` the raw length; the chunk count n satisfies (n − 1)·step < L ≤ n·step, and is 0 exactly for empty text |
| ContentProcessor.Process | backend/src/smart_search/perception/content_processor.py:19-50 | `process` returns the chunks of the walk over the cleaned and normalised text, stepping `chunk_size - chunk_overlap` |
| ContentProcessor.Walk | backend/src/smart_search/perception/content_processor.py:28-48 | the window loop produces exactly the chunks of the walk |
| ContentProcessor.ChunkOfWalk | backend/src/smart_search/perception/content_processor.py:30-47 | there is one chunk per window start, and chunk k is cut at the k-th start |
| ContentProcessor.CutChunk | backend/src/smart_search/perception/content_processor.py:31-46 | one round builds the chunk at the current start with index k |
| ContentProcessor.ChunkAt | backend/src/smart_search/perception/content_processor.py:31-45 | chunk k is the slice of the text at its start, at most `chunk_size` long and non-empty when the start is inside a non-empty window; it records the raw and processed lengths, a quality in [0, 1] and `chunk_index` k |
| ContentProcessor.ChunkCountIsCeiling | backend/src/smart_search/perception/content_processor.py:30 | the number of windows is ceil(L/step) |
| ContentProcessor.WindowsCover | backend/src/smart_search/perception/content_processor.py:30-48 | the arithmetic behind `ChunksCover`: windows at least `step` long and `step` apart cover every position below `n·step` |
| ContentProcessor.ChunksCover | backend/src/smart_search/perception/content_processor.py:28-48 | with 0 ≤ overlap < size, every character of the walked text appears in some chunk, at its offset from that chunk's start |
| ContentProcessor.ChunkHolds | backend/src/smart_search/perception/content_processor.py:31-32 | chunk k, starting at `k·step`, holds every position of its `chunk_size` window that lies inside the text, at its offset from the start |
| ContentProcessor.FullWindowOverlapsNext | backend/src/smart_search/perception/content_processor.py:30-48 | the last `overlap` characters of a full window are the first `overlap` of the next |
| ContentProcessor.NoProgressWithoutStep | backend/src/smart_search/perception/content_processor.py:30-48 | with overlap ≥ size, the start never reaches the end of a non-empty text, so the loop does not end |
| VectorIndex.Clamp | backend/src/smart_search/memory/vector_store.py:80 | the score lies in [0, 1], equals the similarity inside that range and is clipped outside it |
| VectorIndex.Dot | backend/src/smart_search/memory/vector_store.py:22 | the inner-product similarity of a vector with itself is never negative |
| VectorIndex.IndexByUrl | backend/src/smart_search/memory/vector_store.py:42 | every record's url is a key of the rebuilt map, and every key maps to a record's position |
| VectorIndex.IndexByUrlCorrect | backend/src/smart_search/memory/vector_store.py:42 | the rebuilt map holds every record's url and maps it to the last position that carries it |
| VectorIndex.Unselected | backend/src/smart_search/memory/vector_store.py:72 | fewer than n distinct chosen positions leave a position unchosen |
| VectorIndex.BestUnselected | backend/src/smart_search/memory/vector_store.py:72 | one search round picks an unchosen position of greatest similarity, the lowest among equals |
| VectorIndex.TopPositions | backend/src/smart_search/memory/vector_store.py:72 | the flat index returns k distinct positions in descending similarity, none left out scoring higher |
| VectorIndex.Hit | backend/src/smart_search/memory/vector_store.py:79-85 | a hit copies url, title, content and timestamp from the record, with a score in [0, 1] |
| VectorIndex.Kept | backend/src/smart_search/memory/vector_store.py:78 | only positions that have a record are kept |
| VectorIndex.HitsAt | backend/src/smart_search/memory/vector_store.py:77-85 | one hit per kept position, built from that position's record and vector |
| VectorIndex.KeptMembers | backend/src/smart_search/memory/vector_store.py:78 | no position with a record is dropped, and all are kept when all have records |
| VectorIndex.KeptOrdered | backend/src/smart_search/memory/vector_store.py:77-78 | the kept positions stay distinct and in descending similarity |
| VectorIndex.KeptTopList | backend/src/smart_search/memory/vector_store.py:70-78 | the kept positions form a top list among the positions that have records |
| VectorIndex.CollectHits | backend/src/smart_search/memory/vector_store.py:76-86 | the result loop reports the hit of every kept position, in order |
| VectorIndex.VectorStore.Load | backend/src/smart_search/memory/vector_store.py:13-45 | the index file and the metadata file each fall back to empty on their own, and the key map is rebuilt from the records' urls |
| VectorIndex.VectorStore.Add | backend/src/smart_search/memory/vector_store.py:47-63 | a known key has only its record replaced, with vectors and map unchanged; a new key appends one vector and one record and maps to the new last position; the record count is returned; the key map stays injective and in range |
| VectorIndex.VectorStore.Search | backend/src/smart_search/memory/vector_store.py:65-86 | `top_k` is 5 when none is named; an empty store returns []; a query of the wrong dimension fails; otherwise at most `min(top_k, len)` hits, in descending similarity, each from its record; exactly that many when vectors and records align |
| VectorIndex.AddTwiceKeepsOneRecord | backend/src/smart_search/memory/vector_store.py:49-63 | adding twice under one key keeps one record, the newer one, and the first vector |
| VectorIndex.StrictBestIsTop | backend/src/smart_search/memory/vector_store.py:72 | for any vectors and query, a position strictly more similar than every other position is the first of every top list, so it is the only top-1 answer |
| VectorIndex.NearestOfThree | backend/src/smart_search/memory/vector_store.py:47-86 | after storing three pages, a query strictly closest to the second returns exactly that page |
| VectorIndex.TopOfThree | backend/src/smart_search/memory/vector_store.py:77-85 | the single top position among three reports the second record |
| VectorIndex.SelfMatchScoresOne | backend/src/smart_search/memory/vector_store.py:79-85 | a query equal to a stored unit vector reports that record with score 1.0 |
| Ranking.AgeDays | backend/src/smart_search/decision/ranker.py:45 | `.days` is the floor of the elapsed time in days |
| Ranking.Recency | backend/src/smart_search/decision/ranker.py:43-54 | 1.0 within a day, 0.8 within a week, 0.6 within 30 days, 0.3 after |
| Ranking.RecencyMonotone | backend/src/smart_search/decision/ranker.py:43-54 | an older timestamp never scores higher, and every score lies in [0.3, 1] |
| Ranking.FinalScore | backend/src/smart_search/decision/ranker.py:18-25 | every strategy's final score lies between relevance and recency, so in [0, 1] for a relevance in [0, 1] |
| Ranking.Filtered | backend/src/smart_search/decision/ranker.py:13 | each result occurs in the filtered list exactly as often as in the input when it scores at least `min_score`, and not at all otherwise |
| Ranking.FilteredAppend | backend/src/smart_search/decision/ranker.py:13 | filtering distributes over concatenation, so the kept results stay in input order |
| Ranking.DefaultFilterKeepsAll | backend/src/smart_search/decision/ranker.py:11-13 | with the default `min_score` 0.0, results with non-negative scores are all kept, in order |
| Ranking.InsertByFinal | backend/src/smart_search/decision/ranker.py:36 | inserting adds one entry |
| Ranking.SortByFinal | backend/src/smart_search/decision/ranker.py:36 | the sort keeps the length |
| Ranking.InsertPermutes | backend/src/smart_search/decision/ranker.py:36 | inserting adds exactly the new entry |
| Ranking.InsertKeepsSorted | backend/src/smart_search/decision/ranker.py:36 | inserting into a sorted list keeps it sorted |
| Ranking.ConsSorted | backend/src/smart_search/decision/ranker.py:36 | an entry scoring at least the head may go in front of it |
| Ranking.InsertTies | backend/src/smart_search/decision/ranker.py:36 | inserting puts the entry first among entries with its score |
| Ranking.SortByFinalCorrect | backend/src/smart_search/decision/ranker.py:36 | the sort is a permutation, is sorted highest first, and keeps the input order among equal scores |
| Ranking.ResultsOf | backend/src/smart_search/decision/ranker.py:27-33 | the results the entries carry, in order |
| Ranking.InsertKeepsResults | backend/src/smart_search/decision/ranker.py:36 | inserting adds exactly the entry's result |
| Ranking.SortKeepsResults | backend/src/smart_search/decision/ranker.py:36 | sorting drops and duplicates no result |
| Ranking.Renumbered | backend/src/smart_search/decision/ranker.py:37-38 | entry i gets rank i + 1, and nothing else changes |
| Ranking.SortedEntriesScored | backend/src/smart_search/decision/ranker.py:27-36 | every sorted entry is the scored entry of an input result |
| Ranking.RankedSorted | backend/src/smart_search/decision/ranker.py:11-40 | the ranking is ordered by final score, highest first |
| Ranking.RankedScored | backend/src/smart_search/decision/ranker.py:11-40 | entry i has rank i + 1, a result scoring at least `min_score`, and that result's relevance, recency and final scores |
| Ranking.RankedKeepsResults | backend/src/smart_search/decision/ranker.py:11-40 | the ranking carries exactly the filtered results, each once |
| Ranking.Ranked | backend/src/smart_search/decision/ranker.py:11-40 | the ranking has one entry per filtered result, ranked 1..n |
| Ranking.RankedTiesKeepOrder | backend/src/smart_search/decision/ranker.py:36-38 | results whose entries tie on final score appear in the ranking in the order the filter passed them on |
| Ranking.SameScoresSameTies | backend/src/smart_search/decision/ranker.py:37-38 | lists with the same results and final scores, position by position, have the same results in every tie class |
| Ranking.ResultsOfCons | backend/src/smart_search/decision/ranker.py:27-34 | the results of an entry followed by a list are its result followed by theirs |
| Ranking.EntriesCarryResults | backend/src/smart_search/decision/ranker.py:16-33 | the built entries carry the results in input order |
| Ranking.RenumberedCarriesResults | backend/src/smart_search/decision/ranker.py:37-38 | renumbering keeps the results |
| Ranking.RankResults | backend/src/smart_search/decision/ranker.py:11-40 | `rank_results`, with strategy "relevance" and `min_score` 0.0 when none are named, returns the filtered results, scored, stably sorted and numbered |
| Ranking.Renumber | backend/src/smart_search/decision/ranker.py:37-38 | the rank loop numbers the entries 1..n in order |
| Ranking.Entries | backend/src/smart_search/decision/ranker.py:16-33 | entry i scores input result i and is ranked i + 1 |
| TtlCache.NoTtlNeverExpires | backend/src/smart_search/memory/cache.py:16-17 | an entry without a TTL never expires |
| TtlCache.ExpiryIsPermanent | backend/src/smart_search/memory/cache.py:14-19 | once expired, an entry stays expired |
| TtlCache.LiveForItsTtl | backend/src/smart_search/memory/cache.py:18-19 | an entry is live exactly while elapsed ≤ TTL, the comparison being strict |
| TtlCache.IsExpired | backend/src/smart_search/memory/cache.py:14-19 | only an entry with a TTL expires, and one with a non-negative TTL only after its creation time |
| TtlCache.LiveEntries | backend/src/smart_search/memory/cache.py:58 | exactly the unexpired entries, unchanged |
| TtlCache.MemoryCache.constructor | backend/src/smart_search/memory/cache.py:24-25 | the cache starts empty |
| TtlCache.MemoryCache.Set | backend/src/smart_search/memory/cache.py:27-29 | a fresh entry with the given TTL, 3600 seconds when none is named, replaces any under that key; other keys are unchanged |
| TtlCache.MemoryCache.Get | backend/src/smart_search/memory/cache.py:32-44 | a missing key gives None with no change; an expired entry is deleted and gives None; a live one gives its value with no change; the live entries never change |
| TtlCache.MemoryCache.Delete | backend/src/smart_search/memory/cache.py:46-49 | the key is removed if present and nothing else changes |
| TtlCache.MemoryCache.Clear | backend/src/smart_search/memory/cache.py:51-53 | the cache is empty |
| TtlCache.MemoryCache.CleanupExpired | backend/src/smart_search/memory/cache.py:56-60 | exactly the entries expired at sweep time are removed |
| TtlCache.SetThenGet | backend/src/smart_search/memory/cache.py:27-44 | a value is read back, repeatedly, until its TTL has passed; after that it is gone and the cache is empty |
| TtlCache.DefaultTtlIsOneHour | backend/src/smart_search/memory/cache.py:27-44 | a value set without naming a TTL reads back exactly while at most 3600 seconds have passed, and is gone after |
| Searcher.ValidateQuery | backend/src/smart_search/decision/searcher.py:8-23 | a query is accepted iff it is non-empty, at most 500 characters and free of the six forbidden characters |
| Searcher.QueryAccepted | backend/src/smart_search/decision/searcher.py:8-23 | an accepted query is non-empty and holds none of the six forbidden characters |
| Searcher.IsForbidden | backend/src/smart_search/decision/searcher.py:18-19 | a character is forbidden iff it is one of `<`, `>`, `{`, `}`, `|`, `&` |
| Searcher.MakeSearchDecision | backend/src/smart_search/decision/searcher.py:26-35 | the query and `top_k` (5 when none is named) are echoed with threshold 0.3, and diversity holds iff there are more than 3 tokens |
| Searcher.DiversityNeedsFourWords | backend/src/smart_search/decision/searcher.py:34 | a query that triggers diversity has at least 7 characters |
| Searcher.FourTokensNeedSevenChars | backend/src/smart_search/decision/searcher.py:34 | n tokens need at least 2n − 1 characters |
| Helpers.TruncateText | backend/src/smart_search/utils/helpers.py:21-25 | with `length` 100 when none is named, a text no longer than `length` is returned unchanged; a longer one becomes `text[:length] + "..."` |
| Helpers.TruncateShape | backend/src/smart_search/utils/helpers.py:21-25 | the result starts with `text[:length]`, and is `length + 3` long, ending in "...", when cut |
| Helpers.TruncateIdempotent | backend/src/smart_search/utils/helpers.py:21-25 | truncating a truncated text with the same length changes nothing |
| Helpers.DefaultTruncation | backend/src/smart_search/utils/helpers.py:21-25 | with the default length, a text of at most 100 characters is kept and a longer one becomes its first 100 characters plus "...", 103 long |
| Executor.Split | backend/src/smart_search/agent/executor.py:125 | `split` returns at least one piece |
| Executor.ChunkKey | backend/src/smart_search/agent/executor.py:49 | a chunk key starts with the url, immediately followed by "#chunk" |
| Executor.BaseUrl | backend/src/smart_search/agent/executor.py:133 | `split("#chunk")[0]` is a prefix of the url holding no "#chunk", and the whole url when it holds none |
| Executor.ChunkIndexOf | backend/src/smart_search/agent/executor.py:122-127 | a chunk index is found only in a url that contains "#chunk" |
| Executor.SplitJoin | backend/src/smart_search/agent/executor.py:125 | joining the pieces with the separator gives back the string |
| Executor.SplitPiecesFree | backend/src/smart_search/agent/executor.py:125 | no piece contains the separator |
| Executor.MarkerHashOnlyFirst | backend/src/smart_search/agent/executor.py:49 | the only '#' of "#chunk" is its first character |
| Executor.KeyTailHasNoHash | backend/src/smart_search/agent/executor.py:49 | after its '#', a key's tail holds no '#' |
| Executor.KeyMarkerPosition | backend/src/smart_search/agent/executor.py:123 | for a url without "#chunk", the marker first occurs right after the url |
| Executor.NoMarkerBefore | backend/src/smart_search/agent/executor.py:123 | no "#chunk" starts inside such a url |
| Executor.KeyRoundTrip | backend/src/smart_search/agent/executor.py:122-133 | for a url without "#chunk", the key parses back to the url and the chunk index |
| Executor.KeySplit | backend/src/smart_search/agent/executor.py:125 | a key splits at "#chunk" into exactly the url and the index digits |
| Executor.DigitsSplitWhole | backend/src/smart_search/agent/executor.py:125 | a digit string holds no "#chunk" |
| Executor.ChunkKeyInjective | backend/src/smart_search/agent/executor.py:49 | equal keys mean equal url and index |
| Executor.LastHash | backend/src/smart_search/agent/executor.py:125 | the last '#' of a key starts its marker |
| Executor.WithoutUrls | backend/src/smart_search/agent/executor.py:82 | the filter never lengthens the list |
| Executor.Urls | backend/src/smart_search/agent/executor.py:81 | `url_set` holds the url of every batch entry and no other url |
| Executor.WithoutUrlsMembers | backend/src/smart_search/agent/executor.py:82 | an entry survives iff its url is not in the batch's url set |
| Executor.WithoutUrlsSubsequence | backend/src/smart_search/agent/executor.py:82 | survivors keep their relative order |
| Executor.WithoutUrlsNone | backend/src/smart_search/agent/executor.py:82 | with no url to drop, the list is unchanged |
| Executor.WithoutUrlsAppend | backend/src/smart_search/agent/executor.py:82 | filtering distributes over concatenation |
| Executor.WithoutUrlsCons | backend/src/smart_search/agent/executor.py:82 | filtering one entry then the rest |
| Executor.MergeShape | backend/src/smart_search/agent/executor.py:81-83 | the merge is the other urls' entries in order, then the batch in order |
| Executor.Merge | backend/src/smart_search/agent/executor.py:81-83 | the merged file ends with the batch and is at least the batch and at most the old file plus the batch long |
| Executor.MergeEmptyBatch | backend/src/smart_search/agent/executor.py:81-83 | an empty batch leaves the file as it was |
| Executor.MergeIdempotent | backend/src/smart_search/agent/executor.py:81-83 | merging the same batch twice is merging it once |
| Executor.WithoutUrlsAll | backend/src/smart_search/agent/executor.py:82 | entries whose urls are all dropped leave nothing |
| Executor.RecordsAt | backend/src/smart_search/agent/executor.py:50-57 | one file entry per indexed chunk, in order |
| Executor.AscendingExtend | backend/src/smart_search/agent/executor.py:38 | appending the current chunk keeps the indexed list ascending |
| Executor.IndexingStep | backend/src/smart_search/agent/executor.py:38-60 | one round keeps the indexed chunks ascending and embedded, and covers every chunk so far whose embedding was accepted |
| Executor.DecidedStep | backend/src/smart_search/agent/executor.py:38-60 | one round keeps the listed chunks exactly the accepted ones, when the chunk's key is known now iff it was known before indexing |
| Executor.CoversStep | backend/src/smart_search/agent/executor.py:38-60 | one round keeps every accepted chunk listed |
| Executor.EmbeddedPush | backend/src/smart_search/agent/executor.py:40-58 | a chunk is listed only if its embedding succeeded |
| Executor.RecordsAtPush | backend/src/smart_search/agent/executor.py:50-57 | listing one more chunk appends its entry |
| Executor.FirstMatch | backend/src/smart_search/agent/executor.py:129 | the first file entry whose url occurs in the result url and whose chunk index is equal; none earlier matches |
| Executor.Matches | backend/src/smart_search/agent/executor.py:129 | `m["url"] in res.url and m["chunk_index"] == chunk_index`: a matching entry's url is no longer than the result url, the index must have parsed, and an entry matches a result under its own url and index |
| Executor.ShapeResult | backend/src/smart_search/agent/executor.py:129-140 | the shaped url is the hit url before "#chunk", the chunk index is the parsed one, and title, score and timestamp are the hit's |
| Executor.ShapeResultContent | backend/src/smart_search/agent/executor.py:129-138 | the content is that of a matching file entry with no matching entry before it, or the hit's own content when no entry matches; the snippet is its first 200 characters |
| Executor.UnmarkedHit | backend/src/smart_search/agent/executor.py:122-138 | a hit url without "#chunk" keeps its url and its own content and has no chunk index |
| Executor.ShapeAll | backend/src/smart_search/agent/executor.py:119-140 | one shaped result per hit, in order |
| Executor.ShapeResults | backend/src/smart_search/agent/executor.py:119-140 | the result loop shapes every hit in order |
| Executor.ShapeOne | backend/src/smart_search/agent/executor.py:121-140 | one round shapes one hit |
| Executor.ReloadForgetsChunkKeys | backend/src/smart_search/agent/executor.py:41-49 | reloaded records carry bare urls, so no chunk key is in the rebuilt map |
| Executor.AgentExecutor.constructor | backend/src/smart_search/agent/executor.py:18-27 | the store is created with the model's dimension; its vectors are the index file's and its records the metadata file's, each empty when its file is missing, and its key map is rebuilt from the records' urls |
| Executor.AgentExecutor.StoredPush | backend/src/smart_search/agent/executor.py:49 | a newly stored chunk joins the stored ones |
| Executor.AgentExecutor.IndexChunks | backend/src/smart_search/agent/executor.py:38-60 | a chunk is indexed iff its embedding succeeds and either has the store's dimension or goes to a key the store already held (an update that never reaches faiss); the indexed chunks are listed in order, each stored under its key with its file entry; the store only grows: vectors are appended, old keys keep their positions, only the indexed chunks' keys are new or get new records, and an indexed chunk whose key was new maps to its own embedding |
| Executor.AgentExecutor.IndexOne | backend/src/smart_search/agent/executor.py:39-60 | the chunk is added iff its embedding succeeds and either has the store's dimension or its key is already stored; earlier chunks stay stored; the store grows by this chunk's key only, and a key new to the store maps to the chunk's embedding |
| Executor.AgentExecutor.HandleIndexRequest | backend/src/smart_search/agent/executor.py:29-94 | the request succeeds; it reports the chunk count and, as `total_embeddings`, the number of chunks whose embedding succeeded with the store's dimension or under an already stored key; the store grows by exactly those chunks' keys, new keys mapping to their embeddings; the metadata file becomes the merge of the old file with their entries |
| Executor.AgentExecutor.HandleSearchRequest | backend/src/smart_search/agent/executor.py:99-148 | `top_k` is 5 when none is named; an invalid query fails with "Invalid query"; a failed embedding fails; no hits gives "No results found"; otherwise the top hits are shaped, and `total_results` is their number |
| Executor.ChunkKeyNotSame | backend/src/smart_search/agent/executor.py:49 | different chunk indices give different keys |
| Executor.UpsertKeepsOthers | backend/src/smart_search/memory/vector_store.py:47-63 | an upsert leaves every other key at its position with its record |
| Executor.KeysOfPush | backend/src/smart_search/agent/executor.py:38-49 | listing one more chunk adds exactly its key to the keys of the listed chunks |
| Executor.AddGrows | backend/src/smart_search/memory/vector_store.py:47-63 | each path of `add` grows the store by its key alone, and a new key added to a store with one record per vector maps to the new vector |
| Executor.GrewTrans | backend/src/smart_search/agent/executor.py:38-60 | growth composes, the changed keys being those of either step |
| Executor.GrowthKeepsVectors | backend/src/smart_search/memory/vector_store.py:49-52 | a key the store knew keeps its vector however the store grows, so a chunk indexed again with new content keeps its old embedding |
| Executor.IndexedIntoStep | backend/src/smart_search/agent/executor.py:38-60 | one round of the indexing loop keeps the store grown by the listed chunks' keys, with new keys mapping to their embeddings |
| Executor.GrewStep | backend/src/smart_search/agent/executor.py:38-60 | one round grows the store by the key of the chunk it added, if any |
| Executor.EmbeddedStep | backend/src/smart_search/agent/executor.py:38-60 | one round keeps the embeddings of the new keys so far and adds the new chunk's |
| Executor.EmbeddingKept | backend/src/smart_search/agent/executor.py:49 | a chunk whose key maps to its embedding still does after the store grows |
| Executor.KeyStillNew | backend/src/smart_search/agent/executor.py:38-49 | a chunk key new to the store before indexing is still new at its turn, since keys added so far belong to other chunk numbers |
| Executor.KeyKnownAsBefore | backend/src/smart_search/agent/executor.py:38-49 | at its turn, a chunk's key is in the store iff it was before indexing began |
| Executor.ChunkIndices | backend/src/smart_search/perception/content_processor.py:34-35 | the chunks of a page are numbered 0, 1, … in their metadata and carry the page url |
| Executor.PageOf | backend/src/smart_search/agent/executor.py:41-48 | the `StoredPage` of a chunk: every search hit on it reports the chunk's url, title, content and timestamp |
| Executor.RecordOf | backend/src/smart_search/agent/executor.py:50-57 | the file entry of chunk k carries the chunk's content and matches a result reported under the chunk's store key with index k |
| Background.ShouldIndexUrl | chrome_extension/background.js:55-75 | a url is indexed iff it is present and non-empty, not a `chrome://` or `chrome-extension://` page, and contains no skipped fragment |
| Background.ShouldIndex | chrome_extension/background.js:55-75 | an accepted url is present and non-empty and never contains "login" |
| Background.ContainsTransitive | chrome_extension/background.js:66-71 | a substring of a substring is a substring |
| Background.LoginNeverIndexed | chrome_extension/background.js:66-71 | any url containing "login" is not indexed |
| Background.LoginEntriesRedundant | chrome_extension/background.js:14-18 | the "github.com/login" and "login.facebook.com" entries are subsumed by "login" |
| Background.SelectBestFrame | chrome_extension/background.js:137-157 | no array or no qualifying frame gives null; otherwise the frame with the longest qualifying content, the earliest among equals |
| ContentScript.EscapeRegExp | chrome_extension/content.js:92-94 | the output length is the input length plus the number of special characters |
| ContentScript.UnescapeEscape | chrome_extension/content.js:92-94 | dropping the inserted backslashes recovers the input |
| ContentScript.EscapeKeepsOrdinary | chrome_extension/content.js:92-94 | text without special characters is unchanged |
| ContentScript.Lower | chrome_extension/content.js:45-46 | lower-casing keeps the length and maps each character |
| ContentScript.LowerSlice | chrome_extension/content.js:45-54 | lower-casing commutes with slicing |
| ContentScript.SplitKeeping | chrome_extension/content.js:50 | the split has at least one piece |
| ContentScript.SplitKeepingConcat | chrome_extension/content.js:50 | the pieces concatenated in order are the text |
| ContentScript.AlternatingCons | chrome_extension/content.js:50 | a text piece and a match in front of an alternating split keep it alternating |
| ContentScript.SplitKeepingPieces | chrome_extension/content.js:50-54 | odd pieces equal the search text up to case; even pieces hold no occurrence of it |
| ContentScript.SplitKeepingOdd | chrome_extension/content.js:50 | the split has an odd number of pieces |
| ContentScript.PrefixBeforeFirst | chrome_extension/content.js:50 | the text before the first occurrence holds none |
| ContentScript.Texts | chrome_extension/content.js:53-66 | the texts of the pieces, in order |
| ContentScript.ReplacedNode | chrome_extension/content.js:44-68 | a node is replaced iff its lower-cased text contains the lower-cased search; its pieces concatenate to the text, and exactly the odd ones, at least one, are highlights |
| ContentScript.HighlightTextOnPage | chrome_extension/content.js:20-75 | a missing or blank search changes no node; otherwise each node gets its outcome, and `firstMatch` is the first replaced node |
| ContentScript.WalkStep | chrome_extension/content.js:43-70 | one round handles the next node and leaves the rest |
| ContentScript.FirstReplacedStep | chrome_extension/content.js:60-62 | `firstMatch` is set only at the first replaced node |
| ContentScript.IsBlank | chrome_extension/content.js:23 | `trim() === ''` iff every character is whitespace |
| ContentScript.HighlightNode | chrome_extension/content.js:44-69 | one round computes the node's outcome |
| ContentScript.NodeOutcome | chrome_extension/content.js:44-68 | a node is unchanged, keeping its text, unless its lower-cased text contains the lower-cased search; then it becomes one piece per part of the split, each keeping that part's text |
| ContentScript.PieceOf | chrome_extension/content.js:54 | a part keeps its text as a piece; it is a highlight only when it equals the search up to case, and then has the search's length |
| ContentScript.Searchable | chrome_extension/content.js:23 | a searchable text is present and non-empty; one starting with a non-space character is searchable |
| Popup.DiffDays | chrome_extension/popup.js:176-177 | the day count is 0 iff the times are equal, and otherwise brackets the distance in whole days, rounded up |
| Popup.FormatDate | chrome_extension/popup.js:172-193 | the same instant is "Today"; a nonzero gap of at most a day is "Yesterday"; an unreadable date is "NaN months ago" |
| Popup.PastAndFutureAlike | chrome_extension/popup.js:176 | a date d before now reads the same as d after it |
| Popup.TodayAndYesterday | chrome_extension/popup.js:179-182 | "Today" iff the same instant, "Yesterday" iff a nonzero gap of at most one day |
| Popup.DayLabel | chrome_extension/popup.js:179-188 | the label is "Today" iff the day count is 0, "Yesterday" iff it is 1, and from 2 days on starts with a digit |
| Popup.DayBuckets | chrome_extension/popup.js:185-188 | 7..29 days read "W weeks ago" for some W in 1..4; 30 days and more read "M months ago" for some M ≥ 1 |
| Popup.FormatDateOrUnknown | chrome_extension/popup.js:172-193 | an unreadable date is "Unknown"; otherwise the label is unchanged |
| Popup.CorrectedLabelHasNoNaN | chrome_extension/popup.js:190-191 | the corrected label is never "NaN months ago" |

## Left out

- Persistence is not modelled: faiss index files, pickle, the chunk metadata JSON file and the full-page text file. The files' contents are parameters of loading, and the metadata file is a field of the executor.
- `VectorStore.save` and `get_stats` are not modelled, nor the executor's `get_status`, because they are file or network I/O and counters.
- Logging, timing fields (`processing_time_ms`, `total_time_ms`, `search_time_ms`) and wall-clock reads are not modelled. `now` is a parameter.
- Floating-point arithmetic: scores, ratios and vectors are exact reals, so float32 rounding in the index and float rounding in the quality score are not captured.
- The embedding client (an HTTP call) is a function field that may fail, and vector normalisation is not modelled.
- Chrome events, alarms, fetches, the debounce map, popup rendering and `escapeHtml` are not modelled, because they are event and UI machinery.
- `removeHighlights` and the DOM tree walk are not modelled. The page's text nodes are a sequence of strings.
- Lower-casing covers ASCII letters only, and strings are sequences of characters, not UTF-16 code units.
- The exception text in "Error: …" messages is not modelled. The message is just "Error: ".
- ContentProcessor.StripUrls: the scanner follows `re.sub`, but its contract states only that the text does not grow and gains no character.
- ContentProcessor.StripEmails: the scanner follows `re.sub`, but its contract states only that the text does not grow and gains no character.
- ContentProcessor.Process: requires `0 < chunk_size` and `chunk_overlap < chunk_size`, which the source never checks. A negative overlap is allowed. With `chunk_overlap >= chunk_size` the loop never ends, as `ContentProcessor.NoProgressWithoutStep` states. A `chunk_size` of 0 or less is not modelled: the source then slices with an end at or before the start, or one counted back from the text's end.
- PyText.ParseInt: accepts ASCII digits only. Python's `int` also accepts other Unicode decimal digits, so a key whose index digits are not ASCII parses here to None.
- VectorIndex.VectorStore.Load: the dimension checked on `add` and `search` is always the constructor's. An index read from file keeps its own dimension in faiss, so when that differs from the model's, faiss checks against the file's dimension while the model checks against the constructor's.
- ContentProcessor.ChunksAreChunks: chunk metadata is a fresh map holding the caller's entries plus `chunk_index`. The caller's dictionary is an immutable value here, so it is trivially untouched.
- Popup.DiffDays: the division by the milliseconds of a day is exact integer arithmetic, so floating-point rounding of `Math.ceil` on huge distances is not captured.
- Popup.FormatDate: date parsing is abstracted into an optional millisecond count, where None stands for an Invalid Date.
- Ranking.RankResults: the recency scores read one clock value `now` per call, while the source reads the clock again for each score.
- ContentProcessor.Chunks: every chunk is stamped with one clock value `now`, while the source reads `datetime.now()` again for each chunk.
- VectorIndex.VectorStore.Add: None stands for faiss rejecting an embedding of the wrong dimension.
- VectorIndex.VectorStore.Search: exactly `min(top_k, len)` hits is proved only while vectors and records align. For a store whose two lists diverged after a failed index load, the contract states only that there are at most that many.
- Executor.AgentExecutor.HandleIndexRequest: the outer exception path (`False, "Error: …"`) is reached only through I/O failures, which are not modelled, so the request always succeeds here.
- VectorIndex.NearestOfThree: a three-entry instance of `Search` rather than a general property. The general ones are `VectorIndex.VectorStore.Search` and `VectorIndex.StrictBestIsTop`.
- `clear_index` (an API endpoint that does not clear the store), page extraction, `extract_domain`, `is_valid_url` and `generate_hash` are not part of this model.

## Findings

| source | as written | input that shows it | evidently intended | confidence | as-written member | corrected member |
|---|---|---|---|---|---|---|
| chrome_extension/popup.js:172-193 | an unparsable timestamp yields an Invalid Date. `now - date` is then NaN, every comparison with the day count is false, and the last branch returns "NaN months ago". The `catch` that returns "Unknown" is never reached, because nothing in the body throws | `formatDate("not a date")` | "Unknown" for a timestamp that cannot be read | high; not executed | Popup.FormatDate | Popup.FormatDateOrUnknown, Popup.CorrectedLabelHasNoNaN |
