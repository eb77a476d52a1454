# Recomendify, modelled in Dafny

Recomendify suggests five songs for a Spotify playlist. The deployed path is the Netlify
function `netlify/functions/recommend.js`. It does the following:

- It matches the playlist link and fetches the playlist's tracks.
- When Spotify cannot be reached, it falls back to a seeded subset of the bundled catalog
  (`small_data.csv`).
- It normalises ten audio features against the catalog's bounds.
- It weighs the playlist's genres and builds a candidate pool.
- It scores every unheard candidate and re-ranks the 25 best.
- It calibrates the five it returns to a display similarity in [0.6, 0.99].

An older Python path also exists:

- `recommend.py` fetches features in chunks of 100 and pairs tracks with them.
- `backend/sorting.py` merge- or heap-sorts the similarity rows.
- `backend/dataset.py` buckets sentiment scores.

The Dafny files model these parts:

| file | module | what it models |
|---|---|---|
| `text.dfy` | `Text` | ASCII lower-casing, substring search, Python-style `split`/`join` |
| `genre.dfy` | `Genre` | `normalizeGenreLabel`, `asGenreArray` |
| `csv.dfy` | `Csv` | `parseCsvRow` (the `(\"[^\"]*\"\|[^,])+` match and quote stripping) |
| `catalog.dfy` | `Catalog` | `loadDataset` bounds and normalisation, `normalizeValue` |
| `rng.dfy` | `SeededRandom` | `createSeededRandom`: a seed fold plus xorshift32 on `bv32`, as a `Generator` class |
| `subset.dfy` | `Subset` | `buildSeededSubset`: a Fisher-Yates shuffle in place on an array |
| `order.dfy` | `Order` | the stable descending `Array.prototype.sort`, `Math.max`/`Math.min`, sums |
| `vectors.dfy` | `Vectors` | `buildPlaylistVectors` with its ten-slot accumulator array |
| `scoring.dfy` | `Scoring` | genre counts, inference, primary genres, candidates, the candidate score |
| `rerank.dfy` | `Rerank` | the pool of 25, the final score and the display calibration |
| `handler.dfy` | `Handler` | the link regex, fallback selection, the response, the whole pipeline |
| `merge_sort.dfy` | `MergeSort` | `sorting.py`: `comparator`, `merge`, `mergeSortHelper`, `mergeSort`, `heapSort` |
| `recommender.dfy` | `Recommender` | `recommend.py`: the playlist id, 100-id chunks, the feature-pairing loop, the top five |
| `sentiment.dfy` | `Sentiment` | `get_magnitude` |

Some code updates state in place, and that code is imperative Dafny:

- the seeded generator's state
- the shuffle
- the bounds scan
- the mean accumulator
- the genre-count and re-rank loops
- the merge sort

Each method is tied by its `ensures` to a specification function. The properties are
proved about that function. For the handler's pipeline that function is
`Handler.ScoreSpec`, the whole scoring and re-rank of one playlist against the catalog
(`Catalog.DatasetOf`).

`cosineSimilarity` is a parameter of type `(seq<real>, seq<real>) -> real`. So is
`generate_similarity_matrix`, and so are the Spotify calls. Only the zero-magnitude guard
of `cosineSimilarity` is stated, as `Scoring.ZeroGuarded`. The catalog rows arrive
already parsed into `Catalog.RawRow`. A missing catalog file is `None`.

### Behaviour of the code worth knowing

- **The similarity clamp.** The similarity is clamped to [0, 1] once, after the artist
  penalty (`recommend.js:487`).
- **The genre inference branch** (`recommend.js:419-433`). It runs only when the playlist
  is empty, because `asGenreArray` always yields at least `'unknown'`, so a playlist with
  tracks always has genre counts. After the fallback, the playlist is empty only when the
  catalog is. `Scoring.InferenceOnlyForEmptyPlaylist` and
  `Handler.EmptyPlaylistMeansEmptyCatalog` state this.
- **The diversity penalty.** `usedArtists` is still empty during the penalty loop
  (`recommend.js:496-501`), so `finalScore` is always the similarity. The sort by final
  score then keeps the similarity order. The result is the first `min(5, n)` of the top
  25, and one artist may fill it (`Rerank.RerankKeepsOrder`).
- **The seed.** It depends only on the sum of the id's character codes, so anagram ids
  share a stream (`SeededRandom.SeedOrderInsensitive`).

## Model

| member | source | states |
|---|---|---|
| Text.Lower | netlify/functions/recommend.js:403 | `toLowerCase` keeps the length (ASCII letters only are mapped) |
| Text.ContainsIff | netlify/functions/recommend.js:50 | `includes` holds iff the target occurs at some offset |
| Text.Find | recommend.py:39 | the offset found is an occurrence of the separator and no earlier offset is |
| Text.SplitJoin | recommend.py:39 | `split` then `join` with the same separator gives the text back |
| Text.SplitPartsFree | recommend.py:39 | no part of a `split` contains the separator |
| Genre.FirstMatch | netlify/functions/recommend.js:48-52 | returns the first rule with a target in the label; none before it matches; `None` iff no rule matches |
| Genre.NormalizeGenreLabel | netlify/functions/recommend.js:33-55 | the result is never empty; the first matching rule's value wins; otherwise the lowered label, or `'unknown'` for an empty one |
| Genre.NormalizeGenreLabelRange | netlify/functions/recommend.js:35-54 | every result is one of the ten rule values, the lowered label, or `'unknown'` |
| Genre.CountryRapIsCountry | netlify/functions/recommend.js:36-37 | rule order matters: "Country Rap" matches the hip-hop rule too, yet maps to `country` |
| Genre.AsGenreArray | netlify/functions/recommend.js:27-31 | never empty; a non-empty array is kept; a string with content becomes its normalised label; anything else becomes `['unknown']` |
| Csv.NextQuote | netlify/functions/recommend.js:58 | finds the first `"` at or after the offset, or proves there is none |
| Csv.TokenEnd | netlify/functions/recommend.js:58 | one regex match ends at a comma or at the end of the row, and is non-empty when it starts on a non-comma |
| Csv.RawTokens | netlify/functions/recommend.js:58 | every match is non-empty and does not start with a comma |
| Csv.StripQuotes | netlify/functions/recommend.js:59 | one quote is removed from each end when both ends are quoted, only the leading one when only the first character is a quote, only the trailing one when only the last is; unquoted text is unchanged; the result is a piece of the token |
| Csv.ParseCsvRow | netlify/functions/recommend.js:57-60 | one field per regex match, each with its quotes stripped |
| Csv.QuoteFreeRowIsSplit | netlify/functions/recommend.js:57-60 | a row without quotes parses to its comma-split parts with the empty ones dropped |
| Csv.QuotedSpanIsOneField | netlify/functions/recommend.js:58-59 | a quoted span is one field whatever commas it holds, and it loses its quotes |
| Catalog.ColumnBounds | netlify/functions/recommend.js:89-100 | no bounds iff the column has no finite value; otherwise min ≤ max, both attained, and every finite value lies between them |
| Catalog.ScanBounds | netlify/functions/recommend.js:91-98 | the scan loop computes `ColumnBounds` |
| Catalog.NormalizeValue | netlify/functions/recommend.js:256-259 | 0 for a non-finite value or equal bounds; within [0, 1] for a value inside the bounds; otherwise `r * (max - min) == v - min` |
| Catalog.NormalizeValueAsWritten | netlify/functions/recommend.js:256-259 | as written, a finite value against a column with no finite value gives NaN (`NonFinite`), and otherwise agrees with `NormalizeValue` |
| Catalog.NaNForFeatureWithoutCatalogValues | netlify/functions/recommend.js:90-99 | a concrete column with no finite value gives NaN for a playlist value of 0.5 |
| Catalog.CatalogValueNeverNaN | netlify/functions/recommend.js:102-109 | a catalog row's own value never normalises to NaN and lies within [0, 1] |
| Catalog.ConstantFeatureIsZero | netlify/functions/recommend.js:107 | a column with a single finite value normalises to 0 everywhere |
| Catalog.NormalizeRow | netlify/functions/recommend.js:102-120 | ten components, and the coarse genre is never empty |
| Catalog.LoadDataset | netlify/functions/recommend.js:62-124 | the result is `DatasetOf(rows)`: keeps the raw rows; the bounds are the column bounds; every row is normalised against them; every component is within [0, 1] |
| SeededRandom.SeedFold | netlify/functions/recommend.js:327-330 | the fold stays within 32 bits |
| SeededRandom.SeedFoldIsScaledSum | netlify/functions/recommend.js:327-330 | the fold is 2654435761 times the sum of the character codes, modulo 2^32 |
| SeededRandom.SeedOrderInsensitive | netlify/functions/recommend.js:327-330 | swapping two parts of a seed gives the same initial state |
| SeededRandom.ZeroOnlyFromZero | netlify/functions/recommend.js:333-335 | an xorshift step yields 0 iff its input is 0 |
| SeededRandom.Draw | netlify/functions/recommend.js:336 | each value is in [0, 1]; it is exactly 1 iff the state is 0xFFFFFFFF, and exactly 0 iff the state is 0 |
| SeededRandom.Stream | netlify/functions/recommend.js:332-337 | n calls give n values in [0, 1] |
| SeededRandom.Generator.constructor | netlify/functions/recommend.js:326-330 | the loop leaves the state at the seed fold |
| SeededRandom.Generator.Next | netlify/functions/recommend.js:332-337 | one call advances the state by one xorshift step and returns its draw |
| SeededRandom.Take | netlify/functions/recommend.js:326-337 | the first n values depend on the seed alone: the same seed gives the same stream |
| SeededRandom.ZeroStateDrawsZeros | netlify/functions/recommend.js:327-337 | the empty seed gives state 0, and every value drawn from it is 0 |
| Subset.SwapIndexAsWritten | netlify/functions/recommend.js:250 | `Math.floor(rand() * (i + 1))` lies in 0..i+1, and equals i+1 iff the draw is exactly 1 |
| Subset.MaxStateSwapsPastEnd | netlify/functions/recommend.js:250 | from state 0xFFFFFFFF, the as-written index is i+1, one past the slot being filled |
| Subset.ShuffleFromAsWritten | netlify/functions/recommend.js:249-252 | the loop as written keeps the pool's length while every partner lies inside the pool, and stops (`None`) once one lies past the end |
| Subset.ShuffleFromAsWrittenAgrees | netlify/functions/recommend.js:249-252 | while every draw of the loop is below 1, the loop as written gives exactly `ShuffleFrom` |
| Subset.ShuffledAsWrittenAgrees | netlify/functions/recommend.js:246-252 | when the n - 1 draws for n items are all below 1, the seeded shuffle as written is `Shuffled` |
| Subset.FirstDrawAtOneOverruns | netlify/functions/recommend.js:249-251 | a first draw of 1 (state 0xFFFFFFFF) for the last position writes past the end of the pool |
| Subset.SwapIndex | netlify/functions/recommend.js:250 | the corrected index stays within 0..i, and agrees with the as-written index whenever the draw is below 1 |
| Subset.Swap | netlify/functions/recommend.js:251 | the two slots are exchanged and every other slot is kept |
| Subset.ShuffleFromPermutes | netlify/functions/recommend.js:248-252 | the shuffle is a permutation |
| Subset.ShuffledPermutes | netlify/functions/recommend.js:246-252 | the seeded shuffle of any list is a permutation of it |
| Subset.ShuffleInPlace | netlify/functions/recommend.js:248-252 | the loop over the array computes the recursive shuffle from the generator's state, and leaves the generator `n - 1` steps further on |
| Subset.ShuffleTurn | netlify/functions/recommend.js:249-251 | one turn steps the generator once, swaps slot `i` with `SwapIndex` of the new draw, and leaves the rest of the shuffle equal to the whole shuffle from before the turn |
| Subset.SwapAt | netlify/functions/recommend.js:251 | the array becomes the input with positions `i` and `j` exchanged |
| Subset.BuildSeededSubset | netlify/functions/recommend.js:246-254 | returns the first `min(count, n)` items of the seeded shuffle, drawn from the input without repeats; the input is a value and is left unchanged |
| Subset.SubsetOfFewItemsIsPermutation | netlify/functions/recommend.js:253 | with no more items than `count`, the subset is a permutation of the input |
| Order.InsertDescSorted | netlify/functions/recommend.js:426 | inserting after the elements with larger or equal keys keeps the list sorted |
| Order.SortDesc | netlify/functions/recommend.js:426 | `sort((a, b) => b.k - a.k)` keeps the length and orders keys non-increasingly |
| Order.SortDescPermutes | netlify/functions/recommend.js:436 | the sort is a permutation |
| Order.SortDescSameElements | netlify/functions/recommend.js:490 | the sort neither adds nor drops an element |
| Order.SortDescOfSorted | netlify/functions/recommend.js:503 | a sorted input comes back unchanged |
| Order.SortDescStable | netlify/functions/recommend.js:436 | the sort is stable: for every key value, the elements with that key come out in their input order |
| Order.InsertDescWithKey | netlify/functions/recommend.js:436 | inserting into a sorted list places the new element after every element with its key |
| Order.MaxOf | netlify/functions/recommend.js:507 | `Math.max(...xs)` bounds every element and is one of them |
| Order.MinOf | netlify/functions/recommend.js:506 | `Math.min(...xs)` is below every element and is one of them |
| Order.SumBounds | netlify/functions/recommend.js:461 | a sum of n values in [lo, hi] lies in [n·lo, n·hi] |
| Vectors.TrackVector | netlify/functions/recommend.js:262-268 | ten components, each the normalised feature against the catalog bounds |
| Vectors.MeanVector | netlify/functions/recommend.js:278-281 | ten components; all zeros for no tracks |
| Vectors.MeanWithinBounds | netlify/functions/recommend.js:271-281 | each mean component lies within the range of that component over the tracks |
| Vectors.MeanOfOne | netlify/functions/recommend.js:279-281 | the mean of one vector is that vector |
| Vectors.BuildPlaylistVectors | netlify/functions/recommend.js:261-283 | the vectors are the track vectors, and the accumulator loop yields their mean |
| Vectors.AddVector | netlify/functions/recommend.js:273-275 | adding one vector turns the component sums of the earlier vectors into the sums including it |
| Scoring.Filter | netlify/functions/recommend.js:443-447 | `filter` keeps exactly the elements satisfying the predicate |
| Scoring.TrackGenres | netlify/functions/recommend.js:410 | a track has at least one genre, and none is empty |
| Scoring.AddWeight | netlify/functions/recommend.js:413 | a new genre is appended at the end (Map insertion order); a known one keeps the length |
| Scoring.TrackWeight | netlify/functions/recommend.js:411 | the per-genre weight is positive and a track's genres share exactly 1 |
| Scoring.AddAllKeeps | netlify/functions/recommend.js:412-414 | one track adds its weight to the total and keeps genres distinct and counts positive |
| Scoring.GenreCountsInvariant | netlify/functions/recommend.js:409-416 | the counts total the number of tracks, genres are distinct, counts are positive, and the map is empty iff the playlist is |
| Scoring.CountGenres | netlify/functions/recommend.js:409-416 | the nested loops compute `GenreCounts`, totalling the track count |
| Scoring.AddTrack | netlify/functions/recommend.js:412-414 | the inner loop adds the track's weight to each of its genres, as `AddAll` |
| Scoring.Inferred | netlify/functions/recommend.js:421-427 | the inference takes `min(40, n)` catalog items |
| Scoring.Weigh | netlify/functions/recommend.js:418-433 | `totalTracks` is at least 1; with counts present, it is the track count (or 1) and the counts are kept |
| Scoring.InferenceOnlyForEmptyPlaylist | netlify/functions/recommend.js:419 | the inference branch runs only for an empty playlist |
| Scoring.InferenceTakesCatalogHead | netlify/functions/recommend.js:421-427 | with a zero mean and the zero guard, the inferred items are the catalog's first 40 |
| Scoring.PreferredGenres | netlify/functions/recommend.js:435-437 | one weighted entry per counted genre |
| Scoring.PreferredSorted | netlify/functions/recommend.js:435-437 | the preferred genres are sorted by weight, descending |
| Scoring.PrimaryIsPrefix | netlify/functions/recommend.js:439 | on the sorted list, the primary genres are a prefix: the first entry plus those with weight ≥ 0.18 |
| Scoring.PrimaryEmptyIff | netlify/functions/recommend.js:439 | the primary genres are empty iff the preferred genres are |
| Scoring.StrictMatches | netlify/functions/recommend.js:443-447 | an item is kept iff there are no primary genres or its coarse genre is primary |
| Scoring.Candidates | netlify/functions/recommend.js:449 | the strict matches if there are at least 12, otherwise the whole catalog |
| Scoring.CandidatesFromCatalog | netlify/functions/recommend.js:449 | candidates are catalog items, at least `min(12, n)` of them |
| Scoring.Unheard | netlify/functions/recommend.js:454 | exactly the candidates whose id is not in the playlist |
| Scoring.GenreWeightOf | netlify/functions/recommend.js:467 | 0 for a genre that is not primary; non-negative for non-negative weights |
| Scoring.GenreMatchBoost | netlify/functions/recommend.js:468 | the boost is within [1, 1.45] |
| Scoring.GenrePenalty | netlify/functions/recommend.js:469 | 0.18 iff there are primary genres and the item's genre is not among them, otherwise 1 |
| Scoring.PopWeight | netlify/functions/recommend.js:471-475 | within [0.5, 1], and 1 iff the popularity equals the playlist average |
| Scoring.ArtistPenalty | netlify/functions/recommend.js:477-479 | 0.9 iff the lower-cased artist is in the playlist, otherwise 1 |
| Scoring.Jitter | netlify/functions/recommend.js:481 | the jitter is within [0, 0.01] |
| Scoring.MaxSim | netlify/functions/recommend.js:459 | 0 for no tracks; otherwise the largest similarity |
| Scoring.AvgSim | netlify/functions/recommend.js:460-462 | 0 for no tracks; otherwise the sum divided by the count |
| Scoring.ScoreCandidate | netlify/functions/recommend.js:455-488 | the clamped similarity lies in [0, 1], and the signals kept on the entry are the max, average and mean similarities |
| Scoring.ArtistPenaltyNeverRaises | netlify/functions/recommend.js:487 | the artist penalty never raises the clamped similarity |
| Scoring.JitterBounded | netlify/functions/recommend.js:481-486 | the jitter moves the blend by at most 0.01 |
| Scoring.PrimaryGenreUnpenalised | netlify/functions/recommend.js:469 | a primary genre is never penalised |
| Scoring.ScoreAll | netlify/functions/recommend.js:453-489 | one scored entry per unheard candidate, in order, each with a similarity in [0, 1] |
| Scoring.RankBySimilarity | netlify/functions/recommend.js:490 | the scored list sorted by similarity, descending |
| Rerank.Pool | netlify/functions/recommend.js:494 | the first `min(25, n)` scored entries |
| Rerank.DiversityPenalty | netlify/functions/recommend.js:498 | 0.8 or 1, and 1 while no artist is used |
| Rerank.ScoreRange | netlify/functions/recommend.js:508 | the range is at least 0.08 and at least max − min |
| Rerank.Display | netlify/functions/recommend.js:512-517 | the display similarity lies in [0.6, 0.99] |
| Rerank.ApplyPenalties | netlify/functions/recommend.js:496-501 | with `usedArtists` still empty, the loop gives every entry its similarity as final score |
| Rerank.Calibrate | netlify/functions/recommend.js:505-521 | the loop keeps the first five of the sorted pool, each calibrated against the pool's bounds |
| Rerank.Rerank | netlify/functions/recommend.js:492-521 | returns `min(5, min(25, n))` entries; each final score equals its similarity; each display similarity is in [0.6, 0.99] |
| Rerank.SortedPoolUnpenalised | netlify/functions/recommend.js:496-503 | after the sort by final score, every final score is still the similarity |
| Rerank.RerankKeepsOrder | netlify/functions/recommend.js:492-521 | on the similarity-sorted input, the result is the first five of the top 25 in order, whatever their artists |
| Rerank.EmptyPoolEmptyResult | netlify/functions/recommend.js:494-521 | no scored entries give no recommendations |
| Handler.AlnumRun | netlify/functions/recommend.js:25 | the `[a-zA-Z0-9]+` run is maximal |
| Handler.LinkMatchSound | netlify/functions/recommend.js:25 | every link the matcher accepts has the prefix, a non-empty alphanumeric id and an optional `?` query without line terminators |
| Handler.LinkMatchComplete | netlify/functions/recommend.js:25 | every link of that shape is accepted, with that id |
| Handler.TrailingSlashRejected | netlify/functions/recommend.js:25 | a trailing `/` is refused; a `?si=` query is accepted |
| Handler.CaughtReason | netlify/functions/recommend.js:368-373 | an exception gives "Missing Spotify credentials" when its message mentions credentials, otherwise "Spotify API unavailable" |
| Handler.FallbackFeatures | netlify/functions/recommend.js:380-391 | ten features, with popularity `Number(x) \|\| 0` always finite |
| Handler.FallbackPlaylist | netlify/functions/recommend.js:377-393 | the fallback has `min(10, n)` tracks from the seeded shuffle |
| Handler.ChoosePlaylist | netlify/functions/recommend.js:362-394 | live when tracks arrived; otherwise the seeded fallback, with the caught reason or "Unable to read playlist tracks" |
| Handler.EmptyPlaylistMeansEmptyCatalog | netlify/functions/recommend.js:375-394 | the chosen playlist is empty only when the catalog is |
| Handler.Round3 | netlify/functions/recommend.js:540 | rounding to three decimals keeps a value of [0.6, 0.99] inside it |
| Handler.Round3Examples | netlify/functions/recommend.js:540 | halves round up: 0.8125 gives 0.813 |
| Handler.ToRecommendation | netlify/functions/recommend.js:535-543 | the id is the candidate's, the url is the track url of that id, and the similarity stays in [0.6, 0.99] |
| Handler.RerankFromScored | netlify/functions/recommend.js:492-521 | every re-ranked entry comes from the scored list |
| Handler.RankedFromUnheard | netlify/functions/recommend.js:453-490 | every scored entry is an unheard candidate |
| Handler.ScorePlaylist | netlify/functions/recommend.js:397-521 | the result is `ScoreSpec`: `min(5, min(25, n))` entries for n unheard candidates, display in [0.6, 0.99], none from the playlist, all from the catalog |
| Handler.RankedFor | netlify/functions/recommend.js:437-490 | one scored entry per unheard candidate, ranked by non-increasing similarity |
| Handler.ScoreSpecTakesRankedHead | netlify/functions/recommend.js:492-521 | the result is the first `min(5, min(25, n))` of the ranked candidates, in ranked order |
| Handler.ScoreSpecUnheard | netlify/functions/recommend.js:448-452 | every recommended candidate is in the catalog and not in the playlist |
| Handler.ToRecommendations | netlify/functions/recommend.js:527-549 | one entry per re-ranked candidate, in re-rank order; under `merge`, the stable descending sort `SortDesc` of those entries by similarity (so ties keep re-rank order), sorted and a permutation of them |
| Handler.Recommend | netlify/functions/recommend.js:358-549 | the playlist and meta are `ChoosePlaylist`'s; the entries of `ScoreSpec` in re-rank order, or under `merge` their stable sort by similarity (a sorted permutation), `min(5, min(25, n))` of them; similarity in [0.6, 0.99], none in the playlist, all in the catalog, url matching the id, sorted under `merge` |
| Handler.Handle | netlify/functions/recommend.js:340-563 | non-POST gives 405; an unparsable body gives 500; a bad link gives 400; a missing catalog gives 500; a metadata call that rejects or throws gives 500; otherwise 200 with the meta and the entries of `ScoreSpec` over `DatasetOf(rows)` and the chosen playlist (stably sorted by similarity under `merge`), `min(5, min(25, n))` of them |
| MergeSort.MergeRuns | netlify/functions/backend/sorting.py:33-50 | the merge has the length of both runs |
| MergeSort.MergeRunsPermutes | netlify/functions/backend/sorting.py:33-50 | merging is a permutation of the two runs |
| MergeSort.MergeRunsSorted | netlify/functions/backend/sorting.py:33-50 | two sorted runs merge into a sorted run |
| MergeSort.TieTakesRight | netlify/functions/backend/sorting.py:34-39 | on equal similarity, the right run's row is taken first |
| MergeSort.MergeSortSorted | netlify/functions/backend/sorting.py:53-63 | after `mergeSort`, similarities are non-increasing |
| MergeSort.MergeSortPermutes | netlify/functions/backend/sorting.py:53-63 | `mergeSort` permutes the rows |
| MergeSort.MergeSortNotStable | netlify/functions/backend/sorting.py:53-63 | two rows of equal similarity come out swapped: the sort is not stable |
| MergeSort.MergeHeads | netlify/functions/backend/sorting.py:29-40 | the head loop writes the merge's prefix until one run is used up |
| MergeSort.CopyRest | netlify/functions/backend/sorting.py:41-50 | a closing loop copies the rest of a run and nothing else |
| MergeSort.MergeOne | netlify/functions/backend/sorting.py:34-40 | one turn of the head loop writes the next row of the merge and advances the run it came from |
| MergeSort.MergeInto | netlify/functions/backend/sorting.py:29-50 | the three loops together write the merge of the two runs from `l` on and nothing else |
| MergeSort.Merge | netlify/functions/backend/sorting.py:13-50 | `merge` writes only `l..r`, and writes there the merge of the two runs |
| MergeSort.MergeSortHelper | netlify/functions/backend/sorting.py:53-59 | sorts `l..r` as `MergeSortSpec` and leaves the rest alone |
| MergeSort.Sort | netlify/functions/backend/sorting.py:62-63 | the list ends sorted and is a permutation of what it was; empty and one-row lists are untouched |
| MergeSort.StrLessTransitive | netlify/functions/backend/sorting.py:69 | Python's string `<` is transitive |
| MergeSort.StrLessTotal | netlify/functions/backend/sorting.py:69 | any two distinct strings are ordered one way |
| MergeSort.KeyTransitive | netlify/functions/backend/sorting.py:69 | the (similarity, track_id) key order is transitive |
| MergeSort.InsertByKeySorted | netlify/functions/backend/sorting.py:68-69 | insertion keeps rows ordered by key |
| MergeSort.HeapSort | netlify/functions/backend/sorting.py:66-70 | ordered by non-increasing (similarity, track_id), and a permutation of the input |
| MergeSort.KeySortedIsSorted | netlify/functions/backend/sorting.py:68-69 | key order implies similarity order |
| Recommender.PlaylistIdShape | recommend.py:39 | the text after the last `/playlist/` ends the link, holds no `/playlist/`, and is the whole link or follows a `/playlist/`; the id starts that text, holds no `?`, and is all of it or is followed by a `?` |
| Recommender.PlaylistIdWithoutSegment | recommend.py:39 | without `/playlist/`, the id is the link up to its first `?`, or the whole link when there is none |
| Recommender.Chunks | recommend.py:60 | no chunks iff no ids; each chunk has 1 to 100 ids; all but the last have exactly 100 |
| Recommender.ChunksFlatten | recommend.py:60 | the chunks concatenate back to the ids |
| Recommender.FetchAllLength | recommend.py:62-66 | with one answer per id, the collected features line up with the tracks |
| Recommender.AlignTracks | recommend.py:68-110 | the loop keeps what `KeptAsWritten` keeps; the counter ends at the number of tracks with a genre, so it is advanced for tracks without features but not for tracks without a genre |
| Recommender.MisalignedFeatures | recommend.py:80-89 | a genre-less track makes the next track take its features |
| Recommender.AlignedIff | recommend.py:80-110 | the corrected loop keeps exactly the tracks with a genre and features, each with its own features |
| Recommender.AsWrittenAlignedWithGenres | recommend.py:68-110 | when every artist has a genre, the loop as written pairs every track with its own features |
| Recommender.SortedRows | recommend.py:116-122 | the rows after either sort are a permutation of the input |
| Recommender.SortedRowsSorted | recommend.py:116-122 | either sort leaves similarities non-increasing |
| Recommender.GetRecommendations | recommend.py:53-124 | `'failure'` gives `[]`; otherwise the first `min(5, n)` sorted rows of the tracks paired as the counter loop pairs them (`KeptAsWritten`); at most five, in non-increasing similarity; when every artist has a genre, the same as with the intended pairing `Aligned` |
| Recommender.FetchChunks | recommend.py:62-66 | the chunk loop collects the features of every chunk in order |
| Recommender.SortBy | recommend.py:116-122 | `'heap'` picks the heap sort, anything else the merge sort, each as `SortedRows` |
| Sentiment.GetMagnitude | netlify/functions/backend/dataset.py:37-51 | for `'polarization'`: Negative iff < 0, Neutral iff 0, Positive iff > 0; for any other type: low iff < 1/3, medium iff 1/3, high iff > 1/3 |
| Sentiment.MagnitudeIsTotal | netlify/functions/backend/dataset.py:37-51 | every score falls into one of the three buckets of its type |
| Sentiment.MagnitudeMonotone | netlify/functions/backend/dataset.py:37-51 | a higher score never lands in a lower bucket |

## Left out

- Network and I/O are parameters or left out: the token request, `fetchPlaylistTracks` (which builds each live track's genre list from its artists), `getTrackMetadata` (whose failure is the `metadataThrows` parameter of `Handler.Handle`), the oEmbed cover lookup, reading the file system, caching the dataset, and logging. Names and artists come from the catalog row (the source prefers the metadata's when it has them); the `cover` field of each response entry is not modelled.
- Text: `parseCsvRow` runs on every line of the file after it is split on `\r?\n`; line splitting, header mapping and `Number()` parsing of cells are not modelled. Rows arrive as `RawRow` values.
- Floating point is modelled with exact reals:
  - `Num` merges NaN and ±Infinity into `NonFinite`, and `Number(x) || 0` maps every non-finite value to 0. The source keeps ±Infinity there.
  - `toFixed(3)` is modelled as round-half-up on exact reals.
  - `1/3` in `get_magnitude` is the exact third, not the nearest double.
- Text.Lower: maps only ASCII letters; the full Unicode `toLowerCase` is not modelled.
- Text: strings are sequences of code points, not UTF-16 code units.
- SeededRandom.Step: that the xorshift step is a bijection on 32-bit states is not proved; only that 0 is reached only from 0.
- Scoring.AvgPopularity: an empty playlist yields 0 here and NaN in the source. No candidate is scored then, because the catalog is empty as well.
- Vectors.TrackVector: normalises with the corrected `Catalog.NormalizeValue`, not `Catalog.NormalizeValueAsWritten`. A finite live value against a catalog column with no finite value is 0 here and NaN in the source.
- Handler.Recommend: runs the corrected `NormalizeValue` and `SwapIndex`. Its similarity range [0.6, 0.99] therefore does not cover the NaN case above: there the source's mean component, score and display similarity are NaN, and `JSON.stringify` writes `null`.
- Handler.FallbackPlaylist: shuffles with the corrected `Subset.SwapIndex`. It equals the source's shuffle when every draw is below 1 (`Subset.ShuffledAsWrittenAgrees`). A draw of 1 makes the two differ in one of two ways, and neither is modelled here. On the first turn (`i = n - 1`) the source writes `pool[n]`, growing the array and leaving `undefined` in slot `n - 1`. On a later turn it swaps slot `i` with the already fixed slot `i + 1`, which `Subset.ShuffleFromAsWritten` models, while `SwapIndex` leaves slot `i` in place.
- Subset.ShuffleFromAsWritten: gives `None` where the source writes `pool[pool.length]`; the longer array and the `undefined` it holds are not modelled.
- `cosineSimilarity` is a parameter; its square roots are not modelled.
- Recommender: the Spotify client's constructor checks of environment variables and the 403 handling (`recommend.py:12-51`) are not modelled. `sp.audio_features` may answer `None` for a track; that case, where `len(None)` raises, is not modelled.
- Recommender.GetRecommendations: returns the similarity rows of the top five. The per-track lookups of name, artist and cover (`recommend.py:127-140`) are left out.
- `generate_similarity_matrix` and the rest of `dataset.py` other than `get_magnitude` are not part of this model.

## Findings

| source | as written | input that shows it | evidently intended | confidence | as-written member | corrected member |
|---|---|---|---|---|---|---|
| netlify/functions/recommend.js:256-259 | `normalizeValue` guards only a non-finite value and `min === max`; a finite playlist value against a feature with no finite catalog value computes `(v - Infinity) / (-Infinity - Infinity)`, which is NaN | a catalog whose `tempo` column has no numeric cell, and a playlist track with tempo 120 | 0, as for every other degenerate bound | not executed | Catalog.NormalizeValueAsWritten, Catalog.NaNForFeatureWithoutCatalogValues | Catalog.NormalizeValue, Catalog.CatalogValueNeverNaN |
| netlify/functions/recommend.js:250 | `Math.floor(rand() * (i + 1))` with `rand()` able to return exactly 1 (`0xffffffff / 0xffffffff`) gives `j = i + 1`, one past the slot being filled | a seed whose generator reaches state 0xFFFFFFFF at some step of the shuffle | an index in `0..i` | not executed | Subset.SwapIndexAsWritten, Subset.MaxStateSwapsPastEnd, Subset.ShuffledAsWritten, Subset.FirstDrawAtOneOverruns | Subset.SwapIndex, Subset.BuildSeededSubset, Subset.ShuffledAsWrittenAgrees |
| recommend.py:80-89 | `counter` is not advanced when a track is skipped for having no genre, so every later track is paired with the features of an earlier one | a playlist whose first artist has no genres, followed by a track with a genre | `all_audio_features[i]` for the i-th item | not executed | Recommender.AlignTracks, Recommender.MisalignedFeatures | Recommender.Aligned, Recommender.AlignedIff |
