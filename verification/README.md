# League winrate database — a Dafny model

This project models the data core of a small League of Legends winrate
service. The service has three parts:

- **Ingestion.** Match records come from the match API. `extract_and_write`
  turns each one into a row of the *wide* table: the match id, the champion
  in each of the five positions of each side, and whether blue won.
  `populate_db` merges a batch of such rows into the table with
  `union(...).distinct()`.
- **Derivation.** `create_df_v2` derives the *narrow* table. It holds one row
  per (match, side, column) and carries that side's win flag.
- **Queries and cache.** `Database.Winrate` answers winrate queries from
  either table: "v2" reads the narrow table, any other version reads the
  wide one. `create_df_v2` writes the narrow table to storage but does not
  replace the one in memory, so "v2" reads the narrow table loaded at
  start-up while other versions read the live wide table; the two agree
  after a restart with no ingestion since. server.py defines a small bounded
  recency cache (`lru_cache`) of (champion, winrate) pairs; the web route's
  calls to it are commented out.

Tables are modelled as sequences of rows and every operation as a pure
function. The modules follow the program:

| module | file | models |
|---|---|---|
| `Seqs` | seqs.dfy | `Option`; Spark's `distinct`, which the model takes to keep first occurrences |
| `Schema` | schema.dfy | positions, the wide and narrow row types, and the untyped row list with its version 1 schema check |
| `PositionSort` | position_sort.dfy | the stable sort of one side's players by position index |
| `Extraction` | extraction.dfy | `extract_and_write` |
| `Derivation` | derivation.dfy | `create_df_v2` |
| `Aggregation` | aggregation.dfy | `Database.Winrate`, both versions |
| `Ingestion` | ingestion.dfy | `populate_db`: the 3000-id cap, the response loop, `createDataFrame`, and the merge |
| `RecencyCache` | recency_cache.dfy | `lru_cache` in server.py |

The central results:

- An extracted row loads exactly when the match has ten participants (`Extraction.ExtractFitsExactlyTen`). With five players a side it loads as the wide row whose columns are the side's players ordered by position (`Extraction.ExtractFitsSchema`). When each side also has exactly one player per position, every participant lands in the column of its side and position (`Extraction.ColumnsFollowPositions`).
- The narrow table holds exactly the ten (side, column) entries of every match, each with that side's result.
- Both query versions return the same reply whenever the narrow table holds the rows derived from the wide one, in any order (`Aggregation.VersionsAgree`).
- The cache stays within its bound. A lookup of a unique name moves the entry to the back.

## Model

| member | source | states |
|---|---|---|
| Schema.Rank | database.py:119-125 | each of the five positions has its own index below 5, and `RoleAt` maps the index back to the position |
| Schema.FromCells | database.py:24-38 | a row list loads under the version 1 schema exactly when it has twelve cells, eleven text cells then a flag (the text requirement is the model's reading of the string columns); the loaded row flattens back to the same list |
| Schema.FlattenRoundTrip | database.py:24-38 | every wide row loads back from its own row list |
| PositionSort.Sort | database.py:148-153 | sorting a side by position index yields a permutation of its players in non-decreasing position order |
| PositionSort.SortIsStable | database.py:148-153 | players reporting the same position keep their participant-list order, as Python's stable `sorted` does |
| PositionSort.SortPlacesEachRole | database.py:148-153 | with one player per position, the sorted side has five entries and puts each player at its position's index |
| Extraction.PositionOf | database.py:136-141 | a reported position is found in the table exactly when it is one of the five names, and then it maps to that position |
| Extraction.TeamOf | database.py:142-146 | a participant is blue exactly when its team id is 100; every other id is red |
| Extraction.LastBlueWin | database.py:142-146 | there is no `blue_win` value exactly when no participant is blue |
| Extraction.ScanRejects | database.py:133-141 | the participant loop gives up exactly when some participant reports a position outside the table |
| Extraction.ScanResult | database.py:133-146 | otherwise each side's players are collected in participant order, and `blue_win` is the flag of the last blue participant |
| Extraction.TeamSlotsCover | database.py:142-146 | every participant is put on exactly one side |
| Extraction.Extract | database.py:114-158 | matches that did not complete or are not queue 420 are skipped; an unknown position skips the match; no blue participant raises; otherwise the row is the match id, the sorted blue and red champions, and the blue result |
| Extraction.ExtractRowLength | database.py:155-157 | an extracted row has one cell per participant plus the id and the result |
| Extraction.ExtractFitsExactlyTen | database.py:148-157 | an extracted row fits the version 1 schema exactly when the match has ten participants, however they are split between the sides |
| Extraction.ExtractFitsSchema | database.py:148-157 | with five players a side, whatever positions they report, the extracted row fits the version 1 schema and loads as the wide row of the sorted sides |
| Extraction.ColumnsFollowPositions | database.py:148-157 | with one player per position on each side, the loaded row puts every participant's champion in the column of its side and reported position |
| Derivation.Explode | database.py:169-174 | a side of a match yields five rows, one per column in column order, each with the match id, the side, and that side's result |
| Derivation.Derive | database.py:160-176 | the narrow table has ten rows per wide row |
| Derivation.DeriveMembership | database.py:169-176 | a narrow row is derived exactly when some match holds its champion in some column of its side, with the same id and that side's result |
| Derivation.DeriveConcat | database.py:173-176 | deriving from more matches adds exactly the new matches' rows, as a multiset |
| Aggregation.TallyV2 | database.py:189-194 | version 2 wins never exceed games; no games exactly when no narrow row holds the champion; no wins exactly when none of those rows is a win |
| Aggregation.TallyV1 | database.py:199-213 | version 1 wins never exceed games |
| Aggregation.TallyV1Counts | database.py:199-213 | version 1 counts one game per column holding the champion on either side (duplicates kept), and one win per such column on the winning side |
| Aggregation.TallyV2Counts | database.py:189-194 | on the derived table, version 2 counts the same column appearances and victories |
| Aggregation.TallyV2Perm | database.py:189-194 | version 2 depends only on which rows the narrow table holds and how often, not on their order |
| Aggregation.TalliesAgree | database.py:182-215 | version 1 on a wide table and version 2 on its derived table produce the same counts |
| Aggregation.Ratio | database.py:212-215 | the winrate is wins over games, with zero games the division by zero, and it lies in [0, 1] when wins do not exceed games |
| Aggregation.WinrateOf | database.py:182-215 | every reply lies in [0, 1]; version "v2" divides by zero exactly when no narrow row holds the champion |
| Aggregation.WinrateV1Undefined | database.py:195-215 | any other version divides by zero exactly when no column of any match holds the champion |
| Aggregation.VersionsAgree | database.py:182-215 | on a narrow table holding the rows derived from the wide one in any order, "v2" and every other version return the same reply |
| Aggregation.TwoColumnsCountTwice | database.py:199-213 | neither version removes duplicates: a champion in two columns of one won match counts as two games and two wins |
| Seqs.Distinct | database.py:109 | `distinct` leaves no duplicate and keeps exactly the rows it was given |
| Ingestion.Merge | database.py:109 | the merged table holds no duplicate and holds exactly the rows of the old table and the new batch |
| Ingestion.MergeIdempotent | database.py:109 | merging the same batch a second time changes nothing, position by position under the model's `distinct` |
| Ingestion.MergeIdempotentRows | database.py:109 | merging the same batch a second time yields the same rows, in whatever order `distinct` returns them |
| Ingestion.MergeKnownRows | database.py:109 | a batch of rows already in a duplicate-free table leaves it unchanged, position by position under the model's `distinct` |
| Ingestion.MergeKnownRowsAnyOrder | database.py:109 | a batch of rows already in a duplicate-free table leaves its rows unchanged, in whatever order `distinct` returns them |
| Ingestion.MergeKeepsSameMatchRows | database.py:109 | duplicates are whole rows: two different rows of one match both stay |
| Ingestion.Batch | database.py:82 | at most the first 3000 match ids are used, unchanged |
| Ingestion.CollectFails | database.py:86-101 | the response loop fails exactly when the extraction of some fetched match raises |
| Ingestion.CollectRows | database.py:96-101 | otherwise the batch holds exactly the rows of the extracted matches; skipped matches and failed requests add nothing |
| Ingestion.Load | database.py:107 | the batch loads exactly when every row list fits the version 1 schema, and each loaded row flattens back to its list |
| Ingestion.PopulateFails | database.py:82-109 | a round fails exactly when some match among the first 3000 raises or yields a row the schema rejects |
| Ingestion.PopulateContents | database.py:82-109 | a completed round keeps every old row and holds no duplicate; each new row comes from a match extracted among the first 3000 responses |
| Ingestion.PopulateAddsExtracted | database.py:82-109 | a completed round contains the row of every match extracted among the first 3000 responses |
| RecencyCache.New | server.py:14-16 | a cache of non-negative capacity starts empty and within its bound; a negative capacity is rejected |
| RecencyCache.Add | server.py:19-20 | the cache keeps the newest `maxlen` entries of old entries plus the new one: append when there is room, drop exactly the front when full |
| RecencyCache.FirstMatch | server.py:24-26 | the lookup finds the first entry with the name, or -1 exactly when there is none |
| RecencyCache.LastMatch | server.py:33-37 | eviction picks the last entry with the name, or -1 exactly when there is none |
| RecencyCache.RemoveAt | server.py:40 | rebuilding without one index drops exactly that entry and keeps the others in order |
| RecencyCache.Evict | server.py:33-40 | an absent name leaves the cache unchanged; otherwise exactly the last entry with the name is removed, the others keep their order, and the bound is kept |
| RecencyCache.Get | server.py:24-40 | a miss returns -1 and leaves the cache unchanged; a hit returns the first entry with the name, removes the last entry with the name, and re-appends the returned one at the back; the bound is kept |
| RecencyCache.GetMovesToBack | server.py:24-40 | with unique names, a hit returns the entry and moves it to the back; the length is unchanged and the others keep their order |
| RecencyCache.AddDuplicates | server.py:19-20 | adding a name that is present, and not dropped from the front, leaves two entries with that name |
| RecencyCache.GetOfPair | server.py:24-40 | on a cache holding two entries of one name, `get` returns the older one and leaves it twice; the newer entry is gone |
| RecencyCache.GetLosesNewerEntry | server.py:24-40 | after two adds of one name, a lookup returns the older entry, loses the newer one, and holds the older twice |
| RecencyCache.GetFixed | server.py:24-31 | the corrected lookup moves exactly the found first entry to the back and is a permutation of the cache |
| RecencyCache.GetFixedAgrees | server.py:24-40 | with unique names the corrected lookup behaves exactly as the original |

## Left out

- Spark session setup, parquet reading and writing, `show()`, and printing. These are storage and console I/O, so tables are plain sequences.
- The HTTP request, the API key, and the `time.sleep` throttle in `populate_db`. The responses for the match ids are a parameter: a match record, or any status other than 200. Reading `m_ids.txt` is left out too.
- The gRPC servicer wiring, `serve`, and the thread pool. The Flask route and the gRPC client in server.py are left out as well. These are transport and concurrency.
- `print_content` in server.py. It only prints.
- pull_ids.py and client.py are not part of this model. They are network clients.
- The winrate is an exact `real`, not a floating-point number. Floating-point rounding is not modelled.
- JSON fields are read as already present: `info`, `metadata`, `endOfGameResult`, `queueId`, and each participant's `championName`, `teamPosition`, `teamId` and `win`. A missing key (a KeyError outside the position lookup) is not modelled.
- `curr_patch` is an unused parameter of `extract_and_write`. The patch check is commented out in the source.
- Schema.FromCells: the model asks for text cells in the eleven string columns. Whether PySpark's own type check accepts other values there is not modelled. Extracted rows always have text cells there, so loading an extracted row is unaffected.
- The narrow rows carry no position. The version 2 schema lists a `role` column, but `create_df_v2` never emits one, and the model follows the code.
- Spark's `distinct` leaves row order unspecified. `Seqs.Distinct` keeps first occurrences, which is one admissible order.
- Ingestion.MergeIdempotent: the positional equality relies on the model's first-occurrence order, which Spark does not promise. The order-free claim is `Ingestion.MergeIdempotentRows`, proved from `Merge`'s contract alone.
- Ingestion.MergeKnownRows: the positional equality relies on the model's first-occurrence order, which Spark does not promise. The order-free claim is `Ingestion.MergeKnownRowsAnyOrder`, proved from `Merge`'s contract alone.
- Derivation.Derive: states the row count and the row contents. It does not state their positional order, because Spark's `union` gives none.
- Aggregation.TallyV1: neither version removes a match found by two column filters. The source does not do it either, and the model follows the code (see `Aggregation.TwoColumnsCountTwice`).
- Ingestion.Merge: whole-row duplicates are removed, but no uniqueness of match ids is enforced. The source does not enforce it either (see `Ingestion.MergeKeepsSameMatchRows`).

## Findings

| source | as written | input that shows it | evidently intended | confidence | as-written member | corrected member |
|---|---|---|---|---|---|---|
| server.py:24-40 | `get` returns the first entry with the name, but `evict` removes the last one, and then the first is re-appended | `add(("Ahri", 0.5))`, `add(("Ahri", 0.6))`, `get("Ahri")` on a cache of 10 returns 0.5 and leaves `[("Ahri", 0.5), ("Ahri", 0.5)]` | the entry found is the one moved to the back, with nothing lost or duplicated | medium, not executed | RecencyCache.GetOfPair | RecencyCache.GetFixed |
