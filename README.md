# EchoVault memory core, modelled in Dafny

EchoVault gives coding agents a persistent memory. An agent (or a person at the
`memory` command line) saves a memory: a title, a `what`, optional `why`, `impact`,
tags, category, related files and long-form details. Later the agent searches the
memories again, or injects pointers to recent ones into its context. Memories live
in a SQLite store with three parts:

- an FTS5 index for keyword search;
- an optional sqlite-vec table of embeddings for semantic search;
- a `meta` table that records the embedding width.

On top of the store sits a service, `MemoryService`. It redacts text, refuses to
create near-duplicates (it updates the matching memory instead), routes searches and
rebuilds the vector index. `setup` and `uninstall` edit the agents' own configuration
files.

This project models that core and proves what it promises. It has these modules:

| file | module | models |
|---|---|---|
| `base.dfy` | `Wrappers`, `Errors` | `Option`/`Result`, Python truthiness, and the exceptions the core raises or catches |
| `text.dfy` | `Text` | The string functions used: `lower`, `strip`, `split`, `join`, `endswith`, `replace`, string order, and decimal `str`/`int` with their round trip |
| `seqs.dfy` | `Seqs` | List slicing with Python's negative limits, SQL `LIMIT`, filtering, and a stable sort with its sortedness/permutation lemmas |
| `models.dfy` | `Models` | `Memory`, `RawMemoryInput`, `Memory.from_raw` and the section-anchor slug |
| `store.dfy` | `Store` | `MemoryDB` as a class over its tables, with the pure query functions the methods are proved against |
| `search.dfy` | `Search` | `merge_results`, `tiered_search`, `hybrid_search` |
| `service.dfy` | `Service` | `MemoryService`: tag merge, duplicate check, save paths, search routing, context and top-up, reindex, caches |
| `setup.dfy` | `Setup` | Legacy-hook removal, the `mcpServers.echovault` insert and removal, and the Codex AGENTS.md append |
| `cli.dfy` | `Cli` | Comma-list options, API-key redaction, config-directory resolution, the `sessions` listing and the `context` pointer lines |

The store is a class. Its fields are the tables:

- `memories`: a sequence of rows in rowid order, each with its `updated_count`;
- `details`: the `memory_details` rows;
- `meta`: a map;
- `vecTable`: the vec table's width, or None while the table does not exist;
- `vectors`: the vec table's rows;
- `fts`: the FTS5 index, from rowid to the indexed columns;
- `nextRowid`: the AUTOINCREMENT counter.

`Valid()` ties the tables together:

- rowids increase, and ids are unique;
- every detail row belongs to a live record;
- every live record is indexed with its current columns;
- every vector has the table's width.

Every method that changes the store keeps `Valid()` and states its whole new state.
The store's two engine computations are fields of type `Engine`, opaque functions the
model never looks into:

- FTS5 parsing, matching and BM25 `rank`;
- the vec0 distance.

Embedding providers are values of type `Provider`, whose `embed` and `search` either
return a vector or fail. The service is a class, `MemoryService`. Its three lazily
filled caches are fields. Its `Valid()` constrains two of them: a filled provider cache
and a filled ignore-pattern cache hold what filling them again would give. The third,
`vectorsAvailable`, is not tied to the store: as in the source, it keeps whatever the
last check or embedding step recorded, and the methods state exactly when it changes.

The vector side of `save` is one function, `EmbedStep`, over the stored width, the vec
table, its rows and the availability cache. Both save paths are proved to leave that
state as `EmbedStep` of the old one, and lemmas about `EmbedStep` say what that means.

## Model

| member | source | states |
|---|---|---|
| Models.Substitute | src/memory/models.py:58 | The regex substitution yields only `a`–`z`, `0`–`9` and `-`, never `--`, and keeps a leading slug character |
| Models.AnchorAlphabet | src/memory/models.py:58 | The section anchor holds only `a`–`z`, `0`–`9` and `-` |
| Models.AnchorShape | src/memory/models.py:58 | The anchor neither starts nor ends with `-` and never contains `--` |
| Models.AnchorKeepsAlphanumerics | src/memory/models.py:58 | The ASCII letters and digits of the lowercased title appear in the anchor, in order, and no others |
| Models.AnchorWords | src/memory/models.py:58 | The maximal runs of `a`–`z`/`0`–`9` of a string, in order; each is a non-empty run of slug characters |
| Models.SubstituteIsJoinedWords | src/memory/models.py:58 | The substitution is those runs joined by `-`, with one `-` before them when the string starts with other characters and one after when it ends with them: each maximal run of other characters becomes exactly one `-` |
| Models.SectionAnchorWords | src/memory/models.py:58 | The anchor is the maximal `a`–`z`/`0`–`9` runs of the lowercased title joined by single dashes |
| Models.AnchorIdempotent | src/memory/models.py:58 | The anchor of an anchor is the anchor itself |
| Models.FromRaw | src/memory/models.py:55-74 | `from_raw` copies every raw field, takes project and file path from its arguments, sets the anchor from the title, and sets `created_at == updated_at` |
| Search.MaxScore | src/memory/search.py:30 | The maximum is at least every score and equal to one of them |
| Search.Normalized | src/memory/search.py:87-90 | Normalisation keeps length, order and every field except the score |
| Search.NormalizedBounds | src/memory/search.py:29-38 | With non-negative scores, every normalised score lies in [0, 1]; the top score becomes 1 when some score is positive; an all-zero list is unchanged |
| Search.NormalizedIdempotent | src/memory/search.py:106-108 | Normalising a normalised list changes nothing, so the re-normalisation inside the merge is a no-op |
| Search.NormalizedSorted | src/memory/search.py:87-94 | Normalising a best-first list keeps it best first |
| Search.NormalizedIds | src/memory/search.py:29-38 | Normalisation keeps the set of ids and their uniqueness |
| Search.AccFtsShape | src/memory/search.py:42-45 | After the keyword loop the score dict is well formed and keyed by exactly the keyword ids |
| Search.AccFtsEntry | src/memory/search.py:42-45 | After the keyword loop each id holds its last keyword hit, with score `fts_weight · score` |
| Search.AccVecShape | src/memory/search.py:46-52 | The vector loop keeps the dict well formed and adds exactly the vector ids |
| Search.AccVecEntry | src/memory/search.py:46-52 | After the vector loop an id's entry has gained `vec_weight ·` each of its vector scores, or was created from its first vector hit |
| Search.MergedShape | src/memory/search.py:41-52 | The merged dict is keyed by the union of both lists' ids |
| Search.MergedEntry | src/memory/search.py:42-52 | Each merged entry scores `fw · nf + vw · nv`, where a missing side counts 0; an id with a keyword hit keeps that record, and a vector-only id keeps its vector record |
| Search.ListingOrder | src/memory/search.py:54-55 | Sorting by score and slicing gives a best-first list of at most `limit` entries |
| Search.ListingMembers | src/memory/search.py:54-55 | Sorting and slicing adds no entry and repeats no id; with `limit` large enough it drops no id |
| Search.ListedIds | src/memory/search.py:54 | `scores.values()` lists each key once, each under its own id |
| Search.MergeSpecShape | src/memory/search.py:41-55 | The merge output is best first, at most `limit` long and has unique ids, each holding its merged entry; with `limit ≥ |fts| + |vec|` its ids are the union of the inputs' ids |
| Search.MergeEmpty | src/memory/search.py:54-55 | Two empty inputs give an empty output |
| Search.MergeScoreBounds | src/memory/search.py:41-52 | With non-negative weights and scores, every merged score lies in [0, fw + vw] |
| Search.Normalize | src/memory/search.py:29-38 | The max-then-rescale loops compute the normalised list |
| Search.MergeResults | src/memory/search.py:9-55 | The normalise, accumulate, sort and slice loops compute the merge specification |
| Search.TieredSearch | src/memory/search.py:58-111 | The method returns the tiered-search outcome |
| Search.HybridSearch | src/memory/search.py:114-151 | The method returns the hybrid-search outcome |
| Search.TieredFallback | src/memory/search.py:92-111 | The second tier returns the first `limit` keyword hits. It merges in the vector hits only when keyword hits are fewer than `min_fts_results`, a provider exists and the vector stage succeeds |
| Search.RunVectorStage | src/memory/search.py:101-105 | The method embeds the query, then returns the vector search for `2·limit` hits, or the first error |
| Search.TieredPickShape | src/memory/search.py:92-111 | Whichever branch the second tier takes, its hits are best first and at most `limit` long |
| Search.MergeSpecBestFirst | src/memory/search.py:54-55 | The merge output is best first and at most `limit` long |
| Search.TieredEnoughKeywordHits | src/memory/search.py:84-94 | With at least `min_fts_results` keyword hits for `2·limit`, the result is the first `limit` normalised hits, whatever the provider |
| Search.TieredDegrades | src/memory/search.py:96-111 | When embedding the query or the vector search fails, the result is the keyword-only result the search gives without a provider |
| Search.KeywordOnlyShape | src/memory/search.py:93-98 | The keyword-only answer is best first and at most `limit` long |
| Search.TieredShape | src/memory/search.py:84-111 | Tiered search fails exactly when keyword search fails, and then with an FTS syntax error; otherwise it returns at most `limit` hits, best first |
| Search.TieredAgreesWithHybrid | src/memory/search.py:100-108 | Once tiered search reaches the vectors, it returns exactly what hybrid search returns |
| Search.NoProviderAgrees | src/memory/search.py:96-98 | Without a provider, tiered and hybrid search agree |
| Store.MetaValue | src/memory/db.py:593-610 | `get_meta` gives Some exactly for a set key, with its value |
| Store.MetaLastWriteWins | src/memory/db.py:579-610 | After `set_meta`, `get_meta` returns the value set last; other keys are unaffected |
| Store.StoredDim | src/memory/db.py:150-157 | An unset dimension reads as None and a stored plain decimal numeral reads as its value; any other stored value is an error here |
| Store.StoredDimRoundTrip | src/memory/db.py:150-165 | `get_embedding_dim` after `set_embedding_dim(d)` is `d` |
| Store.EnsureVec | src/memory/db.py:167-181 | The three-way dimension state machine: record and create when unset, no-op when equal, DimensionMismatchError with nothing changed when different |
| Store.EnsureVecIdempotent | src/memory/db.py:167-181 | A successful `ensure_vec_table(d)` repeated succeeds and changes nothing |
| Store.EnsureVecFresh | src/memory/db.py:167-181 | On a fresh store, `ensure_vec_table(d)` stores `d` and creates a table of width `d` |
| Store.LookupRecord | src/memory/db.py:244-264 | `get_memory` returns a row with exactly this id, with `has_details` true iff a detail exists; None means no row has the id |
| Store.LookupDetail | src/memory/db.py:266-285 | `get_details` returns a detail whose id starts with the prefix; None means none does |
| Store.InsertThenLookup | src/memory/db.py:183-222 | A record just inserted is returned by `get_memory` unchanged, with `updated_count` 0 and `has_details` iff details were truthy |
| Store.Patched | src/memory/db.py:319-338 | `updated_count` rises by 1 and `updated_at` is reset; only the given `what`/`why`/`impact`/`tags` are replaced, and nothing else changes |
| Store.AppendDetail | src/memory/db.py:340-348 | The append either rewrites one detail in place or adds one detail row |
| Store.AppendDetailEffect | src/memory/db.py:340-348 | After the append the id's body is `old + "\n\n" + text`, or `text` when none existed; other details are untouched and ids stay unique |
| Store.RemoveDetails | src/memory/db.py:375 | Exactly the details of other ids remain |
| Store.DeleteHides | src/memory/db.py:364-378 | After deletion neither `get_memory` nor `get_details` nor any row-based query returns the record |
| Store.FtsQueryBlank | src/memory/db.py:399-400 | A blank query builds the empty MATCH expression |
| Store.FtsQuerySingleTerm | src/memory/db.py:399-400 | One word becomes the single prefix term `"word"*` |
| Store.FtsQueryTwoTerms | src/memory/db.py:399-400 | Two words `a b` become `"a"* OR "b"*` |
| Store.FtsCandidates | src/memory/db.py:420-430 | Exactly the live rows that match and pass the filters become hits, scored `-rank`, with `has_details` from the details table |
| Store.BestFirst | src/memory/db.py:428-429 | `ORDER BY rank LIMIT n` keeps only hits from the input, best first, `min(n, count)` of them (all of them for a negative n) |
| Store.FtsSearchIn | src/memory/db.py:380-432 | `fts_search` fails exactly when FTS5 rejects the expression; otherwise it returns matching, filter-passing live records, best first, at most `limit` |
| Store.Nearest | src/memory/db.py:458-466 | The KNN step returns at most `k` stored vectors, nearest first |
| Store.JoinVector | src/memory/db.py:459-474 | A KNN row joins at most one hit: the live record with the vector's rowid, scored `1 − distance` |
| Store.JoinVectors | src/memory/db.py:468-474 | Every joined hit is a live record with the score of its own vector |
| Store.JoinVectorsSorted | src/memory/db.py:465-474 | Ascending distance gives descending score |
| Store.PostFilter | src/memory/db.py:476-480 | The post-filter keeps exactly the hits that pass the project and source filters |
| Store.PostFilterSorted | src/memory/db.py:476-480 | Post-filtering keeps the best-first order |
| Store.VectorSearchIn | src/memory/db.py:434-482 | `[]` without a vec table; a width error for a wrong-length query; otherwise at most `limit` hits, best first, filter-passing, each scored `1 − distance` of its vector |
| Store.Pointers | src/memory/db.py:519-527 | One pointer per row, carrying the listed columns and `has_details` |
| Store.ListRecentIn | src/memory/db.py:484-527 | `list_recent` returns filter-passing records newest first, `min(limit, count)` of them |
| Store.CountIn | src/memory/db.py:543-577 | The count is at most the number of records; its exact value is given by `Store.CountIsUnlimitedListing` |
| Store.CountIsUnlimitedListing | src/memory/db.py:543-577 | The count equals the length of an unlimited listing with the same filters |
| Store.CountUnfiltered | src/memory/db.py:543-577 | Without filters every record is counted |
| Store.InsertKeepsValid | src/memory/db.py:183-222 | Inserting a fresh id keeps the store invariant |
| Store.UpdateKeepsValid | src/memory/db.py:309-351 | Patching a row and appending to its details keeps the store invariant |
| Store.RemoveKeepsValid | src/memory/db.py:364-378 | Deleting a row and its details keeps the store invariant |
| Store.MemoryDB.constructor | src/memory/db.py:21-37 | A new database has empty tables and no vec table |
| Store.MemoryDB.GetMeta | src/memory/db.py:593-610 | Reads the meta map |
| Store.MemoryDB.SetMeta | src/memory/db.py:579-591 | Writes one key of the meta map and nothing else |
| Store.MemoryDB.GetEmbeddingDim | src/memory/db.py:150-157 | Reads the stored dimension |
| Store.MemoryDB.SetEmbeddingDim | src/memory/db.py:159-165 | Stores the dimension so that it reads back as `dim` |
| Store.MemoryDB.HasVecTable | src/memory/db.py:135-142 | True exactly when the vec table exists |
| Store.MemoryDB.CreateVecTable | src/memory/db.py:120-133 | `CREATE … IF NOT EXISTS`: an existing table is kept |
| Store.MemoryDB.DropVecTable | src/memory/db.py:144-148 | Drops the table and all its vectors, and nothing else |
| Store.MemoryDB.Reopen | src/memory/db.py:113-116 | Opening recreates the vec table from a stored dimension |
| Store.MemoryDB.EnsureVecTable | src/memory/db.py:167-181 | The method follows the dimension state machine and changes no other table |
| Store.MemoryDB.InsertMemory | src/memory/db.py:183-222 | Appends the row under the next rowid with `updated_count` 0, indexes it, and adds details iff truthy; a duplicate id is an error that changes nothing |
| Store.MemoryDB.InsertVector | src/memory/db.py:224-242 | No vec table: nothing happens. Wrong width or an occupied rowid: an error that changes nothing. Otherwise the vector is appended |
| Store.MemoryDB.GetMemory | src/memory/db.py:244-264 | The record lookup on the current tables |
| Store.MemoryDB.GetDetails | src/memory/db.py:266-285 | The detail lookup on the current tables |
| Store.MemoryDB.ResolvePrefix | src/memory/db.py:311-315 | The first row, in rowid order, whose id starts with the prefix, or None when no id does |
| Store.MemoryDB.UpdateMemory | src/memory/db.py:287-351 | An unmatched prefix returns false and changes nothing; otherwise the resolved row is patched and re-indexed, and truthy details are appended |
| Store.MemoryDB.DeleteMemory | src/memory/db.py:353-378 | An unmatched prefix returns false; otherwise the row and its details are removed, and the record can no longer be found |
| Store.MemoryDB.FtsSearch | src/memory/db.py:380-432 | Keyword search on the current tables |
| Store.MemoryDB.VectorSearch | src/memory/db.py:434-482 | The join loop computes the vector-search specification |
| Store.MemoryDB.ListRecent | src/memory/db.py:484-527 | The listing on the current tables |
| Store.MemoryDB.CountMemories | src/memory/db.py:543-577 | The count on the current tables |
| Store.MemoryDB.ListAllForReindex | src/memory/db.py:529-541 | Every record, in ascending rowid order; as many as the unfiltered count |
| Service.NewTags | src/memory/core.py:118-126 | Every appended tag comes from `extra`, and its lowercase form is not among `existing`'s |
| Service.MergedTagsPrefix | src/memory/core.py:118-126 | `existing` is kept as a prefix and exactly the new tags follow it |
| Service.NewTagsLowerSet | src/memory/core.py:118-126 | The new tags bring in exactly the lowercased forms of `extra` that `existing` lacks |
| Service.MergedTagsUnion | src/memory/core.py:118-126 | After merging, the lowercased tags are exactly those of both lists: every tag of either list is present in some letter case, and nothing else |
| Service.MergedTagsFresh | src/memory/core.py:118-126 | No appended tag case-insensitively repeats an earlier tag |
| Service.MergedTagsNoop | src/memory/core.py:121-123 | Tags already present case-insensitively add nothing |
| Service.MergedTagsIdempotent | src/memory/core.py:118-126 | Merging the same tags twice changes nothing more |
| Service.MergeTags | src/memory/core.py:118-126 | The list-and-set loop computes the merged tags |
| Service.DedupTarget | src/memory/core.py:175-182 | A failed or empty dedup probe leads to the create path |
| Service.DedupTargetIs | src/memory/core.py:175-196 | There is a target exactly when the probe succeeds with a non-empty result whose normalised top score reaches 0.7 and whose title matches after `strip().lower()`. The target is the best project hit. That memory is in the store and passes the project filter, its normalised score reaches 0.7, and its title matches after `strip().lower()` |
| Service.TopScoreOwnPool | src/memory/core.py:182-193 | When the candidates are their own denominator, a positive top candidate normalises to 1 |
| Service.TopScoreAgainstBroad | src/memory/core.py:185-193 | A lone candidate that tops the unfiltered re-query normalises to 1 |
| Service.UpdateNote | src/memory/core.py:206-208 | A detail note exists exactly when the details are truthy |
| Service.Redacted | src/memory/core.py:166-173 | `what` is always redacted, `why`/`impact`/`details` only when truthy, and every other field is untouched |
| Service.SemanticMode | src/memory/core.py:366-371 | The mode is one of auto/always/never; a boolean maps to always or never, a valid name is kept, and anything else becomes auto |
| Service.SemanticModeDefault | src/memory/core.py:366-367 | Without an argument the configured mode is normalised the same way |
| Service.ShouldUseSemantic | src/memory/core.py:334-342 | never gives false and always gives true. In auto mode an Ollama provider is used only when warm; any other provider is used |
| Service.TopUpShape | src/memory/core.py:386-396 | Hits come first, the total never exceeds `limit`, and only recent records not among the hits are appended. It stops short of `limit` only after taking them all |
| Service.TopUpDistinct | src/memory/core.py:390-396 | Top-up repeats no id |
| Service.TopUpSeen | src/memory/core.py:390-393 | Skipping an id that no recent record carries changes nothing |
| Service.TopUpLoop | src/memory/core.py:386-396 | The loop with `continue` and `break` computes the top-up |
| Service.Progress | src/memory/core.py:462-463 | Progress is reported as `(1,total)…(n,total)` |
| Service.Reembedded | src/memory/core.py:444-463 | A rebuild that succeeds holds each record's embedding of its text under its rowid, in rowid order, each of the probed width |
| Service.ReembeddedAborts | src/memory/core.py:459-460 | A failure on any record aborts the whole rebuild |
| Service.RoutedSearchShape | src/memory/core.py:289-324 | Search fails only on a keyword syntax error, never with DimensionMismatchError; otherwise it returns at most `limit` hits, best first |
| Service.ReembedAll | src/memory/core.py:443-463 | The loop re-embeds every record in rowid order and reports progress after each; it succeeds iff the rebuild does, and then holds exactly the rebuilt vectors; on a failure at record `n + 1`, `n` pairs were reported and the table holds exactly the rebuilt vectors of the first `n` records |
| Service.MemoryService.constructor | src/memory/core.py:56-59 | All three caches start empty |
| Service.MemoryService.GetEmbeddingProvider | src/memory/core.py:61-70 | Returns the configured provider and caches it |
| Service.MemoryService.GetIgnorePatterns | src/memory/core.py:72-81 | Returns and caches the ignore patterns |
| Service.MemoryService.GetVectorsAvailable | src/memory/core.py:83-92 | The first call asks the store and caches the answer; later calls return the cache |
| Service.MemoryService.EnsureVectors | src/memory/core.py:128-144 | True caches true and false caches false; another error leaves the cache alone |
| Service.EmbedStepStores | src/memory/core.py:128-144 | When the provider embeds the text and no other width is stored, the embedding is appended under the rowid, the width is recorded, the table exists at that width, and vectors are marked available |
| Service.EmbedStepAddsAtMostOne | src/memory/core.py:246-264 | The embedding step adds at most one vector, the provider's embedding of the text under the given rowid, and removes none |
| Service.EmbedStepFailure | src/memory/core.py:229-231 | A provider that cannot be built or fails to embed changes nothing |
| Service.EmbedStepMismatch | src/memory/core.py:139-144 | With another width stored, nothing is stored and vectors are marked unavailable |
| Service.MemoryService.EmbedAndStore | src/memory/core.py:246-264 | Every failure is swallowed; the vector state becomes `EmbedStep` of the old one; records, details and the index are unchanged; the provider cache holds the configured provider |
| Service.MemoryService.Save | src/memory/core.py:146-266 | Update path: the existing id, `updated`, merged tags, `updated_count + 1`, the index entry refreshed, the vector state `EmbedStep` of the merged text under the existing rowid. Create path: the new id, `created`, the record stored and indexed under the next rowid whatever embedding does, the vector state `EmbedStep` of its text under that rowid; on failure nothing changes |
| Service.MemoryService.FindDedupTarget | src/memory/core.py:175-196 | The probe returns the dedup target the specification defines |
| Service.MemoryService.UpdateExisting | src/memory/core.py:197-233 | The update path keeps the store valid and leaves the redaction patterns alone. It reports `updated` with the existing id; the store holds the merged memory and indexes it; the rowid counter is unchanged; the vector state is `EmbedStep` of the merged text under the existing rowid |
| Service.MemoryService.CreateNew | src/memory/core.py:235-266 | The create path stores and indexes the new memory under the next rowid, whatever embedding does, and reports `created`; the vector state is `EmbedStep` of its text under that rowid. On an insert failure nothing changes. The redaction patterns are unchanged |
| Service.MemoryService.Search | src/memory/core.py:289-324 | Returns the routed search. Without vectors both caches are unchanged; with them the availability cache is filled and the provider cache holds the provider when vectors are available |
| Service.MemoryService.GetContext | src/memory/core.py:364-400 | The total is the unlimited count. Without a query: the recent listing, caches unchanged. With one: the search hits topped up from the recent listing, caches as `search` leaves them |
| Service.MemoryService.SearchItems | src/memory/core.py:379-396 | The search hits, topped up from the recent listing when asked and short; fails exactly when the search does; caches as `search` leaves them |
| Service.ReembedOne | src/memory/core.py:447-460 | One loop step: on success the table holds the rebuilt vectors of one more record; on failure (embedding or insert) nothing changes |
| Service.MemoryService.Reindex | src/memory/core.py:424-471 | Progress `(1,total)…`; success iff probe and rebuild succeed; then `count == total`, the stored width is the probe's length, and the cache is true. When the provider or the probe fails the vec table, its rows and the stored width are unchanged. When they succeed the table exists at the probed width and that width is recorded; a rebuild failing after `n` progress pairs leaves exactly the first `n` records' vectors. On any failure the availability cache is unchanged |
| Service.RebuildVectors | src/memory/core.py:439-463 | The table is dropped, the width recorded and the table recreated at that width; records, details and index are unchanged; the rebuild succeeds iff every record embeds at that width, and then holds exactly the rebuilt vectors; a failure after `n` progress pairs leaves exactly the first `n` records' vectors |
| Setup.LosesEntryIff | src/memory/setup.py:48 | An event loses an entry exactly when filtering shortens its list |
| Setup.PrunedNamesIff | src/memory/setup.py:39-53 | The returned names are exactly the events from which something was removed |
| Setup.PrunedKeepsOnly | src/memory/setup.py:41-53 | Every remaining group passes the test, and only an originally empty event stays empty |
| Setup.PrunedOrigin | src/memory/setup.py:39-51 | Each remaining event is an input event with its list filtered, in input order |
| Setup.PrunedSources | src/memory/setup.py:39-51 | The remaining events come from strictly increasing input positions, each with its list filtered: the survivors keep their key order |
| Setup.PrunedComplete | src/memory/setup.py:41-51 | Every event with a surviving group survives, with exactly those groups |
| Setup.PrunedIdempotent | src/memory/setup.py:33-58 | A second pass removes nothing and changes nothing |
| Setup.PruneEvents | src/memory/setup.py:39-53 | The loop over the keys computes the pruned dict and the removed names |
| Setup.RemoveOldHooksIdempotent | src/memory/setup.py:33-58 | A second `_remove_old_hooks` returns `[]` and leaves the settings unchanged |
| Setup.InstalledShape | src/memory/setup.py:231-234 | The entry is added only when absent; an existing entry and every other server are untouched |
| Setup.UninstallUndoesInstall | src/memory/setup.py:381-386 | Uninstalling after a setup that added the entry restores the servers |
| Setup.UninstalledShape | src/memory/setup.py:381-386 | Uninstall removes the entry, touches no other server, and never leaves an empty `mcpServers` |
| Setup.SetupClaudeTwice | src/memory/setup.py:215-240 | A second `setup_claude_code` reports "Already installed" and changes nothing |
| Setup.HookNotes | src/memory/setup.py:259 | One note per removed Cursor event |
| Setup.ClaudeSettings.RemoveOldHooks | src/memory/setup.py:33-58 | Prunes the hooks and returns the removed events; the servers are untouched |
| Setup.ClaudeSettings.SetupClaudeCode | src/memory/setup.py:215-240 | Old hooks pruned, the entry added when missing, and the "Installed: …" or "Already installed" message |
| Setup.ClaudeSettings.UninstallClaudeCode | src/memory/setup.py:373-399 | Removes the entry and the old hooks; the settings change only when something was removed, with the matching message |
| Setup.CursorSettings.SetupCursor | src/memory/setup.py:243-279 | Prunes `memory context` hooks from an existing `hooks.json`, adds the entry when missing, and reports both |
| Setup.CursorSettings.UninstallCursor | src/memory/setup.py:402-438 | Removes the entry and the old hooks and reports what was removed |
| Setup.SetupCodexShape | src/memory/setup.py:356-361 | Text already containing `## EchoVault` is not rewritten. Otherwise the new text is the old text less its trailing newlines, one newline, then the section |
| Setup.SetupCodexIdempotent | src/memory/setup.py:356-361 | Running `setup_codex` on its own output writes nothing |
| Cli.ParseCommaListClean | src/memory/cli.py:122-123 | Every parsed item is non-empty, has no whitespace at either end, and contains no comma |
| Cli.StripClean | src/memory/cli.py:122-123 | A text with no whitespace at either end is its own `strip()` |
| Cli.ParseJoinRoundTrip | src/memory/cli.py:122-123 | Parsing a comma-join of clean items gives back the items in order; the empty string gives `[]` |
| Cli.RedactedConfigShape | src/memory/cli.py:19-24 | Only a truthy `api_key` inside a dict-valued `embedding`/`enrichment` section becomes `<redacted>`; all other data is unchanged |
| Cli.RedactedConfigIdempotent | src/memory/cli.py:19-24 | Redacting twice equals redacting once |
| Cli.RedactApiKeys | src/memory/cli.py:19-24 | The loop over the two sections computes the redacted configuration |
| Cli.ResolveConfigDir | src/memory/cli.py:383-395 | A truthy `config_dir` wins. Otherwise the dot directory joins the working directory for `--project`, or home |
| Cli.ResolveConfigDirUnder | src/memory/cli.py:393-395 | A relative dot directory ends up inside the chosen base directory |
| Cli.DirSessions | src/memory/cli.py:367-369 | One directory contributes exactly its `-session.md` files |
| Cli.CollectSessionsMembers | src/memory/cli.py:359-369 | A pair is listed iff it names a non-hidden directory passing the project filter and one of its `-session.md` files |
| Cli.SessionFilesMembers | src/memory/cli.py:359-369 | The same over the sorted vault listing, and nothing when the vault is missing |
| Cli.DirSessionsOrder | src/memory/cli.py:367-369 | A reverse-sorted file list gives session files in reverse name order |
| Cli.ListedDirOrder | src/memory/cli.py:367-369 | Within a project, session files come in reverse name order |
| Cli.ListSessions | src/memory/cli.py:357-369 | The outer loop skips hidden entries, non-directories and other projects, and computes the session-file list |
| Cli.ScanSessionFiles | src/memory/cli.py:367-369 | The inner loop collects exactly one directory's `-session.md` files, in reverse-sorted order |
| Cli.SessionDateRoundTrip | src/memory/cli.py:379 | The shown date is the date the file was named after (`{today}-session.md`, core.py:237), for any date text without an `s` |
| Cli.SessionLines | src/memory/cli.py:373-380 | No files: "No sessions found." Otherwise a header and one `date \| project` line per file, up to `limit` |
| Cli.DateLines | src/memory/cli.py:378-380 | One `  date \| project` line per listed file |
| Cli.PointerLineParts | src/memory/cli.py:313-316 | A pointer line shows ` [cat]` only for a non-empty category, and ends with ` [t1,t2]` only when there are tags |
| Cli.PointerLineTail | src/memory/cli.py:313-316 | A pointer line with tags ends with the comma-joined tags followed by `]` |
| Cli.PointerLineTags | src/memory/cli.py:313-316 | The bracketed tags of a pointer line parse back, by the `--tags` parser, to the tag list |

## Left out

- SQLite itself is not modelled: SQL text, the FTS5 tokenizer and BM25 rank, and the sqlite-vec distance. Matching, rank and distance are opaque functions of the `Engine` datatype. `struct.pack` of floats is left out too.
- Floating point: scores, weights and the 0.7 threshold are `real`, so rounding is not modelled.
- The embedding clients (Ollama, OpenAI, llama-nomic) make HTTP calls. A provider is a value whose calls return a vector or `ProviderFailed`. `_ollama_warm` is an HTTP probe, so it is a boolean parameter of `ShouldUseSemantic`.
- `config.py`'s YAML loading is not modelled. The defaults of `config.py:8-25` are `DefaultConfig`.
- Calls into other modules become parameters. Redaction (`memory.redaction`) is a function. The `.memoryignore` patterns are a value. Markdown writing (`memory.markdown`) is not modelled, because it does not affect the store.
- The clock, `date.today()` and `uuid4()` are parameters; so is `datetime` display formatting in `context`.
- The filesystem is reduced to values. `os.makedirs`, directory listing, file reads and writes, and `shutil` become values, or booleans such as "the skill file existed and was removed". `_install_skill`, `_uninstall_skill` and `_get_skill_md_path` are those booleans.
- `uninstall_codex` (setup.py:441-471) is not modelled, because it removes the section with a regular expression.
- The Codex section text is a parameter: only its leading newline and its `## EchoVault` heading matter. So is the fixed note appended to the setup message.
- JSON and YAML serialisation is not modelled. Tags are a list, not a JSON string, so `reindex`'s fallback for undecodable tags never arises.
- Python dicts that the source mutates in place become values: the settings dicts, the FTS result dicts normalised by `merge_results` and `tiered_search`, and the `_redact_api_keys` argument. The model returns the new value, so it does not capture aliasing to the caller's dict.
- `Text.Lower` and `Text.IsSpace` cover ASCII letters and the ASCII/C0 whitespace that `str.lower`/`str.split` recognise. Unicode case mapping and Unicode spaces are left out.
- `Cli.PathJoin` is `os.path.join` for two parts, without normalisation.
- The Click decorators, `click.echo`, the stderr warnings of `save`, and the `reindex` command's progress printing (cli.py:323-347) are output only. `Reindex` returns the progress pairs instead of calling a callback, so it behaves as if a callback is always given.
- `get_details` and `delete` on the service (core.py:402-422) only delegate to the store, so `MemoryDB.GetDetails` and `MemoryDB.DeleteMemory` model them.
- Store.StoredDim: `int()` also accepts signs, surrounding whitespace and underscores. Only plain decimal numerals are modelled, because `set_embedding_dim` never writes anything else.
- The `LIKE prefix%` lookups are a plain prefix test. SQLite's ASCII case-insensitivity and its `%`/`_` wildcards inside the prefix are engine behaviour.
- Store.BestFirst: rows with equal rank stay in rowid order here. SQLite leaves that order unspecified, so the model fixes one order. The same goes for `Store.ListRecentIn` with equal `created_at` and for `Store.Nearest` with equal distance.
- Store.MemoryDB.InsertVector: vec0 has no `INSERT OR REPLACE`, so an occupied rowid is an error here, the primary-key conflict. On the update path of `save` this error is swallowed, so re-embedding an existing memory never replaces its vector.
- Search.MergeScoreBounds: this requires unique ids in the vector list, which a vec0 KNN result has. With repeated ids the source would sum their scores past `vec_weight`.
- The tests in `tests/test_setup.py` check hook installation that `setup_claude_code` and `setup_cursor` no longer do. The model follows the code.
- `tiered_search` and `hybrid_search` embed the query with `provider.search`, and the model follows that. `tests/test_search.py:220` expects `embed`.
- `cli.py:138` calls `save` with an `enrich` argument that `MemoryService.save` (core.py:146-148) does not accept. The command-line `save` is not modelled beyond its comma parsing, and `Service.MemoryService.Save` has the signature from core.py.
