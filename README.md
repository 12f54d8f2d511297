# Spictank leaderboard: the ingestion and aggregation engine in Dafny

This project models the core of the leaderboard service in `server.js`. That core has four parts:

- **The scoring law** (`calculateScore`): a post's derived score is its raw upvote score times 3.14, rounded up.
- **The relative-time formatter** (`timeAgoFromMs`): it renders an elapsed time as "3 days ago" or "just now".
- **`updateLeaderboard`**: one transaction over a batch of raw upstream records. For each record it validates the record and resolves its post id. It then touches the author row and upserts the post row; the upsert refreshes only the score columns, and only when the score changed. It counts the record as new, updated or a duplicate. When some write changed a row, it rebuilds the per-author leaderboard table from scratch. A failing post write is caught and the loop goes on; a failing rebuild rolls the whole transaction back.
- **The read projections** `getLeaderboard(limit)` and `getStats()`.

The files, one module each:

- `wrappers.dfy`: `Option` and `Result`.
- `scoring.dfy`: `CalculateScore`, the exact ceiling of `314 * score / 100`.
- `timeformat.dfy`: `TimeAgoFromMs`, with the current time as a parameter. The source's loop over the six units becomes the recursive `PickUnit`. `NatToString` is the decimal rendering of the count.
- `records.dfy`: the raw upstream record, with every field optional. It also holds `Accept`, the validation and field resolution, with JavaScript truthiness written out: a string is truthy when non-empty, a number when non-zero, and `score_up` is a number exactly when it is present.
- `tables.dfy`: the rows of the `posts`, `authors` and `leaderboard` tables, and the SQL statements as functions on table contents:
  - `Upsert`: `INSERT ... ON CONFLICT(post_id) DO UPDATE ... WHERE`;
  - `Touch`: the author upsert;
  - `Aggregate`: the `GROUP BY author` rebuild.
- `ingestion.dfy`: the loop of `updateLeaderboard` as a fold. `Step` handles one record, `Advance` adds the counters and `Run` covers a whole batch. The file also holds the lemmas about whole batches.
- `queries.dfy`: `ORDER BY calculated_score DESC LIMIT n`.
- `store.dfy`: the `Store` class. Its fields are the three tables and its methods update them in place:
  - `Ingest` is `updateLeaderboard`: a `while` loop over the batch, a snapshot and restore for the transaction, and fault injection for both error paths;
  - `GetLeaderboard` and `GetStats` are functions of the store's state.
- `scenario.dfy`: two worked ingestions. The first ingests three posts into an empty store. The second re-ingests the same batch with one score changed.

Modelling decisions:

- **Post table.** `posts` is a sequence of rows in insertion (rowid) order, with "one row per post id" as an invariant. The order gives the sums and the maximum of the rebuild a definite meaning, and it gives the leaderboard a definite order.
- **Leaderboard order.** The rebuilt leaderboard holds one entry per author, in the order of each author's first post. SQLite does not promise an order for `GROUP BY`. That order shows wherever entries with equal calculated scores meet an `ORDER BY calculated_score DESC`: in the order of `getLeaderboard`'s tied rows and in which tied entry `getStats` returns as `topUser` (server.js:295-300). The SQL leaves both unspecified.
- **Clock.** `CURRENT_TIMESTAMP` and `Date.now()` become an integer parameter `now`, one value for a whole batch and one for a whole `getLeaderboard` call.
- **Fault injection.** `failing` is the set of post ids whose post write throws; the author touch before that write has already happened. `rebuildFails` says whether the INSERT of the rebuild throws, which happens after its DELETE has run.
- **LIMIT.** A negative `limit` means no limit, as in SQLite.
- **`newPosts`.** The existence check at server.js:240 runs after the upsert has stored the row, so it always finds the row. Every changing write is therefore counted as updated, and `newPosts` is 0 after every batch. The model follows the code (`Ingestion.RunNeverCountsNew`). A first ingestion of three unknown posts might be expected to count three new posts; the code counts `newPosts = 0, updated = 3`, which `Scenario.FirstIngestion` states.
- **Re-ingest.** Ingesting a batch a second time might be expected to count every record as a duplicate. That holds for the records that pass validation and whose write does not throw, and only when the batch does not itself carry two different scores for one post id. `Ingestion.ReingestNeedsSelfConsistency` shows why that proviso is needed.

## Model

| member | source | states |
|---|---|---|
| Scoring.CalculateScore | server.js:122 | the derived score is the least integer r with 3.14 · score ≤ r, i.e. ceil(3.14 · score), exactly |
| Scoring.CalculateScoreMonotone | server.js:122 | a larger raw score never gets a smaller derived score |
| TimeFormat.NatToString | server.js:137 | the rendered count is a non-empty string of decimal digits that starts with 0 only for the count 0 |
| TimeFormat.NatToStringRoundTrip | server.js:137 | reading the rendered count back as a decimal number gives the count |
| TimeFormat.TimeAgoJustNow | server.js:124-140 | the result is "just now" exactly when fewer than one whole second has elapsed |
| TimeFormat.TimeAgoLargestUnit | server.js:124-140 | otherwise it renders the first unit to fit, from year down to second, as "{n} {unit}{s when n > 1} ago" with n the number of whole units |
| TimeFormat.TimeAgoNeverUnknown | server.js:124-140 | the formatter never yields the word "unknown" |
| TimeFormat.PickUnitShape | server.js:135-139 | the unit loop yields "just now" or a phrase that starts with a digit |
| Records.Accept | server.js:215-221 | a record is dropped exactly when its author is falsy, score_up is not a number, created is falsy, or none of id/post_id/postId is truthy; otherwise the post id is the first truthy one of those three, the title defaults to "", and the url is permalink, then url, then the community url |
| Tables.FindPost | server.js:183-185 | the lookup by post id returns an index holding that id, the first one, and None exactly when no row holds it |
| Tables.Upsert | server.js:174-181 | at most one row changes; zero changes exactly when the table is unchanged; the written score is stored afterwards; other post ids keep their rows; a new id appends exactly one row; author, title, created and url are never rewritten; one-row-per-id and the scoring law are preserved |
| Tables.UpsertCases | server.js:174-181 | on a table with one row per post id: an unknown id appends exactly one new row; a known id with another score rewrites only that row's score and calculated score; a known id with the same score changes nothing |
| Tables.Touch | server.js:187-192 | the author row exists afterwards, was last seen now, keeps its first-seen time or gets now if new; no other author row changes |
| Tables.AuthorList | server.js:206-207 | the GROUP BY lists each author of the posts exactly once |
| Tables.MaxCreated | server.js:204 | MAX(created_ms) is absent exactly when the author has no post, otherwise it is one of the author's creation times and no smaller than any of them |
| Tables.AggregateIsAggregateOf | server.js:198-208 | the rebuild has one entry per distinct author of posts and no other, with the author's score sums and latest creation time |
| Tables.SumCalculatedIsDerived | server.js:203 | under the scoring law an author's summed calculated score is the sum of the scoring law over their raw scores |
| Tables.AggregateSize | server.js:198-208 | the rebuild has as many entries as posts has distinct authors |
| Ingestion.SkippedRecordChangesNothing | server.js:215-217 | a record that fails validation changes no table, no counter and no change flag |
| Ingestion.FailedWriteTouchesAuthorOnly | server.js:223-251 | a record whose post write throws has touched its author, leaves posts, counters and the change flag as they were, and the loop goes on |
| Ingestion.AdvanceWritten | server.js:225-248 | a written record touches its author and upserts its post; zero changes counts a duplicate, otherwise updated, and the change flag is set |
| Ingestion.AdvanceNotWritten | server.js:215-251 | a record that is dropped or whose write throws leaves posts, counters and flag alone |
| Ingestion.WrittenRecordCountsOnce | server.js:237-248 | a written record bumps exactly one counter: duplicates on zero changes, otherwise updated, never newPosts |
| Ingestion.RunNeverCountsNew | server.js:237-245 | newPosts is 0 after every batch, because the existence check follows the write |
| Ingestion.RunCountsWritten | server.js:237-248 | updated + duplicates equals the number of records that pass validation and write without throwing |
| Ingestion.RunChangedIffUpdated | server.js:211-245 | hasChanges is set exactly when some record was counted as updated |
| Ingestion.UnchangedRunKeepsPosts | server.js:174-248 | a batch that leaves hasChanges false leaves the posts table exactly as it was |
| Ingestion.RunPreservesValidDb | server.js:174-192 | the batch keeps one row per post id, the scoring law, and an author row for every post's author |
| Ingestion.RunTouchesAuthors | server.js:187-225 | after a batch the author rows are the old ones plus the batch's accepted authors; first-seen times never change; every accepted author, even the author of a duplicate, is last seen now; new authors are first seen now; other rows are untouched |
| Ingestion.UpsertKeepsOtherScore | server.js:174-181 | writing one post leaves every other post id's stored score as it was |
| Ingestion.ReflectsStep | server.js:214-252 | one more written record keeps every written record's score stored, provided the batch agrees with itself on scores |
| Ingestion.RunReflectsBatch | server.js:214-252 | after a self-consistent batch every written record finds its own score stored |
| Ingestion.RunOnReflectingTable | server.js:174-248 | on a table that already stores every written record's score, the batch changes no row, sets no flag and counts every written record as a duplicate |
| Ingestion.ReingestIsDuplicate | server.js:174-248 | ingesting a self-consistent batch a second time, at any later time, changes no post row, leaves hasChanges false and returns (0, written count, 0) |
| Ingestion.ReingestNeedsSelfConsistency | server.js:174-181 | two written records with one post id and different scores make a second ingestion of that batch change the table again |
| Queries.InsertDesc | server.js:278 | inserting into a descending sequence keeps it descending and adds exactly that entry |
| Queries.SortDesc | server.js:278 | ORDER BY calculated_score DESC is a descending permutation of the rows |
| Queries.TopEntries | server.js:274-280 | LIMIT keeps limit rows (all for a negative or large limit), descending, drawn from the table, and no row left out scores above a kept one |
| Queries.TopEntriesMembers | server.js:274-280 | every returned row is a row of the table |
| Queries.TopEntriesCutOff | server.js:278-279 | a row cut off by the LIMIT scores no more than any returned row |
| Queries.TopEntryIsMax | server.js:295-300 | LIMIT 1 gives nothing on an empty table, otherwise a row of the table with the highest calculated score |
| LeaderboardStore.RowViewMeaning | server.js:282-288 | an output row copies the entry's author and both scores, carries the author's live post count, and shows "unknown" exactly when last_active_ms is absent or 0, otherwise the relative time since it |
| LeaderboardStore.ViewsSubMultiset | server.js:282-288 | projecting rows drawn from a table (each at most as often as it occurs there) gives rows drawn in the same way from the table's projection |
| LeaderboardStore.TopViews | server.js:273-289 | getLeaderboard's rows are descending, each the projection of a leaderboard entry, no entry is returned more often than it occurs in the table, and no entry left out scores above a returned row |
| LeaderboardStore.Store.constructor | server.js:32-59 | a new store has three empty tables and satisfies the store invariant |
| LeaderboardStore.Store.TouchAuthor | server.js:187-192 | the authors table becomes Touch of the old one; nothing else changes |
| LeaderboardStore.Store.UpsertPost | server.js:227-235 | a throwing write leaves posts as it was and reports no change count; otherwise posts becomes the upsert and its change count is returned |
| LeaderboardStore.Store.RebuildLeaderboard | server.js:256-262 | the leaderboard is emptied, then either the rebuild fails or the leaderboard becomes the per-author aggregate of posts |
| LeaderboardStore.Store.ProcessRecord | server.js:215-251 | one pass of the loop body changes posts and authors exactly as Step does and returns its outcome |
| LeaderboardStore.Store.ProcessBatch | server.js:210-252 | the loop leaves posts, authors, counters and hasChanges exactly as Run over the batch |
| LeaderboardStore.Store.Ingest | server.js:173-268 | keeps the store invariant; when something changed and the rebuild throws, all three tables return to their state before the call and no counters are returned; otherwise it returns Run's counters; posts and authors are Run's tables; the leaderboard is rebuilt as the aggregate when something changed and is untouched otherwise; newPosts is 0 |
| LeaderboardStore.Store.GetLeaderboard | server.js:273-289 | at most limit rows (all for a negative limit), by calculated score descending, each the projection of a leaderboard entry with a live post count, drawn from the projected leaderboard as a sub-multiset, so no entry is returned more often than it occurs there, and no entry left out scores above a returned row |
| LeaderboardStore.Store.GetStats | server.js:291-302 | totalPosts counts the post rows, totalAuthors the distinct authors of posts; topUser is absent exactly when the leaderboard is empty and is otherwise a leaderboard entry with the highest calculated score |
| LeaderboardStore.ValidStoreIsAggregate | server.js:198-208 | in a valid store the leaderboard is the per-author aggregate of posts, and each calculated sum is the scoring law summed over the author's raw scores |
| LeaderboardStore.CountPostsPositive | server.js:276 | an author with a post has a live post count of at least one |
| LeaderboardStore.AggregateRowsKnown | server.js:198-208 | every rebuilt entry counts at least one post and has a non-zero last-activity time |
| LeaderboardStore.KnownViews | server.js:282-288 | entries with posts and a non-zero last-activity time are never shown as "unknown" |
| LeaderboardStore.LeaderboardRowsKnown | server.js:276-287 | on a valid store every getLeaderboard row counts at least one post and never shows "unknown" |
| LeaderboardStore.StatsAgreeWithTables | server.js:294 | on a valid store totalAuthors equals the number of leaderboard entries and is at most the number of author rows |
| Scenario.AcceptPost | server.js:215-221 | a record with author, post_id, score_up and created is accepted with its id, empty title and the community url |
| Scenario.FirstIngestion | server.js:173-268 | ingesting alice p1 10 @1000, alice p2 5 @2000 and bob p3 1 @1500 into an empty store counts (0 new, 0 duplicates, 3 updated), sets hasChanges, and yields the entries alice 15/48 last active 2000 and bob 1/4 last active 1500 |
| Scenario.Reingestion | server.js:173-268 | the same batch again with p1 at 20 counts (0, 2, 1), sets hasChanges, and yields alice 25/79 and bob 1/4 |

## Left out

- HTTP routes, static serving and JSON responses (server.js:333-422), including the author listing route: they are request plumbing around the modelled functions.
- `fetchPosts` (server.js:145-168): a network call. Its result is the batch handed to `Ingest`.
- Backup, export and the keep-ten file rotation (server.js:68-117, 383-412): filesystem I/O.
- Timers, startup, graceful shutdown and process-level error handlers (server.js:424-468). Concurrency is not modelled either: the transaction runs synchronously, so two ingestions never interleave.
- The database handle, schema creation, WAL mode and indexes (server.js:22-61): the `Store` constructor stands in for a fresh database.
- The `updated_at` and `fetched_at` columns and their defaults: no operation reads them.
- `CURRENT_TIMESTAMP` and `Date.now()`: both become the integer parameter `now`. The first-seen and last-seen columns hold that integer. SQLite reads `CURRENT_TIMESTAMP` once per statement (server.js:189-191), and `timeAgoFromMs` reads `Date.now()` once per row (server.js:125). The model merges all these readings into one per batch or per `getLeaderboard` call. Ingestion.RunTouchesAuthors's "every accepted author is last seen `now`" depends on that merge. Under a moving clock, each author would be last seen at the time of its latest write.
- Scoring.CalculateScore: does not model IEEE-754 rounding of `score * 3.14`, because the factor is taken as the exact rational 314/100.
- Records.Accept: `score_up` is an integer when present. Non-integer numbers, NaN and the infinities pass JavaScript's `typeof` test, but they are not modelled.
- Records.Accept: a batch element that is `null` or `undefined` is not modelled. Reading `post.author` at server.js:215 happens outside the per-record `try`, so such an element throws a TypeError that escapes the transaction, rolls back the whole batch and makes `updateLeaderboard` throw; `Raw` has no value for it.
- Records.Accept: `created` is an integer when present. A non-empty string (truthy, stored as given) or NaN (falsy, so the record is skipped) is not modelled.
- Records.Accept: author, id and url fields are strings when present. Other JavaScript values (numbers, objects), their truthiness, and SQLite's affinity for a numeric id stored as TEXT are not modelled.
- The default url's community is the store's `community` constant, which stands in for the `COMMUNITY` environment variable.
- Ingestion.RunChangedIffUpdated and Ingestion.RunCountsWritten: the existence `SELECT` at server.js:240 cannot throw in the model. In the code `hasChanges = true` runs first (server.js:238), and the catch at server.js:249 would swallow a throw, leaving the post row written and the flag set with no counter moved. Both lemmas hold only because that fault point is absent; with it, `hasChanges` could hold with `updated = 0`, and `updated + duplicates` could fall below the number of written records.
- Number width: scores, timestamps and sums are unbounded integers. JavaScript numbers are doubles, exact only up to 2^53. SQLite INTEGER is 64-bit, and an overflowing `SUM(score)` or `SUM(calculated_score)` (server.js:202-203) raises an error that makes the rebuild throw (server.js:258). The model represents that throw only through the free `rebuildFails` flag, not as a consequence of the values.
- LeaderboardStore.Store.GetLeaderboard: `getLeaderboard(limit = 100)` has a default argument (server.js:273). The model always takes the limit explicitly; a caller omitting it corresponds to passing 100.
- `upsertAuthor` throwing (server.js:225): only the post write and the rebuild can fail in the model. A throw from the author write would be caught like a post-write throw, with the author row left as it was.
- Logging through the logger: the model has no output.
- LeaderboardStore.Store.Ingest: when the rebuild throws, the method returns `Failure(RebuildFailed)` in place of rethrowing the exception.
- LeaderboardStore.Store.GetLeaderboard: the rows are a descending permutation with a fixed order among equal scores. SQL leaves that tie order open, so the contract states only the descending order and the cut-off, not which of several tied entries is returned.
- `public/js/leaderboard.js` and `ecosystem.config.js`: browser rendering and deployment configuration.
