# Task cache coherence — a Dafny model

This project models the task API's read-through cache with write-then-invalidate:
- `app/core/cache.py`: `cache_get`, `cache_set` and `cache_delete_pattern` over a Redis keyspace with per-key expiry;
- `app/routers/tasks.py`: the key builders `_task_key` and `_list_key`, and the five task handlers.

The task table is the source of truth. The read handlers `get_task` and `list_tasks` look in the cache first. On a miss they query the table, scoped to the caller, and cache the answer for 60 seconds. The write handlers `create_task`, `update_task` and `delete_task` commit to the table first. Then they delete the affected keys:
- `task:{user}:{id}` (update and delete only);
- every key matching `tasks:{user}:*` (all three writes).

The central result is **cache coherence**. Every live entry under a task key or a listing key equals what the table would answer now. Every handler, and the passage of time, preserves it (`Tasks.Invariant`). Consequences:
- a cache hit always returns what a fresh query would return;
- after a delete, every user's read of that id answers NotFound.

Under that invariant, the model proves:
- injectivity of both key builders;
- owner isolation of the listing pattern: `tasks:1:*` never hits `tasks:12:…` or any `task:` key;
- what `list_tasks` returns: the owner's rows, filtered, newest first, paginated;
- what `update_task` changes: the sent fields, and nothing else;
- the cache laws of the three helpers.

Files, one module each:

| file | module | models |
|---|---|---|
| `wrappers.dfy` | `Wrappers` | `Option` |
| `strings.dfy` | `Strings` | Python's `str(n)` / f-string rendering of an `int` |
| `models.dfy` | `Models` | the `Task` row (`app/core/models.py`), the `TaskCreate`/`TaskUpdate` payloads (`app/core/schemas.py`), the JSON documents |
| `cache.dfy` | `Cache` | `app/core/cache.py`: the class `Client` with `Get`, `Set`, `DeletePattern`, the Redis glob matcher, the sweep `Swept` |
| `keys.dfy` | `TaskKeys` | `_task_key`, `_list_key`, the pattern `tasks:{user}:*` |
| `store.dfy` | `TaskStore` | the table as the handlers query it: owner lookup, the listing query, the new row, the `setattr` loop |
| `tasks.dfy` | `Tasks` | the handlers: each one is a pure step function on a `State` and a method of the class `Service` |

How the model is built:
- **Cache.** The cache is a `map<string, Entry>` with an integer clock `now`. An entry is live while `now <= expiresAt`, as with Redis `SETEX`.
- **Stored values.** A value that `cache_set` JSON-encodes is kept symbolically as `Dumped(doc)`. A `str` is stored `Verbatim`.
- **Cache reads.** `if cached:` is Python truthiness, so an empty string counts as a miss.
- **Timestamps and ids.** `created_at`/`updated_at` are readings of a write counter `clock`. Ids come from a sequence that starts at 1 and grows.
- **Handlers.** Each handler method is specified by equality with its step function (`GetStep`, `ListStep`, …). The step lemmas (`GetStepCorrect`, …) carry the properties. The methods keep `Valid()`, which is `Invariant` of the current state.
- **Failed commits.** A row the database would refuse gives `ServerError` with nothing changed, and nothing is invalidated, as when `db.commit()` raises. Two cases:
  - a title longer than 255, or a status longer than 50 (the column widths);
  - a title set to null by a PATCH (the NOT NULL column).
- **Notes on the code's behaviour.**
  - Statuses are free strings on create and update (app/core/schemas.py:33, 42). Only the listing filter is restricted to `todo|in_progress|done` (app/routers/tasks.py:36).
  - `updated_at` moves only when a PATCH actually changes a column (app/core/models.py:24). An unchanged row is not flushed, so `onupdate` does not fire.
  - The code has no fallback for an unavailable cache (app/core/cache.py:14-25).

## Model

| member | source | states |
|---|---|---|
| Strings.Digits | app/routers/tasks.py:14 | the decimal rendering is non-empty and made of digits only |
| Strings.IntToString | app/routers/tasks.py:14 | `str(n)` is non-empty and consists of digits, after a leading `-` for a negative number |
| Strings.DigitsInjective | app/routers/tasks.py:14 | distinct naturals have distinct digit strings |
| Strings.SignChar | app/routers/tasks.py:14 | the rendering begins with `-` exactly when the number is negative |
| Strings.IntToStringInjective | app/routers/tasks.py:13-18 | distinct integers render as distinct strings |
| Strings.NoColon | app/routers/tasks.py:13-18 | a rendered integer never contains `:`, the key separator |
| Strings.ColonSplit | app/routers/tasks.py:13-18 | splitting two equal strings at their first colon gives equal fields |
| Strings.ColonPrefix | app/routers/tasks.py:16-18 | a colon-terminated, colon-free field that begins another string is that string's first field |
| TaskKeys.StatusNameInjective | app/routers/tasks.py:36 | the three admitted statuses have distinct names, none containing `:` |
| TaskKeys.TaskKeyInjective | app/routers/tasks.py:13-14 | `task:{u}:{t}` determines `u` and `t` |
| TaskKeys.SuffixInjective | app/routers/tasks.py:17-18 | a colon-free field followed by the optional `:{status}` suffix determines both the field and the filter |
| TaskKeys.ListKeyInjective | app/routers/tasks.py:16-18 | `tasks:{u}:{skip}:{limit}[:{status}]` determines all four parts, including whether a filter was given |
| TaskKeys.TaskKeyNotListKey | app/routers/tasks.py:13-18 | no task key equals any listing key |
| TaskKeys.TaskKeyNoWildcard | app/routers/tasks.py:80 | a task key contains no glob character, so deleting it as a pattern deletes only itself |
| TaskKeys.ListPatternMatches | app/routers/tasks.py:27 | `tasks:{u}:*` matches exactly the keys that begin with `tasks:{u}:` |
| TaskKeys.ListPatternCoversOwn | app/routers/tasks.py:27 | `tasks:{u}:*` matches every listing key of `u` |
| TaskKeys.ListPatternIsolates | app/routers/tasks.py:81 | `tasks:{u}:*` matches no listing key of a different user (e.g. `tasks:12:…` for `u` = 1) |
| TaskKeys.ListPatternSparesTaskKeys | app/routers/tasks.py:93 | `tasks:{u}:*` matches no `task:` key of anyone |
| Cache.SerializeInjective | app/core/cache.py:18-19 | two non-`str` values are JSON-encoded to the same text only if they are equal (the encoder taken as injective), and two `str` values are stored alike only if they are equal |
| Cache.LoadsSerialize | app/routers/tasks.py:55-57 | a document written by `cache_set` decodes to itself and is never falsy |
| Cache.LookupAfterSet | app/core/cache.py:14-20 | after `SETEX k ttl v` at `now`, reading `k` gives `v` until `now + ttl` and nothing afterwards; other keys read as before |
| Cache.MatchesLiteral | app/core/cache.py:24 | a pattern without wildcards matches only the identical key |
| Cache.StarMatchesAll | app/core/cache.py:24 | `*` matches every key |
| Cache.MatchesPrefix | app/core/cache.py:24 | `stem*` with a literal stem matches exactly the keys that begin with the stem |
| Cache.SweptKeeps | app/core/cache.py:22-25 | after a pattern delete no matching key remains, and every other key keeps its value and expiry |
| Cache.LookupSwept | app/core/cache.py:22-25 | after a pattern delete a matching key reads as a miss and any other key reads as before |
| Cache.SweptIdempotent | app/core/cache.py:22-25 | deleting a pattern twice is deleting it once |
| Cache.SweptLiteral | app/core/cache.py:22-25 | a literal pattern deletes at most the identical key |
| Cache.Client.constructor | app/core/cache.py:6-12 | the injected client starts from an empty keyspace at the given clock reading |
| Cache.Client.Get | app/core/cache.py:14-15 | `cache_get` returns the stored text exactly when the key is present and not expired |
| Cache.Client.Set | app/core/cache.py:17-20 | `cache_set` overwrites the entry for the key with the converted value, expiring `ttl` (default 60) after now; nothing else changes |
| Cache.Client.DeletePattern | app/core/cache.py:22-25 | the scan-and-delete loop leaves exactly the keys that do not match the pattern |
| Cache.Client.Advance | app/core/cache.py:20 | time passing moves only Redis's clock |
| TaskStore.InsertKeepsWellFormed | app/routers/tasks.py:22-25 | inserting the new row under the next id, created now, keeps ids, column constraints and creation order intact |
| TaskStore.ReplaceKeepsWellFormed | app/routers/tasks.py:75-77 | committing a patched row with the same id and creation time keeps the table well formed |
| TaskStore.RemoveKeepsWellFormed | app/routers/tasks.py:89-90 | deleting a row keeps the table well formed |
| TaskStore.FindOwnedIsolates | app/routers/tasks.py:59 | the lookup finds a row exactly when it exists and the caller owns it, and returns that row |
| TaskStore.Page | app/routers/tasks.py:46 | `.offset(skip).limit(limit)` returns at most `limit` rows, exactly how many there are, and in their order from position `skip` |
| TaskStore.ScanSound | app/routers/tasks.py:43-45 | every row the scan yields is a stored row owned by the caller, with the asked-for status |
| TaskStore.ScanComplete | app/routers/tasks.py:43-45 | every stored row owned by the caller with the asked-for status is in the scan |
| TaskStore.ScanSorted | app/routers/tasks.py:46 | in a well-formed table the scan is ordered by `created_at` descending |
| TaskStore.NewestFirstUnique | app/routers/tasks.py:46 | two newest-first sequences holding the same rows are equal |
| TaskStore.ScanIsOrderedSelection | app/routers/tasks.py:43-46 | the scan is the only newest-first sequence holding exactly the caller's selected rows |
| TaskStore.ListingMeetsQuery | app/routers/tasks.py:43-46 | `list_tasks`'s answer holds at most `limit` rows, all the caller's and all with the filtered status, newest first, and is non-empty for `skip` 0 when some row qualifies |
| TaskStore.ScanFrame | app/routers/tasks.py:43-46 | changes to rows the query does not select leave its answer unchanged |
| TaskStore.NewRowFields | app/routers/tasks.py:22 | the new row is owned by the caller and keeps the payload, with status `todo` when none was given |
| TaskStore.ReplayDump | app/routers/tasks.py:72-74 | applying the sent fields one `setattr` at a time gives the field-by-field patch |
| TaskStore.PatchedKeeps | app/routers/tasks.py:72-74 | a patch never changes id, owner or timestamps; applying it twice is applying it once; an empty patch changes nothing |
| TaskStore.SetAttrs | app/routers/tasks.py:72-74 | the `setattr` loop over `update_data` yields the field-by-field patch |
| Tasks.CoherentTaskHit | app/routers/tasks.py:55-57 | under coherence a hit on `task:{u}:{id}` is truthy and decodes to what the table answers |
| Tasks.CoherentListHit | app/routers/tasks.py:39-41 | under coherence a hit on a listing key is truthy and decodes to the query's answer |
| Tasks.FillTaskKeepsCoherence | app/routers/tasks.py:62-63 | caching the caller's row after a miss keeps the cache coherent |
| Tasks.FillListKeepsCoherence | app/routers/tasks.py:48-49 | caching the query's answer after a miss keeps the cache coherent |
| Tasks.CreateKeepsCoherence | app/routers/tasks.py:22-27 | inserting a fresh row and then deleting `tasks:{u}:*` keeps the cache coherent |
| Tasks.ChangeKeepsCoherence | app/routers/tasks.py:75-81 | replacing or removing the caller's row and then deleting its task key and `tasks:{u}:*` keeps the cache coherent |
| Tasks.AdvanceKeepsCoherence | app/core/cache.py:20 | expiry only removes entries, so time passing keeps the cache coherent |
| Tasks.WriteInvalidation | app/routers/tasks.py:80-81 | update/delete remove `task:{u}:{id}` and every listing key of `u`; other task keys and other users' listing keys keep their entries |
| Tasks.CreateInvalidation | app/routers/tasks.py:27 | create removes every listing key of the caller; every task key and every other user's listing key keeps its entry |
| Tasks.GetStepCorrect | app/routers/tasks.py:52-64 | `get_task` keeps the invariant, touches no row, and answers the caller's row or NotFound, whether or not the cache hit |
| Tasks.GetStepReadThrough | app/routers/tasks.py:54-64 | a miss on an owned row returns it and caches it, so a repeat within 60 seconds is a hit with the same reply and no change; a NotFound changes nothing |
| Tasks.ListStepCorrect | app/routers/tasks.py:30-50 | `list_tasks` keeps the invariant, touches no row, and answers the query's result whether or not the cache hit |
| Tasks.ListStepReadThrough | app/routers/tasks.py:38-50 | after a miss, the same query repeated within 60 seconds is a hit with the same reply and no change |
| Tasks.CreateStepCorrect | app/routers/tasks.py:20-28 | `create_task` keeps the invariant |
| Tasks.CreateStepRow | app/routers/tasks.py:21-25 | create fails exactly when the title or status is too wide, changing nothing; otherwise it inserts exactly one row under a fresh id, owned by the caller, with the sent title and `todo` as the default status |
| Tasks.UpdateStepCorrect | app/routers/tasks.py:66-82 | `update_task` keeps the invariant; on success only row `id` changes, keeping its id, owner and creation time |
| Tasks.UpdateStepRow | app/routers/tasks.py:67-77 | update answers NotFound exactly for a row the caller does not own; a refused patch changes nothing; otherwise sent fields take the sent values, the others keep theirs, and `updated_at` moves only on a real change |
| Tasks.DeleteStepCorrect | app/routers/tasks.py:84-94 | `delete_task` keeps the invariant, and after it every user's read of the id answers NotFound |
| Tasks.DeleteStepRow | app/routers/tasks.py:85-90 | delete answers NotFound exactly for a row the caller does not own, changing nothing; otherwise exactly row `id` is removed |
| Tasks.ElapseStepCorrect | app/core/cache.py:20 | time passing keeps the invariant |
| Tasks.Service.constructor | app/core/cache.py:6-12 | a fresh service (empty table, empty cache) satisfies the invariant |
| Tasks.Service.GetTask | app/routers/tasks.py:52-64 | the handler's effect is `GetStep`; from a valid state it stays valid and answers what the table answers |
| Tasks.Service.ListTasks | app/routers/tasks.py:30-50 | with defaults `skip` 0, `limit` 20 and no filter, the handler's effect is `ListStep`; from a valid state it stays valid and answers the query's result |
| Tasks.Service.CreateTask | app/routers/tasks.py:20-28 | the handler's effect is `CreateStep`; validity is kept |
| Tasks.Service.UpdateTask | app/routers/tasks.py:66-82 | the handler's effect is `UpdateStep`; validity is kept |
| Tasks.Service.DeleteTask | app/routers/tasks.py:84-94 | the handler's effect is `DeleteStep`; validity is kept |
| Tasks.Service.Elapse | app/core/cache.py:20 | time passing is `ElapseStep`; validity is kept |
| Tasks.CreateThenRead | tests/test_api.py:23-36 | on an empty service: create gives task 1 titled "First Task" with status `todo`; get returns the same; a list with limit 5 has at least one task |
| Tasks.PatchThenDelete | tests/test_api.py:38-45 | patching status to `done` returns the task with status `done`; delete gives 204; a later get gives NotFound |
| Tasks.Scenario | tests/test_api.py:23-45 | the whole create / get / list / patch / delete sequence, plus a final get answering NotFound |

## Left out

- Authentication, users and app wiring (`app/routers/auth.py`, `app/routers/users.py`, `app/main.py`, `app/core/config.py`). The authenticated user's id is a plain parameter of every handler.
- The Redis connection and the lazy global `get_client` (app/core/cache.py:6-12). The client is a constructed object that the service holds.
- Cache failures, time-outs and the network. The model's cache always answers.
- Cache.SerializeInjective: the model tags stored text with its origin (`Verbatim` or `Dumped`). So a `str` holding JSON text stays apart from the value it encodes: `cache_set(k, "[]")` and `cache_set(k, [])` differ here, although Redis stores the same string `[]`. The handlers only ever pass non-`str` values, so coherence is unaffected.
- JSON encoding and decoding. A JSON-encoded document is kept symbolically, so decoding it gives back the same document. `default=str` formatting of datetimes is not modelled. A value stored verbatim is never decoded: the model gives `Undecoded`, and the handlers never store one.
- Full Redis glob syntax. `*` and `?` are modelled. `[`, `]` and `\` match only themselves, since no key or pattern used here contains them.
- Wall-clock time. `created_at`/`updated_at` are readings of a write counter, and Redis's clock is a separate integer. Time passing is an explicit `Elapse`.
- Creation order is taken to be id order, and `created_at` ties are excluded: a well-formed table has strictly increasing creation times along ids. In the source, `created_at` is a `datetime.utcnow` reading (app/core/models.py:23). Two rows with equal readings would leave their order under `order_by(Task.created_at.desc())` (app/routers/tasks.py:46) unspecified, and the model does not cover that case.
- Concurrency. The model is sequential, so it leaves out the race between commit and invalidation and the non-atomic `scan_iter` deletion.
- The SQLAlchemy session and Postgres. The table is a map with an id sequence. `db.refresh` has no effect.
- Database errors. The only ones modelled are the NOT NULL title and the 255/50 column widths.
- Pydantic validation. Payload types are Dafny datatypes, and a required `title` is a non-optional field. In a `TaskCreate`, a status sent as null is treated like a status left out, so it becomes `todo`.
- Cascade deletion of a user's tasks (app/core/models.py:14, 26). No route triggers it.
- HTTP status codes and response-model filtering. They become `Reply` constructors; a reply carries the whole `Task` record.
- The `1 <= limit <= 100` precondition of `ListTasks` is the query validation FastAPI performs before the handler runs (app/routers/tasks.py:35). `skip >= 0` is the type `nat`.
- The `ttl > 0` precondition of `Set` is there because Redis refuses a non-positive `SETEX` expiry; every caller passes 60.
- Tasks.Service.CreateTask: its contract promises the invariant and equality with `CreateStep`, but not the row's fields. `Tasks.CreateStepRow` states those.
- Tasks.Service.UpdateTask and Tasks.Service.DeleteTask: likewise, their fields are stated by `Tasks.UpdateStepRow` and `Tasks.DeleteStepRow`.
