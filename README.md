# BBN_template migration ledger and helpers, modelled in Dafny

This project models the computational core of the BBN_template Express/PostgreSQL starter.
It states, and proves, what that core promises.

- **Migration ledger and lock** (`MigrationHistory`). The `migration_history` table is a
  sequence of rows in insertion order. Every read query is a function over it:
  - the latest batch;
  - the executed names;
  - the names in one batch;
  - checksum validation;
  - the detailed status, with the latest row per name, counts and average inputs.

  `migration_locks` holds at most one row. The class `HistoryStore.MigrationHistory` carries
  both tables as fields. Its methods seed the lock, compare-and-swap it, release it and append
  ledger rows.
- **Status report** (`showMigrationStatus`): the summary counts, the per-file table with its
  "Pending" default, and the failed rows.
- **SQL builders** of both database layers (`PgAdapter`, `Database`). A statement keeps its
  `column = $n` clauses as structured bindings, and `SqlText.Text` renders the exact text. The
  contracts state how placeholders are numbered and which parameter each one names.
  `Database.buildQuery` is a loop, as in the code.
- **Small helpers**:
  - PostgreSQL error formatting;
  - one-level array validation;
  - the service container;
  - the chat-room registry and member set;
  - migration file naming.

Some behaviour is outside the model and becomes an input: the clock (`NOW()`,
`CURRENT_TIMESTAMP`, `new Date()`), `process.env.USER`, an exception thrown by a query, and the
value a service resolver returns.

Modules: `Wrappers`, `JsValue`, `Seqs`, `Decimal`, `Ledger`, `HistoryStore`,
`MigrationStatus`, `SqlText`, `PgAdapter`, `Db`, `PgErrorHandler`, `PropertyValidation`,
`ServiceContainer`, `ChatRooms`, `GenerateMigration`.

### Behaviour a reader might expect but the code does not have

The model follows the code in each case.

- `getExecutedMigrations` and `getMigrationsInBatch` return one name per 'up' row, not the
  latest row per name.
  - A name executed twice appears twice.
  - A later 'down' row for a name removes nothing.
- `validateMigration` only looks at 'up' rows, so a reverted migration does not pass
  unconditionally. A name whose last row is 'down' is still checked against its last 'up'
  checksum.
- Nothing in the code runs migrations in batches through this class, so no batch runner is
  modelled.
- `ORDER BY timestamp` is the insertion order only when timestamps increase. `CURRENT_TIMESTAMP`
  is the transaction start time in PostgreSQL. The model assumes each recorded row is later than
  every earlier one (`Ledger.Chronological`, kept by `RecordMigration`).

## Model

| member | source | states |
|---|---|---|
| Ledger.MaxUpBatch | src/database/migrationHistory.ts:132-137 | MAX(batch) over 'up' rows is NULL iff there is no 'up' row; otherwise it is the batch of some 'up' row and bounds every 'up' row's batch |
| Ledger.LatestBatch | src/database/migrationHistory.ts:132-139 | COALESCE(MAX(batch), 0) over 'up' rows: 0 with no 'up' row, else the largest 'up' batch |
| Ledger.LatestBatchAfterRecord | src/database/migrationHistory.ts:132-139 | a 'down' or 'error' row never changes the latest batch; an 'up' row raises it to its own batch when larger |
| Ledger.UpRows | src/database/migrationHistory.ts:145 | `WHERE status = 'up'`: exactly the ledger's 'up' rows |
| Ledger.ExecutedMigrations | src/database/migrationHistory.ts:141-149 | a name is listed iff some 'up' row carries it |
| Ledger.ExecutedMigrationsInTimestampOrder | src/database/migrationHistory.ts:141-149 | one name per 'up' row, each 'up' row kept with its multiplicity, in strictly ascending timestamp order |
| Ledger.ExecutedMigrationsAfterRecord | src/database/migrationHistory.ts:141-149 | appending a row extends the executed names by its name exactly when it is 'up'; a later 'down' removes nothing |
| Ledger.MigrationsInBatch | src/database/migrationHistory.ts:151-162 | a name is listed iff some 'up' row of that batch carries it |
| Ledger.MigrationsInBatchIsSubsequenceOfExecuted | src/database/migrationHistory.ts:151-162 | the names of batch b are the executed 'up' rows restricted to batch b, in the same order |
| Ledger.LatestUpIndex | src/database/migrationHistory.ts:164-174 | finds the most recent 'up' row for a name (none after it), which has the greatest timestamp when timestamps increase |
| Ledger.ValidateMigration | src/database/migrationHistory.ts:164-177 | true iff the name has no 'up' row, or its latest 'up' row has the given checksum |
| Ledger.ValidateAfterUp | src/database/migrationHistory.ts:164-177 | right after an 'up' row, validation of its name passes exactly for that row's checksum |
| Ledger.ValidateIgnoresOtherRows | src/database/migrationHistory.ts:164-177 | a row that is not an 'up' row for the name (every 'down' row included) leaves its validation unchanged |
| Ledger.LatestIndices | src/database/migrationHistory.ts:181-194 | ROW_NUMBER() = 1 per name: exactly the positions that are the latest of their name, highest first |
| Ledger.LastIndexNamed | src/database/migrationHistory.ts:192 | the last row carrying a name exists iff the name is recorded, and no later row carries it |
| Ledger.ExecutionCount | src/database/migrationHistory.ts:205-209 | COUNT(*) over the name's rows: at most the ledger size, and 0 iff no row carries the name |
| Ledger.UpRuns | src/database/migrationHistory.ts:210-214 | the number of 'up' rows for the name that AVG averages: at most its execution count, and 0 iff it has no 'up' row (AVG is NULL) |
| Ledger.UpDurationTotal | src/database/migrationHistory.ts:210-214 | the duration total that AVG divides is 0 when the name has no 'up' row |
| Ledger.Detail | src/database/migrationHistory.ts:195-214 | a detailed row copies its ledger row's columns, counts at least one execution and no more 'up' runs than executions |
| Ledger.DetailedStatus | src/database/migrationHistory.ts:179-218 | at most one detailed row per ledger row, each with at least one execution and no more 'up' runs than executions |
| Ledger.CountedRowsAreNonEmpty | src/database/migrationHistory.ts:205-209 | execution_count of a recorded name is at least 1 |
| Ledger.DetailedStatusOneRowPerName | src/database/migrationHistory.ts:179-218 | one detailed row per distinct name: names are distinct, each is recorded, every recorded name has a row |
| Ledger.DetailedStatusRowIsLatest | src/database/migrationHistory.ts:179-218 | each detailed row copies the latest row of its name, counts all its rows (at least 1) and averages over its 'up' rows only |
| Ledger.DetailedStatusNewestFirst | src/database/migrationHistory.ts:217 | detailed rows are in descending timestamp order |
| Ledger.DetailedStatusFindsLastRow | src/database/migrationHistory.ts:179-218 | the detailed row of a name has the status and batch of that name's last row |
| Ledger.AggregatesAfterRecord | src/database/migrationHistory.ts:205-214 | a new row adds one execution to its name; only an 'up' row changes the 'up' count and duration total |
| HistoryStore.ExecutedBy | src/database/migrationHistory.ts:85 | `process.env.USER \|\| "system"`: never empty, "system" exactly for an unset or empty USER, otherwise USER |
| HistoryStore.SeedLock | src/database/migrationHistory.ts:58-68 | seeding inserts the unlocked row only into an empty lock table and leaves an existing row as it is |
| HistoryStore.SeedLockIdempotent | src/database/migrationHistory.ts:58-68 | repeating initialize leaves the one row the first left |
| HistoryStore.TryAcquire | src/database/migrationHistory.ts:76-89 | succeeds iff the row exists and is unlocked, then holds it with the time and holder; on failure nothing changes |
| HistoryStore.Release | src/database/migrationHistory.ts:96-104 | release leaves the row unlocked with locked_at and locked_by cleared |
| HistoryStore.AcquireExcludesUntilRelease | src/database/migrationHistory.ts:72-104 | after a successful acquire every other acquire fails and changes nothing until a release, after which one succeeds |
| HistoryStore.ReleaseIdempotent | src/database/migrationHistory.ts:96-104 | releasing twice is releasing once |
| HistoryStore.MigrationHistory.Initialize | src/database/migrationHistory.ts:40-70 | the lock table becomes SeedLock of the old one; the ledger is untouched |
| HistoryStore.MigrationHistory.AcquireLock | src/database/migrationHistory.ts:72-94 | returns whether the lock was free and applies the swap; a query error rolls back (no change) and is rethrown |
| HistoryStore.MigrationHistory.ReleaseLock | src/database/migrationHistory.ts:96-104 | the lock table becomes Release of the old one; the ledger is untouched |
| HistoryStore.MigrationHistory.RecordMigration | src/database/migrationHistory.ts:106-130 | appends exactly one row with the given fields and the executing user; earlier rows and the lock are unchanged |
| MigrationStatus.MigrationFiles | scripts/migrationStatus.ts:30-32 | exactly the ".ts" directory entries, each with its multiplicity |
| MigrationStatus.Summarize | scripts/migrationStatus.ts:35-38 | total = number of files; executed and failed are the lengths of the 'up' and 'error' filters of the status rows; pending = total − executed, unclamped; executed + failed never exceed the status rows |
| MigrationStatus.SummaryCountsRows | scripts/migrationStatus.ts:36-37 | executed is the number of status positions whose row is 'up', failed the number whose row is 'error' |
| MigrationStatus.SummaryAfterRow | scripts/migrationStatus.ts:36-37 | one more status row raises executed by one exactly when it is 'up', and failed by one exactly when it is 'error' |
| MigrationStatus.UpAndErrorRowsAreDisjoint | scripts/migrationStatus.ts:36-37 | no row is counted both executed and failed |
| MigrationStatus.PendingMayBeNegative | scripts/migrationStatus.ts:38 | with no files and one 'up' row, pending is −1 |
| MigrationStatus.FindByName | scripts/migrationStatus.ts:52 | `find`: the first status row with the file's name, or none |
| MigrationStatus.PendingRow | scripts/migrationStatus.ts:69-78 | Status "Pending", 0 executions and "-" in every other column |
| MigrationStatus.RecordedRow | scripts/migrationStatus.ts:54-67 | the status row's status and execution count; batch, duration and executed_by show "-" exactly when falsy; the average shows "-" exactly when there is no 'up' run; the last run time is always shown |
| MigrationStatus.RowFor | scripts/migrationStatus.ts:51-79 | a file without a status row gets the Pending row; otherwise the row built from the first matching status row |
| MigrationStatus.StatusData | scripts/migrationStatus.ts:51-79 | one row per file, in file order, each the RowFor of its file: Pending where no status row matches |
| MigrationStatus.FailedDetails | scripts/migrationStatus.ts:84 | exactly the 'error' rows; their number is the failed count |
| MigrationStatus.FailedDetailsKeepOrder | scripts/migrationStatus.ts:84 | failed rows keep their original order |
| MigrationStatus.UnrecordedFileIsPending | scripts/migrationStatus.ts:69-78 | a file no ledger row names shows Status "Pending", 0 executions and "-" elsewhere |
| MigrationStatus.RecordedFileShowsLatestRow | scripts/migrationStatus.ts:53-67 | a recorded file shows the status and batch of its last ledger row, with "-" for a zero batch |
| SqlText.Numbered | src/database/adapters/pgDB.ts:40-41 | clause i compares column i with placeholder first + i |
| SqlText.NumberedBindsEntries | src/database/adapters/pgDB.ts:74-80 | numbering from offset + 1 makes placeholder $p name the entry's own value in the parameter list |
| SqlText.Join | src/database/adapters/pgDB.ts:40-42 | `join(sep)`: no parts give ""; otherwise the text starts with the first part and ends with the last |
| SqlText.JoinLength | src/database/adapters/pgDB.ts:40-42 | n joined parts carry n − 1 separators: the length is the parts' total plus (n − 1) separator lengths |
| SqlText.Text | src/database/adapters/pgDB.ts:45-100 | each template opens with its verb and table and ends in `LIMIT 1` or `RETURNING *` where written; the db.ts buildQuery template has a WHERE line exactly when it has conditions |
| SqlText.PlaceholderRoundTrip | src/database/adapters/pgDB.ts:55 | the rendered `$n` reads back as n |
| PgAdapter.PgAdapterClass.GetInstance | src/database/adapters/pgDB.ts:21-26 | the first call creates the instance; every later call returns the same one |
| PgAdapter.FindOne | src/database/adapters/pgDB.ts:38-48 | SELECT ... LIMIT 1 with criteria clauses numbered from $1, each bound to its criteria value |
| PgAdapter.FindOneRow | src/database/adapters/pgDB.ts:49 | null iff no row came back, else the first row |
| PgAdapter.Insert | src/database/adapters/pgDB.ts:52-64 | columns in key order, one placeholder $i per column, and $i names the i-th data value |
| PgAdapter.Update | src/database/adapters/pgDB.ts:66-88 | SET placeholders $1..$k, WHERE placeholders $(k+1)..$(k+m), values = data values then criteria values, each placeholder naming its own entry |
| PgAdapter.Delete | src/database/adapters/pgDB.ts:90-100 | DELETE with criteria clauses numbered from $1, each bound to its criteria value |
| PgAdapter.Deleted | src/database/adapters/pgDB.ts:101 | true iff the row count is present and positive; null counts as 0 |
| Db.DatabaseClass.GetInstance | src/database/db.ts:20-25 | the first call creates the instance; every later call returns the same one |
| Db.FindOneQuery | src/database/db.ts:51-56 | `k_i = $i` joined by AND with LIMIT 1, values in key order |
| Db.FindOneQueriesAgree | src/database/db.ts:51-56 | both layers send the same lookup statement |
| Db.FindOneResult | src/database/db.ts:57 | null when the row count is null or 0 (or no row came back), otherwise the first row |
| Db.FindOrFail | src/database/db.ts:60-67 | fails with "<tableName> record not found" exactly when findOne is null, else returns the first row |
| Db.Kept | src/database/db.ts:78-79 | exactly the filter entries with truthy values |
| Db.FalsyFilterIsSkipped | src/database/db.ts:79 | a falsy filter value adds no condition and no parameter |
| Db.KeptAppend | src/database/db.ts:78-83 | kept entries of a concatenation are the concatenation of kept entries |
| Db.NothingKept | src/database/db.ts:89-92 | nothing is kept iff every filter value is falsy |
| Db.BuildQuery | src/database/db.ts:69-94 | conditions numbered consecutively from $1 over the kept entries only, params = kept values, no WHERE iff nothing kept |
| PgErrorHandler.MappedMessage | src/utils/handlers/errors/pgErrorHandler.ts:19-23 | a table message exists iff the error is an object whose code is in the table |
| PgErrorHandler.FormatPgError | src/utils/handlers/errors/pgErrorHandler.ts:13-26 | "42P07" and "25P02" give their messages; otherwise an Error gives its message and anything else String(error) |
| PgErrorHandler.MappedCodeIgnoresMessage | src/utils/handlers/errors/pgErrorHandler.ts:21-22 | a mapped code decides the text whatever the message or kind of object |
| PgErrorHandler.UnmappedCodeKeepsMessage | src/utils/handlers/errors/pgErrorHandler.ts:25 | an Error with an absent or unknown code yields its own message |
| PgErrorHandler.PrimitiveIsShownAsString | src/utils/handlers/errors/pgErrorHandler.ts:19-25 | a thrown primitive is shown as String(error) |
| PropertyValidation.OwnValues | src/utils/handlers/propertyValidation.ts:15 | Object.values of an array is its elements, of an object its own values in order |
| PropertyValidation.AnyMissing | src/utils/handlers/propertyValidation.ts:15-17 | true iff some value is null, undefined or false |
| PropertyValidation.AnyItemFails | src/utils/handlers/propertyValidation.ts:9-21 | true iff some element fails the callback |
| PropertyValidation.ValidateArrayProperties | src/utils/handlers/propertyValidation.ts:6-22 | false for a non-array; for an array, true iff no element and no own value of an object element is null, undefined or false |
| PropertyValidation.EmptyArrayPasses | src/utils/handlers/propertyValidation.ts:9-21 | the empty array passes |
| PropertyValidation.NestedValuesAreNotInspected | src/utils/handlers/propertyValidation.ts:14-18 | own values that are themselves containers pass whatever they hold |
| PropertyValidation.DeepNullPasses | src/utils/handlers/propertyValidation.ts:14-18 | a null two levels down passes |
| PropertyValidation.ZeroAndEmptyStringPass | src/utils/handlers/propertyValidation.ts:10-20 | 0 and "" pass, as elements and as own values |
| PropertyValidation.OneMissingValueFails | src/utils/handlers/propertyValidation.ts:10-18 | one missing element, or one missing own value of an object element, fails the array |
| ServiceContainer.Resolution | src/app/utils/serviceContainer.ts:24-28 | the resolver runs iff the registration is per call or no truthy instance is cached; a singleton caches the value it returns |
| ServiceContainer.BoundResolverRunsEveryTime | src/app/utils/serviceContainer.ts:10-28 | a bind registration runs its resolver on each of two resolves |
| ServiceContainer.SingletonCachesTruthyResult | src/app/utils/serviceContainer.ts:14-28 | a singleton with a truthy result returns it again without running the resolver |
| ServiceContainer.SingletonRetriesFalsyResult | src/app/utils/serviceContainer.ts:24-28 | a singleton with a falsy result runs its resolver again on the next resolve |
| ServiceContainer.Container.Bind | src/app/utils/serviceContainer.ts:10-12 | replaces the name's definition with an uncached per-call one; other names unchanged |
| ServiceContainer.Container.Singleton | src/app/utils/serviceContainer.ts:14-16 | replaces the name's definition with an uncached singleton; other names unchanged |
| ServiceContainer.Container.Resolve | src/app/utils/serviceContainer.ts:18-29 | an unknown name fails with "Service <name> not found" and changes nothing; otherwise follows Resolution and changes only that name |
| ChatRooms.Joined | src/services/chat/chatRoom.ts:23-25 | Set.add: a newcomer goes last, a member stays put, no duplicates appear |
| ChatRooms.Removed | src/services/chat/chatRoom.ts:27-29 | Set.delete as a function on the member list: it never grows, and shrinks exactly when the user was a member |
| ChatRooms.RemovedMembers | src/services/chat/chatRoom.ts:27-29 | Set.delete: the user is gone, every other member is still there and nobody new appears |
| ChatRooms.RemovedNonMember | src/services/chat/chatRoom.ts:27-29 | deleting a user who is not a member changes nothing |
| ChatRooms.RemovedAppend | src/services/chat/chatRoom.ts:27-29 | deleting from two lists joined end to end is deleting from each |
| ChatRooms.RemovedAt | src/services/chat/chatRoom.ts:27-29 | in a duplicate-free member list, leaving splices the user out and keeps the order |
| ChatRooms.RemovedKeepsNoDuplicates | src/services/chat/chatRoom.ts:27-29 | leaving keeps the member list duplicate-free |
| ChatRooms.JoinIdempotent | src/services/chat/chatRoom.ts:23-25 | joining twice is joining once |
| ChatRooms.LeaveUndoesJoin | src/services/chat/chatRoom.ts:23-29 | a newcomer who joins and leaves restores the member list |
| ChatRooms.ChatRoom.constructor | src/services/chat/chatRoom.ts:18-21 | a new room has the given name and no members |
| ChatRooms.ChatRoom.Join | src/services/chat/chatRoom.ts:23-25 | members become Joined(old members, user) |
| ChatRooms.ChatRoom.Leave | src/services/chat/chatRoom.ts:27-29 | members become Removed(old members, user) |
| ChatRooms.ChatRoom.Broadcast | src/services/chat/chatRoom.ts:31-35 | exactly one send of the data to each member, in insertion order |
| ChatRooms.ChatRoom.GetMember | src/services/chat/chatRoom.ts:41-46 | undefined for an empty room, else only the first member is compared |
| ChatRooms.FirstMemberOnly | src/services/chat/chatRoom.ts:41-46 | undefined iff the room is empty; the first member if it has the name; else the Error |
| ChatRooms.ChatRoom.FindMember | src/services/chat/chatRoom.ts:41-46 | the corrected lookup: returns AnyMemberNamed, comparing every member |
| ChatRooms.FirstNamed | src/services/chat/chatRoom.ts:41-46 | the position of the first member with the name, or none when no member has it |
| ChatRooms.AnyMemberNamed | src/services/chat/chatRoom.ts:41-46 | the Error iff no member has the name, otherwise the first member that has it |
| ChatRooms.LookupsAgreeOnFirstMember | src/services/chat/chatRoom.ts:41-46 | the two lookups agree when the first member matches or nobody does |
| ChatRooms.GetMemberMissesLaterMember | src/services/chat/chatRoom.ts:41-46 | with a matching second member, getMember returns the Error while the intended lookup finds that member |
| ChatRooms.RoomRegistry.Get | src/services/chat/chatRoom.ts:10-16 | the first request for a name creates an empty room under it; later requests return the same room and change nothing |
| GenerateMigration.Strip | scripts/generateMigration.ts:12 | no '-', 'T', ':', '.' or 'Z' is left; every other character keeps its count |
| GenerateMigration.IsoStampIsSeventeenDigits | scripts/generateMigration.ts:12 | a `YYYY-MM-DDTHH:MM:SS.sssZ` string strips to its 17 digits |
| GenerateMigration.ToLowerChar | scripts/generateMigration.ts:13 | no uppercase ASCII letter remains; A–Z move to a–z, the rest are kept |
| GenerateMigration.ToLower | scripts/generateMigration.ts:13 | same length, each character lowercased by ToLowerChar |
| GenerateMigration.ToLowerIdempotent | scripts/generateMigration.ts:13 | lowercasing twice is lowercasing once |
| GenerateMigration.CreateSuffix | scripts/generateMigration.ts:13 | "_create_", the lowercased model name, then ".ts", with length 11 more than the model name |
| GenerateMigration.FileName | scripts/generateMigration.ts:13 | the stamp followed by CreateSuffix; the name ends in ".ts" |
| GenerateMigration.CreateTableSql | scripts/generateMigration.ts:20-25 | the `up` statement opens with CREATE TABLE and the table name |
| GenerateMigration.DropTableSql | scripts/generateMigration.ts:30-32 | the `down` statement is DROP TABLE IF EXISTS of the table name, ending with ";" |
| GenerateMigration.FileNameParts | scripts/generateMigration.ts:13 | the file name is the 17-digit stamp, "_create_", the lowercased model name and ".ts", and splits back into them |
| GenerateMigration.FileNamesSortByStamp | scripts/generateMigration.ts:12-13 | a later stamp gives a lexicographically later file name, whatever the model names |
| GenerateMigration.Generate | scripts/generateMigration.ts:4-34 | an absent or empty model name fails with the usage message; otherwise the name is built from the stamp and the lowercased model name, which both templates use as the table |
| GenerateMigration.GeneratedFileIsCounted | scripts/generateMigration.ts:13 | a generated file ends in ".ts", so the status report counts it |

## Left out

- The PostgreSQL engine. Tables are sequences, and each query is a function over them.
- The `pg` pool, client connect and release, dotenv, `findAll` and the generic `query` wrappers.
- BEGIN/COMMIT/ROLLBACK and cross-process concurrency. The compare-and-swap in `acquireLock` is
  atomic in the model.
- The clock, `process.env.USER`, query exceptions and service resolvers. They are parameters.
- The DDL of `initialize`. Table creation has no observable effect in the model; only the lock
  row seeding is kept.
- The generated id, `created_at`/`updated_at` and the `rolled_back_*` columns. The code never
  writes the `rolled_back_*` columns.
- Floating-point arithmetic. The average duration is kept as the exact pair
  (total, 'up' runs); `Math.round` and the "ms" suffix are not modelled.
- `Math.max(...)` over the batches in the summary. It is printed only, and over an empty list it
  is -Infinity.
- `toLocaleString` and every `console` call.
- HistoryStore.MigrationHistory.RecordMigration: PostgreSQL rejects a name or executed_by
  longer than VARCHAR(255), a checksum longer than VARCHAR(64) and a batch or duration_ms
  outside the 32-bit INTEGER range; the INSERT then throws. The model has no column widths and always appends.
- HistoryStore.MigrationHistory.AcquireLock: a locked_by longer than VARCHAR(255) makes the
  UPDATE throw in PostgreSQL. The model has no column widths; only the `queryError` input
  stands for a failing query.
- ServiceContainer.Container.Resolve: a resolver that throws (serviceContainer.ts:25 and 28)
  caches nothing and passes the exception to the caller. The `produced` input is always a
  value, so the model cannot express a throwing resolver.
- HistoryStore.MigrationHistory.RecordMigration: requires the new timestamp to be later than
  every recorded one. The code does not check this. The model needs it so that `ORDER BY
  timestamp` is insertion order.
- Ledger.Detail: the driver returns `COUNT(*)` and `AVG(...)` as strings. The model keeps
  them as numbers, and `MigrationStatus.RecordedRow` shows the average whenever an 'up' row
  exists, as the non-empty string would be.
- MigrationStatus.RecordedRow: "Last Run At" is always shown. The driver returns a `Date`,
  which is never falsy.
- GenerateMigration.ToLower: only ASCII letters are lowercased. JavaScript's Unicode case
  mapping is not modelled.
- GenerateMigration.Generate: `fs` writes, directory creation, `process.exit` and the console
  messages are not modelled. The template is reduced to its two SQL statements.
- PgErrorHandler.FormatPgError: only string codes are modelled. Names inherited from
  `Object.prototype` (such as "constructor") also satisfy the code's `in` test. PostgreSQL
  SQLSTATE codes never collide with them, so they are not modelled.
- Non-integer numbers. JavaScript values are modelled with integer numbers only; NaN and
  fractions are left out.
- PgAdapter.Insert and PgAdapter.Update: the returned `rows[0]` is not modelled. Only the
  statement and its parameters are.
- `JSON.stringify` in `broadcast`. The raw payload is recorded with each send.
- `getMembers`: it only returns the member set.
- `scripts/runMigrations.ts`, the migration files, authentication, routing, websockets and the
  user repository. None of them is part of this model.

## Findings

| source | as written | input that shows it | evidently intended | confidence | as-written member | corrected member |
|---|---|---|---|---|---|---|
| src/services/chat/chatRoom.ts:41-46 | the `return new Error(...)` sits inside the loop, so only the first member is ever compared | a room whose first member is named "a" and second "b", asked for "b" | return the first member named `memberName`, and the Error only when no member has that name | high (proved; not executed) | ChatRooms.ChatRoom.GetMember, ChatRooms.GetMemberMissesLaterMember | ChatRooms.ChatRoom.FindMember, ChatRooms.AnyMemberNamed |
