/** The state-changing half of `MigrationHistory` (src/database/migrationHistory.ts): seeding the
    lock table, the lock's compare-and-swap and release, and appending ledger rows. The database
    is this object's two fields; `NOW()`, `CURRENT_TIMESTAMP` and `process.env.USER` are inputs. */
module HistoryStore {
  import opened Wrappers
  import opened Ledger

  /** The one row of `migration_locks` (id 1). */
  datatype LockRow = LockRow(isLocked: bool, lockedAt: Option<int>, lockedBy: Option<string>)

  /** The row `initialize` inserts: `(id, is_locked) = (1, false)`, the other columns NULL. */
  const Unlocked := LockRow(false, None, None)

  /** `process.env.USER || "system"`: an unset or empty USER is recorded as "system". */
  function ExecutedBy(user: Option<string>): (who: string)
    ensures who != ""
    ensures who == "system" <==> user.None? || user.value == "" || user.value == "system"
    ensures who != "system" ==> user == Some(who)
  {
    match user
    case Some(u) => if u != "" then u else "system"
    case None => "system"
  }

  /** `INSERT ... SELECT 1, false WHERE NOT EXISTS (SELECT 1 FROM migration_locks)`.
      The table holds at most one row (primary key id with CHECK (id = 1)), so it is an Option. */
  function SeedLock(table: Option<LockRow>): (seeded: Option<LockRow>)
    ensures seeded.Some?
    ensures table.Some? ==> seeded == table
    ensures table.None? ==> seeded == Some(Unlocked)
  {
    if table.None? then Some(Unlocked) else table
  }

  /** Seeding twice leaves the one row the first seeding left. */
  lemma SeedLockIdempotent(table: Option<LockRow>)
    ensures SeedLock(SeedLock(table)) == SeedLock(table)
  {
  }

  /** `UPDATE migration_locks SET is_locked = true, locked_at = NOW(), locked_by = $1
      WHERE id = 1 AND is_locked = false RETURNING *`, then `rows.length > 0`. */
  function TryAcquire(table: Option<LockRow>, who: string, now: int): (result: (bool, Option<LockRow>))
    ensures result.0 <==> table.Some? && !table.value.isLocked
    ensures result.0 ==> result.1 == Some(LockRow(true, Some(now), Some(who)))
    ensures !result.0 ==> result.1 == table
  {
    match table
    case Some(row) =>
      if !row.isLocked then (true, Some(LockRow(true, Some(now), Some(who)))) else (false, table)
    case None => (false, None)
  }

  /** `UPDATE migration_locks SET is_locked = false, locked_at = NULL, locked_by = NULL WHERE id = 1`. */
  function Release(table: Option<LockRow>): (released: Option<LockRow>)
    ensures released.Some? <==> table.Some?
    ensures released.Some? ==> released.value == Unlocked
  {
    match table
    case Some(_) => Some(Unlocked)
    case None => None
  }

  /** Mutual exclusion: once an acquire succeeds, every later acquire fails and changes nothing
      until the lock is released; after the release the next acquire succeeds. */
  lemma AcquireExcludesUntilRelease(table: Option<LockRow>, who: string, now: int, other: string, later: int)
    requires TryAcquire(table, who, now).0
    ensures var held := TryAcquire(table, who, now).1;
            !TryAcquire(held, other, later).0 && TryAcquire(held, other, later).1 == held
            && TryAcquire(Release(held), other, later).0
  {
  }

  /** Releasing is idempotent. */
  lemma ReleaseIdempotent(table: Option<LockRow>)
    ensures Release(Release(table)) == Release(table)
  {
  }

  class MigrationHistory {
    /** `migration_history`, in insertion order. */
    var history: seq<Record>
    /** `migration_locks`: empty before `initialize`, else its single row. */
    var locks: Option<LockRow>

    ghost predicate Valid()
      reads this
    {
      Chronological(history)
    }

    /** A handle on a database whose tables hold `history` and `locks`. */
    constructor (history: seq<Record>, locks: Option<LockRow>)
      requires Chronological(history)
      ensures Valid() && this.history == history && this.locks == locks
    {
      this.history := history;
      this.locks := locks;
    }

    /** Creates the tables if absent and seeds the lock row only when the lock table is empty. */
    method Initialize()
      requires Valid()
      modifies this
      ensures Valid()
      ensures locks == SeedLock(old(locks)) && history == old(history)
    {
      locks := SeedLock(locks);
    }

    /** BEGIN; the compare-and-swap; COMMIT. `queryError` is an exception thrown by a query:
        the transaction is rolled back (nothing changes) and the error is rethrown. */
    method AcquireLock(user: Option<string>, now: int, queryError: Option<string>) returns (r: Result<bool, string>)
      requires Valid()
      modifies this
      ensures Valid() && history == old(history)
      ensures queryError.Some? ==> r == Failure(queryError.value) && locks == old(locks)
      ensures queryError.None? ==>
                r == Success(old(locks).Some? && !old(locks).value.isLocked)
                && locks == TryAcquire(old(locks), ExecutedBy(user), now).1
    {
      if queryError.Some? {
        r := Failure(queryError.value);
        return;
      }
      var (acquired, table) := TryAcquire(locks, ExecutedBy(user), now);
      locks := table;
      r := Success(acquired);
    }

    method ReleaseLock()
      requires Valid()
      modifies this
      ensures Valid() && history == old(history)
      ensures locks == Release(old(locks))
    {
      locks := Release(locks);
    }

    /** Appends exactly one row; `now` is the database's CURRENT_TIMESTAMP, later than every
        timestamp already recorded. */
    method RecordMigration(name: string, batch: int, status: Status, checksum: string,
                           durationMs: int, error: Option<string>, user: Option<string>, now: int)
      requires Valid()
      requires forall i :: 0 <= i < |history| ==> history[i].timestamp < now
      modifies this
      ensures Valid() && locks == old(locks)
      ensures history == old(history) + [Record(name, now, batch, status, checksum, ExecutedBy(user), durationMs, error)]
    {
      history := history + [Record(name, now, batch, status, checksum, ExecutedBy(user), durationMs, error)];
    }
  }
}
