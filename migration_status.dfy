/** The computed part of `showMigrationStatus` (scripts/migrationStatus.ts): the summary counts,
    the per-file table and the failed rows, all derived from the detailed status and the
    migration directory listing. Console output is not modelled. */
module MigrationStatus {
  import opened Wrappers
  import opened Seqs
  import opened Ledger
  import opened JsValue

  predicate IsTsFile(file: string) { EndsWith(file, ".ts") }

  /** `readdirSync(...).filter((file) => file.endsWith(".ts"))`. */
  function MigrationFiles(entries: seq<string>): (files: seq<string>)
    ensures forall f :: f in files <==> f in entries && IsTsFile(f)
    ensures forall f :: IsTsFile(f) ==> multiset(files)[f] == multiset(entries)[f]
  {
    var files := Filter(entries, IsTsFile);
    forall f ensures f in files <==> f in entries && IsTsFile(f) {
      FilterMembership(entries, IsTsFile, f);
    }
    files
  }

  predicate IsUpRow(m: DetailedRow) { m.status == Up }

  predicate IsErrorRow(m: DetailedRow) { m.status == Error }

  /** Total, executed, pending and failed as printed in the summary. */
  datatype Summary = Summary(total: nat, executed: nat, pending: int, failed: nat)

  /** `executed` and `failed` count the 'up' and the 'error' rows; `pending` is the rest of
      the files. */
  function Summarize(files: seq<string>, status: seq<DetailedRow>): (s: Summary)
    ensures s.total == |files|
    ensures s.executed == |Filter(status, IsUpRow)| && s.failed == |Filter(status, IsErrorRow)|
    ensures s.executed + s.failed <= |status|
    ensures s.pending == s.total - s.executed
  {
    var executed := Filter(status, IsUpRow);
    var failed := Filter(status, IsErrorRow);
    UpAndErrorRowsAreDisjoint(status);
    Summary(|files|, |executed|, |files| - |executed|, |failed|)
  }

  /** The counts are the numbers of status positions whose row is 'up' and 'error'. */
  lemma SummaryCountsRows(files: seq<string>, status: seq<DetailedRow>)
    ensures Summarize(files, status).executed == |Positions(status, IsUpRow)|
    ensures Summarize(files, status).failed == |Positions(status, IsErrorRow)|
  {
    FilterCountsPositions(status, IsUpRow);
    FilterCountsPositions(status, IsErrorRow);
  }

  /** One more status row raises `executed` by one exactly when it is 'up', and `failed` by one
      exactly when it is 'error'. */
  lemma SummaryAfterRow(files: seq<string>, status: seq<DetailedRow>, m: DetailedRow)
    ensures Summarize(files, status + [m]).executed
            == Summarize(files, status).executed + (if IsUpRow(m) then 1 else 0)
    ensures Summarize(files, status + [m]).failed
            == Summarize(files, status).failed + (if IsErrorRow(m) then 1 else 0)
  {
    FilterAppend(status, [m], IsUpRow);
    FilterAppend(status, [m], IsErrorRow);
    assert Filter([m], IsUpRow) == if IsUpRow(m) then [m] else [];
    assert Filter([m], IsErrorRow) == if IsErrorRow(m) then [m] else [];
  }

  /** No row is both 'up' and 'error', so the two counts together never exceed the rows. */
  lemma {:induction false} UpAndErrorRowsAreDisjoint(status: seq<DetailedRow>)
    ensures |Filter(status, IsUpRow)| + |Filter(status, IsErrorRow)| <= |status|
    decreases |status|
  {
    if status != [] {
      UpAndErrorRowsAreDisjoint(status[..|status| - 1]);
    }
  }

  /** Pending is not clamped: more 'up' rows than migration files make it negative. */
  lemma PendingMayBeNegative(m: DetailedRow)
    requires IsUpRow(m)
    ensures Summarize([], [m]).pending == -1
  {
    var status := [m];
    assert status[..|status| - 1] == [];
    assert Filter(status, IsUpRow) == Filter([], IsUpRow) + [m];
  }

  // ---------------------------------------------------------------------------
  // statusData

  /** A table cell that is either a value or "-". */
  datatype Cell<T> = Dash | Val(v: T)

  /** The Status column: a recorded status, or "Pending" for a file without a status row. */
  datatype StatusCell = Shown(status: Status) | Pending

  /** One row of `statusData`. The Avg Duration cell keeps the exact (total, runs) pair:
      `Math.round` and the "ms" suffix are not modelled; Last Run At keeps the raw timestamp. */
  datatype StatusRow = StatusRow(
    migration: string,
    status: StatusCell,
    batch: Cell<int>,
    duration: Cell<int>,
    avgDuration: Cell<(int, nat)>,
    executions: int,
    lastRunBy: Cell<string>,
    lastRunAt: Cell<int>)

  /** `status.find((m) => m.name === file)`: the first row with that name. */
  function FindByName(status: seq<DetailedRow>, name: string): (found: Option<nat>)
    ensures found.None? ==> forall i :: 0 <= i < |status| ==> status[i].name != name
    ensures found.Some? ==> found.value < |status| && status[found.value].name == name
                            && forall i :: 0 <= i < found.value ==> status[i].name != name
    decreases |status|
  {
    if status == [] then None
    else if status[0].name == name then Some(0)
    else match FindByName(status[1..], name)
      case None => None
      case Some(k) => Some(k + 1)
  }

  /** The row for a file with no status row: "Pending", 0 executions, "-" elsewhere. */
  function PendingRow(file: string): (row: StatusRow)
    ensures row.migration == file && row.status == Pending && row.executions == 0
    ensures row.batch == Dash && row.duration == Dash && row.avgDuration == Dash
    ensures row.lastRunBy == Dash && row.lastRunAt == Dash
  {
    StatusRow(file, Pending, Dash, Dash, Dash, 0, Dash, Dash)
  }

  /** The row for a file whose status row is `m`; `x || "-"` and `x ? ... : "-"` show "-" for
      falsy values (0, "", NULL). The driver returns `AVG(...)` as a numeric string, which is
      truthy even for zero, so the average is shown whenever the name has an 'up' row. */
  function RecordedRow(file: string, m: DetailedRow): (row: StatusRow)
    ensures row.migration == file && row.status == Shown(m.status) && row.executions == m.executionCount
    ensures row.batch == Dash <==> !Truthy(Num(m.batch))
    ensures row.batch.Val? ==> row.batch.v == m.batch
    ensures row.duration == Dash <==> !Truthy(Num(m.durationMs))
    ensures row.duration.Val? ==> row.duration.v == m.durationMs
    ensures row.avgDuration == Dash <==> m.upRuns == 0
    ensures row.avgDuration.Val? ==> row.avgDuration.v == (m.upDurationTotal, m.upRuns)
    ensures row.lastRunBy == Dash <==> !Truthy(Str(m.executedBy))
    ensures row.lastRunBy.Val? ==> row.lastRunBy.v == m.executedBy
    ensures row.lastRunAt == Val(m.timestamp)
  {
    StatusRow(
      file,
      Shown(m.status),
      if m.batch != 0 then Val(m.batch) else Dash,
      if m.durationMs != 0 then Val(m.durationMs) else Dash,
      if m.upRuns != 0 then Val((m.upDurationTotal, m.upRuns)) else Dash,
      m.executionCount,
      if m.executedBy != "" then Val(m.executedBy) else Dash,
      Val(m.timestamp))
  }

  function RowFor(file: string, status: seq<DetailedRow>): (row: StatusRow)
    ensures row.migration == file
    ensures (forall i :: 0 <= i < |status| ==> status[i].name != file) ==> row == PendingRow(file)
    ensures forall i :: 0 <= i < |status| && status[i].name == file && (forall j :: 0 <= j < i ==> status[j].name != file)
              ==> row == RecordedRow(file, status[i])
  {
    match FindByName(status, file)
    case None => PendingRow(file)
    case Some(k) =>
      assert forall i :: 0 <= i < |status| && status[i].name == file && (forall j :: 0 <= j < i ==> status[j].name != file) ==> i == k;
      RecordedRow(file, status[k])
  }

  /** `allMigrationFiles.map(...)`: one row per file, in file order. */
  function StatusData(files: seq<string>, status: seq<DetailedRow>): (rows: seq<StatusRow>)
    ensures |rows| == |files|
    ensures forall i :: 0 <= i < |files| ==> rows[i].migration == files[i]
    ensures forall i :: 0 <= i < |files| ==> rows[i] == RowFor(files[i], status)
    ensures forall i :: 0 <= i < |files| && (forall j :: 0 <= j < |status| ==> status[j].name != files[i])
              ==> rows[i] == PendingRow(files[i])
  {
    Map(files, (file: string) => RowFor(file, status))
  }

  /** `status.filter((m) => m.status === "error")`. */
  function FailedDetails(status: seq<DetailedRow>): (failed: seq<DetailedRow>)
    ensures forall m :: m in failed <==> m in status && IsErrorRow(m)
    ensures |failed| == Summarize([], status).failed
  {
    var failed := Filter(status, IsErrorRow);
    forall m ensures m in failed <==> m in status && IsErrorRow(m) {
      FilterMembership(status, IsErrorRow, m);
    }
    failed
  }

  /** The failed rows keep their original order: splitting the status list splits them. */
  lemma FailedDetailsKeepOrder(a: seq<DetailedRow>, b: seq<DetailedRow>)
    ensures FailedDetails(a + b) == FailedDetails(a) + FailedDetails(b)
  {
    FilterAppend(a, b, IsErrorRow);
  }

  // ---------------------------------------------------------------------------
  // Joining the directory listing with the ledger

  /** A migration file that no ledger row names is shown as "Pending". */
  lemma UnrecordedFileIsPending(h: seq<Record>, files: seq<string>, i: nat)
    requires i < |files| && !Recorded(h, files[i])
    ensures StatusData(files, DetailedStatus(h))[i] == PendingRow(files[i])
  {
    var status := DetailedStatus(h);
    DetailedStatusOneRowPerName(h);
    forall j | 0 <= j < |status| ensures status[j].name != files[i] {
      assert Recorded(h, status[j].name);
    }
  }

  /** A migration file that the ledger names is shown with the status and batch of the last
      ledger row carrying its name. */
  lemma RecordedFileShowsLatestRow(h: seq<Record>, files: seq<string>, i: nat)
    requires i < |files| && Recorded(h, files[i])
    ensures var last := h[LastIndexNamed(h, files[i]).value];
            StatusData(files, DetailedStatus(h))[i].status == Shown(last.status)
            && StatusData(files, DetailedStatus(h))[i].batch == if last.batch != 0 then Val(last.batch) else Dash
  {
    var status := DetailedStatus(h);
    DetailedStatusOneRowPerName(h);
    var a :| 0 <= a < |status| && status[a].name == files[i];
    forall j | 0 <= j < a ensures status[j].name != files[i] {
      assert status[j].name != status[a].name;
    }
    DetailedStatusFindsLastRow(h, a);
    assert RowFor(files[i], status) == RecordedRow(files[i], status[a]);
  }
}
