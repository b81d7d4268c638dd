/** The `migration_history` table of src/database/migrationHistory.ts and every query that reads it.
    The table is a sequence of rows in insertion order; `ORDER BY timestamp` is insertion order
    whenever the timestamps increase along it (`Chronological`), which `HistoryStore` keeps. */
module Ledger {
  import opened Wrappers
  import opened Seqs

  /** The `status` column: 'up', 'down' or 'error'. */
  datatype Status = Up | Down | Error

  /** One row of `migration_history`. The generated id, the created_at/updated_at defaults and the
      rolled_back_* columns (never written by the code) are not modelled. */
  datatype Record = Record(
    name: string,
    timestamp: int,
    batch: int,
    status: Status,
    checksum: string,
    executedBy: string,
    durationMs: int,
    error: Option<string>)

  function Timestamp(r: Record): int { r.timestamp }

  function Name(r: Record): string { r.name }

  predicate IsUp(r: Record) { r.status == Up }

  predicate IsUpFor(r: Record, name: string) { r.status == Up && r.name == name }

  /** Row filters of the queries below, as function values. */
  function Named(name: string): Record -> bool { (r: Record) => r.name == name }

  function UpNamed(name: string): Record -> bool { (r: Record) => IsUpFor(r, name) }

  function InBatch(batch: int): Record -> bool { (r: Record) => r.batch == batch }

  function UpInBatch(batch: int): Record -> bool { (r: Record) => IsUp(r) && r.batch == batch }

  /** Timestamps strictly increase in insertion order. */
  ghost predicate Chronological(h: seq<Record>) {
    Increasing(h, Timestamp)
  }

  // ---------------------------------------------------------------------------
  // getLatestBatch: SELECT COALESCE(MAX(batch), 0) ... WHERE status = 'up'

  /** MAX(batch) over the 'up' rows; None is SQL's NULL (there is no 'up' row). */
  function MaxUpBatch(h: seq<Record>): (m: Option<int>)
    ensures m.None? <==> forall i :: 0 <= i < |h| ==> !IsUp(h[i])
    ensures m.Some? ==> exists i :: 0 <= i < |h| && IsUp(h[i]) && h[i].batch == m.value
    ensures m.Some? ==> forall i :: 0 <= i < |h| && IsUp(h[i]) ==> h[i].batch <= m.value
    decreases |h|
  {
    if h == [] then None
    else
      var init, last := h[..|h| - 1], h[|h| - 1];
      var m := MaxUpBatch(init);
      assert forall i :: 0 <= i < |init| ==> init[i] == h[i];
      if !IsUp(last) then m
      else if m.None? || m.value < last.batch then Some(last.batch)
      else m
  }

  function LatestBatch(h: seq<Record>): (b: int)
    ensures (forall i :: 0 <= i < |h| ==> !IsUp(h[i])) ==> b == 0
    ensures (exists i :: 0 <= i < |h| && IsUp(h[i])) ==>
              (exists i :: 0 <= i < |h| && IsUp(h[i]) && h[i].batch == b)
              && forall i :: 0 <= i < |h| && IsUp(h[i]) ==> h[i].batch <= b
  {
    match MaxUpBatch(h)
    case None => 0
    case Some(m) => m
  }

  /** A 'down' or 'error' row never moves the latest batch; an 'up' row raises it to its batch. */
  lemma {:induction false} LatestBatchAfterRecord(h: seq<Record>, r: Record)
    ensures !IsUp(r) ==> LatestBatch(h + [r]) == LatestBatch(h)
    ensures IsUp(r) && MaxUpBatch(h).None? ==> LatestBatch(h + [r]) == r.batch
    ensures IsUp(r) && MaxUpBatch(h).Some? ==>
              LatestBatch(h + [r]) == if LatestBatch(h) < r.batch then r.batch else LatestBatch(h)
  {
    var h' := h + [r];
    assert h'[..|h'| - 1] == h && h'[|h'| - 1] == r;
  }

  // ---------------------------------------------------------------------------
  // getExecutedMigrations: SELECT name ... WHERE status = 'up' ORDER BY timestamp ASC

  /** The 'up' rows, in ledger order. */
  function UpRows(h: seq<Record>): (ups: seq<Record>)
    ensures forall r :: r in ups <==> r in h && IsUp(r)
  {
    var ups := Filter(h, IsUp);
    forall r ensures r in ups <==> r in h && IsUp(r) {
      FilterMembership(h, IsUp, r);
    }
    ups
  }

  /** A name is listed iff some 'up' row carries it. */
  function ExecutedMigrations(h: seq<Record>): (names: seq<string>)
    ensures forall n :: n in names <==> exists i :: 0 <= i < |h| && IsUpFor(h[i], n)
  {
    var ups := UpRows(h);
    var names := Map(ups, Name);
    forall n ensures n in names <==> exists i :: 0 <= i < |h| && IsUpFor(h[i], n) {
      if n in names {
        var a :| 0 <= a < |names| && names[a] == n;
        assert ups[a] in ups;
        var i :| 0 <= i < |h| && h[i] == ups[a];
        assert IsUpFor(h[i], n);
      }
      if exists i :: 0 <= i < |h| && IsUpFor(h[i], n) {
        var i :| 0 <= i < |h| && IsUpFor(h[i], n);
        assert h[i] in ups;
        var a :| 0 <= a < |ups| && ups[a] == h[i];
        assert names[a] == n;
      }
    }
    names
  }

  /** One name per 'up' row, each row's name at its position, in ascending timestamp order. */
  lemma ExecutedMigrationsInTimestampOrder(h: seq<Record>)
    requires Chronological(h)
    ensures |ExecutedMigrations(h)| == |UpRows(h)|
    ensures forall i :: 0 <= i < |UpRows(h)| ==> ExecutedMigrations(h)[i] == UpRows(h)[i].name && IsUp(UpRows(h)[i])
    ensures forall i, j :: 0 <= i < j < |UpRows(h)| ==> UpRows(h)[i].timestamp < UpRows(h)[j].timestamp
    ensures forall r :: IsUp(r) ==> multiset(UpRows(h))[r] == multiset(h)[r]
  {
    FilterKeepsIncreasing(h, IsUp, Timestamp);
    forall i | 0 <= i < |UpRows(h)| ensures IsUp(UpRows(h)[i]) {
      FilterMembership(h, IsUp, UpRows(h)[i]);
    }
  }

  /** Recording a row extends the executed list by its name exactly when it is 'up':
      a later 'down' or 'error' row for a name removes nothing. */
  lemma ExecutedMigrationsAfterRecord(h: seq<Record>, r: Record)
    ensures ExecutedMigrations(h + [r]) == ExecutedMigrations(h) + (if IsUp(r) then [r.name] else [])
  {
    var tail := if IsUp(r) then [r] else [];
    FilterAppend(h, [r], IsUp);
    assert Filter([r], IsUp) == tail;
    MapAppend(Filter(h, IsUp), tail, Name);
    assert Map(tail, Name) == if IsUp(r) then [r.name] else [];
  }

  // ---------------------------------------------------------------------------
  // getMigrationsInBatch: SELECT name ... WHERE batch = $1 AND status = 'up' ORDER BY timestamp ASC

  /** A name is listed iff some 'up' row of the batch carries it. */
  function MigrationsInBatch(h: seq<Record>, batch: int): (names: seq<string>)
    ensures forall n :: n in names <==> exists i :: 0 <= i < |h| && IsUpFor(h[i], n) && h[i].batch == batch
  {
    var rows := Filter(h, UpInBatch(batch));
    var names := Map(rows, Name);
    forall n ensures n in names <==> exists i :: 0 <= i < |h| && IsUpFor(h[i], n) && h[i].batch == batch {
      if n in names {
        var a :| 0 <= a < |names| && names[a] == n;
        FilterMembership(h, UpInBatch(batch), rows[a]);
        var i :| 0 <= i < |h| && h[i] == rows[a];
        assert IsUpFor(h[i], n) && h[i].batch == batch;
      }
      if exists i :: 0 <= i < |h| && IsUpFor(h[i], n) && h[i].batch == batch {
        var i :| 0 <= i < |h| && IsUpFor(h[i], n) && h[i].batch == batch;
        FilterMembership(h, UpInBatch(batch), h[i]);
        var a :| 0 <= a < |rows| && rows[a] == h[i];
        assert names[a] == n;
      }
    }
    names
  }

  /** The batch's names are the executed rows of that batch, in the same order. */
  lemma MigrationsInBatchIsSubsequenceOfExecuted(h: seq<Record>, batch: int)
    ensures MigrationsInBatch(h, batch) == Map(Filter(UpRows(h), InBatch(batch)), Name)
  {
    FilterTwice(h, IsUp, InBatch(batch), UpInBatch(batch));
  }

  // ---------------------------------------------------------------------------
  // validateMigration: SELECT checksum ... WHERE name = $1 AND status = 'up'
  //                    ORDER BY timestamp DESC LIMIT 1

  /** Position of the most recent 'up' row for `name`. */
  function LatestUpIndex(h: seq<Record>, name: string): (k: Option<nat>)
    ensures k.None? ==> forall i :: 0 <= i < |h| ==> !IsUpFor(h[i], name)
    ensures k.Some? ==> k.value < |h| && IsUpFor(h[k.value], name)
                        && forall j :: k.value < j < |h| ==> !IsUpFor(h[j], name)
    ensures k.Some? && Chronological(h) ==>
              forall j :: 0 <= j < |h| && IsUpFor(h[j], name) ==> h[j].timestamp <= h[k.value].timestamp
    decreases |h|
  {
    if h == [] then None
    else if IsUpFor(h[|h| - 1], name) then Some(|h| - 1)
    else
      var init := h[..|h| - 1];
      assert forall i :: 0 <= i < |init| ==> init[i] == h[i];
      assert Chronological(h) ==> Chronological(init);
      LatestUpIndex(init, name)
  }

  function ValidateMigration(h: seq<Record>, name: string, checksum: string): (ok: bool)
    ensures ok <==>
              (forall i :: 0 <= i < |h| ==> !IsUpFor(h[i], name))
              || exists i :: 0 <= i < |h| && IsUpFor(h[i], name) && h[i].checksum == checksum
                             && forall j :: i < j < |h| ==> !IsUpFor(h[j], name)
  {
    match LatestUpIndex(h, name)
    case None => true
    case Some(k) =>
      assert forall i :: 0 <= i < |h| && IsUpFor(h[i], name) && (forall j :: i < j < |h| ==> !IsUpFor(h[j], name)) ==> i == k;
      h[k].checksum == checksum
  }

  /** Drift detection: right after an 'up' row with checksum d for a name,
      validating that name passes with d and fails with every other checksum. */
  lemma ValidateAfterUp(h: seq<Record>, r: Record, checksum: string)
    requires IsUp(r)
    ensures ValidateMigration(h + [r], r.name, checksum) <==> checksum == r.checksum
  {
    var h' := h + [r];
    assert h'[|h'| - 1] == r;
  }

  /** A row that is not an 'up' row for `name` (in particular every 'down' row) leaves the
      validation of `name` as it was. */
  lemma ValidateIgnoresOtherRows(h: seq<Record>, r: Record, name: string, checksum: string)
    requires !IsUpFor(r, name)
    ensures ValidateMigration(h + [r], name, checksum) == ValidateMigration(h, name, checksum)
  {
    var h' := h + [r];
    assert h'[..|h'| - 1] == h;
  }

  // ---------------------------------------------------------------------------
  // getDetailedStatus: the latest row per name (ROW_NUMBER() OVER (PARTITION BY name
  // ORDER BY timestamp DESC) = 1), newest first, with COUNT(*) over the name's rows and
  // AVG(duration_ms) over the name's 'up' rows.

  /** Row `i` is the latest row carrying its name. */
  predicate IsLatestOfName(h: seq<Record>, i: nat)
    requires i < |h|
  {
    forall j :: i < j < |h| ==> h[j].name != h[i].name
  }

  /** Positions below `k` of rows that are the latest of their name, from the highest down. */
  function LatestIndices(h: seq<Record>, k: nat): (idx: seq<nat>)
    requires k <= |h|
    ensures forall a :: 0 <= a < |idx| ==> idx[a] < k && IsLatestOfName(h, idx[a])
    ensures forall a, b :: 0 <= a < b < |idx| ==> idx[a] > idx[b]
    ensures forall i :: 0 <= i < k && IsLatestOfName(h, i) ==> i in idx
    ensures |idx| <= k
  {
    if k == 0 then []
    else (if IsLatestOfName(h, k - 1) then [k - 1] else []) + LatestIndices(h, k - 1)
  }

  function SumDurations(rs: seq<Record>): int {
    if rs == [] then 0 else SumDurations(rs[..|rs| - 1]) + rs[|rs| - 1].durationMs
  }

  /** COUNT(*) of the rows for `name`. */
  function ExecutionCount(h: seq<Record>, name: string): (c: nat)
    ensures c <= |h|
    ensures c == 0 <==> forall i :: 0 <= i < |h| ==> h[i].name != name
  {
    FilterEmpty(h, Named(name));
    |Filter(h, Named(name))|
  }

  /** Number and total duration of the 'up' rows for `name`: AVG(duration_ms) is their quotient,
      NULL when there is no 'up' row. */
  function UpRuns(h: seq<Record>, name: string): (u: nat)
    ensures u <= ExecutionCount(h, name)
    ensures u == 0 <==> forall i :: 0 <= i < |h| ==> !IsUpFor(h[i], name)
  {
    FilterTwice(h, Named(name), IsUp, UpNamed(name));
    FilterEmpty(h, UpNamed(name));
    |Filter(h, UpNamed(name))|
  }

  /** With no 'up' row the total is 0 (and AVG is NULL). */
  function UpDurationTotal(h: seq<Record>, name: string): (total: int)
    ensures UpRuns(h, name) == 0 ==> total == 0
  {
    SumDurations(Filter(h, UpNamed(name)))
  }

  /** One row of the detailed status. The average duration is kept as the exact pair
      (upDurationTotal, upRuns) instead of a floating-point quotient. */
  datatype DetailedRow = DetailedRow(
    name: string,
    status: Status,
    batch: int,
    timestamp: int,
    executedBy: string,
    durationMs: int,
    error: Option<string>,
    executionCount: nat,
    upDurationTotal: int,
    upRuns: nat)

  /** The detailed row built from row `i`: its own columns, and the counts over its name. */
  function Detail(h: seq<Record>, i: nat): (row: DetailedRow)
    requires i < |h|
    ensures row.name == h[i].name && row.status == h[i].status && row.batch == h[i].batch
    ensures row.timestamp == h[i].timestamp && row.executedBy == h[i].executedBy
    ensures row.durationMs == h[i].durationMs && row.error == h[i].error
    ensures 1 <= row.executionCount && row.upRuns <= row.executionCount
    ensures row.upRuns == 0 ==> row.upDurationTotal == 0
  {
    var r := h[i];
    DetailedRow(r.name, r.status, r.batch, r.timestamp, r.executedBy, r.durationMs, r.error,
                ExecutionCount(h, r.name), UpDurationTotal(h, r.name), UpRuns(h, r.name))
  }

  /** At most one row per ledger row; each counts at least one execution, and no more 'up'
      runs than executions. */
  function DetailedStatus(h: seq<Record>): (rows: seq<DetailedRow>)
    ensures |rows| <= |h|
    ensures forall a :: 0 <= a < |rows| ==> 1 <= rows[a].executionCount && rows[a].upRuns <= rows[a].executionCount
  {
    var idx := LatestIndices(h, |h|);
    seq(|idx|, a requires 0 <= a < |idx| => Detail(h, idx[a]))
  }

  /** Some row carries `name`. */
  predicate Recorded(h: seq<Record>, name: string) {
    exists i :: 0 <= i < |h| && h[i].name == name
  }

  /** Position of the last row carrying `name`. */
  function LastIndexNamed(h: seq<Record>, name: string): (k: Option<nat>)
    ensures k.None? <==> forall i :: 0 <= i < |h| ==> h[i].name != name
    ensures k.Some? ==> k.value < |h| && h[k.value].name == name && IsLatestOfName(h, k.value)
    decreases |h|
  {
    if h == [] then None
    else if h[|h| - 1].name == name then Some(|h| - 1)
    else
      var init := h[..|h| - 1];
      assert forall i :: 0 <= i < |init| ==> init[i] == h[i];
      LastIndexNamed(init, name)
  }

  lemma CountedRowsAreNonEmpty(h: seq<Record>, i: nat)
    requires i < |h|
    ensures ExecutionCount(h, h[i].name) >= 1
  {
    FilterMembership(h, Named(h[i].name), h[i]);
  }

  /** Exactly one detailed row per distinct name of the ledger. */
  lemma {:induction false} DetailedStatusOneRowPerName(h: seq<Record>)
    ensures var rows := DetailedStatus(h);
            forall a, b :: 0 <= a < b < |rows| ==> rows[a].name != rows[b].name
    ensures var rows := DetailedStatus(h);
            forall a :: 0 <= a < |rows| ==> Recorded(h, rows[a].name)
    ensures forall name :: Recorded(h, name) ==>
              exists a :: 0 <= a < |DetailedStatus(h)| && DetailedStatus(h)[a].name == name
  {
    var rows := DetailedStatus(h);
    var idx := LatestIndices(h, |h|);
    forall a, b | 0 <= a < b < |rows| ensures rows[a].name != rows[b].name {
      assert idx[a] > idx[b];
      assert IsLatestOfName(h, idx[b]);
    }
    forall a | 0 <= a < |rows| ensures Recorded(h, rows[a].name) {
      var i := idx[a];
      assert rows[a] == Detail(h, i);
      assert 0 <= i < |h| && h[i].name == rows[a].name;
    }
    forall name | Recorded(h, name)
      ensures exists a :: 0 <= a < |rows| && rows[a].name == name
    {
      var k := LastIndexNamed(h, name).value;
      assert k in idx;
      var a :| 0 <= a < |idx| && idx[a] == k;
      assert rows[a].name == name;
    }
  }

  /** Each detailed row is taken from the latest row of its name, counts every row of that
      name (so at least one), and averages over that name's 'up' rows only. */
  lemma DetailedStatusRowIsLatest(h: seq<Record>, a: nat)
    requires a < |DetailedStatus(h)|
    ensures var row := DetailedStatus(h)[a];
            exists i :: 0 <= i < |h| && IsLatestOfName(h, i) && h[i].name == row.name
                        && row.status == h[i].status && row.batch == h[i].batch
                        && row.timestamp == h[i].timestamp && row.durationMs == h[i].durationMs
                        && row.executedBy == h[i].executedBy && row.error == h[i].error
    ensures var row := DetailedStatus(h)[a];
            row.executionCount == ExecutionCount(h, row.name) >= 1
            && row.upRuns == UpRuns(h, row.name) && row.upDurationTotal == UpDurationTotal(h, row.name)
  {
    var i := LatestIndices(h, |h|)[a];
    CountedRowsAreNonEmpty(h, i);
  }

  /** Newest first: the detailed rows are in descending timestamp order. */
  lemma DetailedStatusNewestFirst(h: seq<Record>)
    requires Chronological(h)
    ensures var rows := DetailedStatus(h);
            forall a, b :: 0 <= a < b < |rows| ==> rows[a].timestamp > rows[b].timestamp
  {
  }

  /** The detailed row for a name is that name's last row. */
  lemma DetailedStatusFindsLastRow(h: seq<Record>, a: nat)
    requires a < |DetailedStatus(h)|
    ensures var row := DetailedStatus(h)[a];
            LastIndexNamed(h, row.name).Some?
            && row.status == h[LastIndexNamed(h, row.name).value].status
            && row.batch == h[LastIndexNamed(h, row.name).value].batch
  {
    var i := LatestIndices(h, |h|)[a];
    var k := LastIndexNamed(h, h[i].name).value;
    assert !(i < k) && !(k < i);
  }

  /** Recording a row counts one more execution for its name; only an 'up' row enters the
      average, so 'down' and 'error' rows leave it as it was. */
  lemma {:induction false} AggregatesAfterRecord(h: seq<Record>, r: Record, name: string)
    ensures ExecutionCount(h + [r], name) == ExecutionCount(h, name) + (if r.name == name then 1 else 0)
    ensures UpRuns(h + [r], name) == UpRuns(h, name) + (if IsUpFor(r, name) then 1 else 0)
    ensures UpDurationTotal(h + [r], name) == UpDurationTotal(h, name) + (if IsUpFor(r, name) then r.durationMs else 0)
  {
    var h' := h + [r];
    assert h'[..|h'| - 1] == h && h'[|h'| - 1] == r;
    var ups := Filter(h, UpNamed(name));
    if IsUpFor(r, name) {
      var ups' := ups + [r];
      assert Filter(h', UpNamed(name)) == ups';
      assert ups'[..|ups'| - 1] == ups;
    } else {
      assert Filter(h', UpNamed(name)) == ups;
    }
  }
}
