/** `PgAdapter` of src/database/adapters/pgDB.ts: the lazily created shared instance, the
    statements its CRUD methods build, and how they read the driver's answer. The pool and the
    execution of the statements are not modelled. */
module PgAdapter {
  import opened Wrappers
  import opened JsValue
  import opened SqlText

  /** The adapter object; its connection pool is not modelled. */
  class PgAdapter {
    constructor () {}
  }

  /** The class's static side, holding `PgAdapter.instance`. */
  class PgAdapterClass {
    var instance: PgAdapter?

    constructor ()
      ensures instance == null
    {
      instance := null;
    }

    /** Creates the instance on the first call and returns that same instance on every call. */
    method GetInstance() returns (adapter: PgAdapter)
      modifies this
      ensures old(instance) == null ==> fresh(adapter)
      ensures old(instance) != null ==> adapter == old(instance)
      ensures instance == adapter
    {
      if instance == null {
        instance := new PgAdapter();
      }
      adapter := instance;
    }
  }

  /** `findOne`: `SELECT * FROM table WHERE k1 = $1 AND ... LIMIT 1` with the criteria values. */
  function FindOne(table: string, criteria: Entries): (q: Query)
    ensures q.statement.SelectOne? && q.statement.table == table
    ensures NumberedFrom(q.statement.where, 1)
    ensures Binds(q.statement.where, q.params, criteria) && |q.params| == |criteria|
  {
    EntriesBindFromOne(criteria);
    Query(SelectOne(table, Numbered(Keys(criteria), 1)), Values(criteria))
  }

  /** `result.rows[0] || null`: the first returned row, null when there is none. */
  function FindOneRow<R>(rows: seq<R>): (row: Option<R>)
    ensures row.None? <==> rows == []
    ensures row.Some? ==> row.value == rows[0]
  {
    if rows == [] then None else Some(rows[0])
  }

  /** `insert`: the columns in key order and exactly one placeholder `$i` per column. */
  function Insert(table: string, data: Entries): (q: Query)
    ensures q.statement.InsertRow? && q.statement.table == table
    ensures q.statement.columns == Keys(data) && q.params == Values(data)
    ensures |q.statement.placeholders| == |data|
    ensures forall i :: 0 <= i < |data| ==>
              q.statement.placeholders[i] == i + 1 && q.params[q.statement.placeholders[i] - 1] == data[i].1
  {
    var placeholders := seq(|data|, i requires 0 <= i < |data| => i + 1);
    Query(InsertRow(table, Keys(data), placeholders), Values(data))
  }

  /** `update`: SET placeholders `$1..$k` for the k data entries, WHERE placeholders
      `$(k+1)..$(k+m)` for the m criteria entries, and the data values before the criteria values. */
  function Update(table: string, criteria: Entries, data: Entries): (q: Query)
    ensures q.statement.UpdateRows? && q.statement.table == table
    ensures q.params == Values(data) + Values(criteria)
    ensures NumberedFrom(q.statement.assignments, 1) && Binds(q.statement.assignments, q.params, data)
    ensures NumberedFrom(q.statement.where, |data| + 1) && Binds(q.statement.where, q.params, criteria)
  {
    var params := Values(data) + Values(criteria);
    NumberedBindsEntries(data, params, 0);
    NumberedBindsEntries(criteria, params, |data|);
    Query(UpdateRows(table, Numbered(Keys(data), 1), Numbered(Keys(criteria), |data| + 1)),
          Values(data) + Values(criteria))
  }

  /** `delete`: `DELETE FROM table WHERE k1 = $1 AND ...` with the criteria values. */
  function Delete(table: string, criteria: Entries): (q: Query)
    ensures q.statement.DeleteRows? && q.statement.table == table
    ensures NumberedFrom(q.statement.where, 1)
    ensures Binds(q.statement.where, q.params, criteria) && |q.params| == |criteria|
  {
    EntriesBindFromOne(criteria);
    Query(DeleteRows(table, Numbered(Keys(criteria), 1)), Values(criteria))
  }

  /** `(result.rowCount ?? 0) > 0`: a null row count counts as nothing deleted. */
  function Deleted(rowCount: Option<int>): (deleted: bool)
    ensures deleted <==> rowCount.Some? && rowCount.value > 0
  {
    (match rowCount case Some(n) => n case None => 0) > 0
  }
}
