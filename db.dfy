/** `Database` of src/database/db.ts: the shared instance, the statements `findOne` and
    `buildQuery` build, and how `findOne` and `findOrFail` read the driver's answer. The pool,
    `findAll` and the execution of the statements are not modelled. */
module Db {
  import opened Wrappers
  import opened JsValue
  import opened Seqs
  import opened SqlText
  import PgAdapter

  /** The database object; its connection pool is not modelled. */
  class Database {
    constructor () {}
  }

  /** The class's static side, holding `Database.instance`. */
  class DatabaseClass {
    var instance: Database?

    constructor ()
      ensures instance == null
    {
      instance := null;
    }

    /** Creates the instance on the first call and returns that same instance on every call. */
    method GetInstance() returns (db: Database)
      modifies this
      ensures old(instance) == null ==> fresh(db)
      ensures old(instance) != null ==> db == old(instance)
      ensures instance == db
    {
      if instance == null {
        instance := new Database();
      }
      db := instance;
    }
  }

  /** `findOne`'s statement: `SELECT * FROM tableName WHERE k1 = $1 AND ... LIMIT 1`. */
  function FindOneQuery(tableName: string, conditions: Entries): (q: Query)
    ensures q.statement.SelectOne? && q.statement.table == tableName
    ensures NumberedFrom(q.statement.where, 1)
    ensures Binds(q.statement.where, q.params, conditions) && |q.params| == |conditions|
  {
    EntriesBindFromOne(conditions);
    Query(SelectOne(tableName, Numbered(Keys(conditions), 1)), Values(conditions))
  }

  /** Both database layers send the same statement for a lookup by criteria. */
  lemma FindOneQueriesAgree(tableName: string, conditions: Entries)
    ensures FindOneQuery(tableName, conditions) == PgAdapter.FindOne(tableName, conditions)
  {
  }

  /** `results.rowCount && results.rowCount > 0 ? results.rows[0] : null`: a null or zero row
      count gives null. A positive count with no rows gives `undefined`, also shown as None. */
  function FindOneResult<R>(rowCount: Option<int>, rows: seq<R>): (record: Option<R>)
    ensures record.Some? <==> rowCount.Some? && rowCount.value > 0 && rows != []
    ensures record.Some? ==> record.value == rows[0]
  {
    match rowCount
    case Some(n) => if n != 0 && n > 0 && rows != [] then Some(rows[0]) else None
    case None => None
  }

  /** `findOrFail`: the record `findOne` found, or the error "<tableName> record not found". */
  function FindOrFail<R>(tableName: string, rowCount: Option<int>, rows: seq<R>): (r: Result<R, string>)
    ensures r.Failure? <==> FindOneResult(rowCount, rows).None?
    ensures r.Failure? ==> r.error == tableName + " record not found"
    ensures r.Success? ==> rowCount.Some? && rowCount.value > 0 && rows != [] && r.value == rows[0]
  {
    match FindOneResult(rowCount, rows)
    case Some(record) => Success(record)
    case None => Failure(tableName + " record not found")
  }

  /** `if (value)`: an entry whose value is truthy. */
  predicate TruthyEntry(e: (string, Value)) { Truthy(e.1) }

  /** The filter entries `buildQuery` turns into conditions: the truthy ones, in entry order. */
  function Kept(filters: Entries): (kept: Entries)
    ensures |kept| <= |filters|
    ensures forall e :: e in kept <==> e in filters && Truthy(e.1)
  {
    var kept := Filter(filters, TruthyEntry);
    forall e ensures e in kept <==> e in filters && Truthy(e.1) {
      FilterMembership(filters, TruthyEntry, e);
    }
    kept
  }

  /** A falsy filter value (undefined, null, false, 0, "") adds no condition and no parameter. */
  lemma FalsyFilterIsSkipped(filters: Entries, key: string, value: Value)
    requires !Truthy(value)
    ensures Kept(filters + [(key, value)]) == Kept(filters)
  {
    var s := filters + [(key, value)];
    assert s[..|s| - 1] == filters;
  }

  /** Filters are independent: splitting the entries splits the kept entries. */
  lemma KeptAppend(a: Entries, b: Entries)
    ensures Kept(a + b) == Kept(a) + Kept(b)
  {
    FilterAppend(a, b, TruthyEntry);
  }

  /** Numbering a longer column list extends the numbering of its prefix by one clause. */
  lemma NumberedSnoc(columns: seq<string>, c: string, first: nat)
    ensures Numbered(columns + [c], first) == Numbered(columns, first) + [Binding(c, first + |columns|)]
  {
  }

  /** One more filter entry adds at most itself to the kept entries, and with it one column and
      one value. */
  lemma KeptSnoc(prefix: Entries, e: (string, Value))
    ensures Kept(prefix + [e]) == Kept(prefix) + (if Truthy(e.1) then [e] else [])
    ensures Truthy(e.1) ==> Keys(Kept(prefix + [e])) == Keys(Kept(prefix)) + [e.0]
                            && Values(Kept(prefix + [e])) == Values(Kept(prefix)) + [e.1]
    ensures !Truthy(e.1) ==> Kept(prefix + [e]) == Kept(prefix)
  {
    var s := prefix + [e];
    assert s[..|s| - 1] == prefix;
  }

  /** The conditions built from the kept entries bind each of them to its own value, and there
      are none exactly when every filter value is falsy. */
  lemma KeptConditions(filters: Entries)
    ensures var where := Numbered(Keys(Kept(filters)), 1);
            NumberedFrom(where, 1) && Binds(where, Values(Kept(filters)), Kept(filters))
            && (where == [] <==> forall i :: 0 <= i < |filters| ==> !Truthy(filters[i].1))
  {
    EntriesBindFromOne(Kept(filters));
    NothingKept(filters);
  }

  /** Nothing is kept exactly when every filter value is falsy. */
  lemma NothingKept(filters: Entries)
    ensures Kept(filters) == [] <==> forall i :: 0 <= i < |filters| ==> !Truthy(filters[i].1)
  {
    var kept := Kept(filters);
    if kept != [] {
      assert kept[0] in kept;
    } else {
      forall i | 0 <= i < |filters| ensures !Truthy(filters[i].1) {
        assert filters[i] in filters;
      }
    }
  }

  /** `buildQuery`: one `key = $n` condition and one parameter per truthy filter value, numbered
      from `$1` in entry order; no WHERE clause at all when nothing is kept. */
  method BuildQuery(tableName: string, filters: Entries) returns (q: Query)
    ensures q.statement == SelectFiltered(tableName, Numbered(Keys(Kept(filters)), 1))
    ensures q.params == Values(Kept(filters))
    ensures NumberedFrom(q.statement.where, 1) && Binds(q.statement.where, q.params, Kept(filters))
    ensures q.statement.where == [] <==> forall i :: 0 <= i < |filters| ==> !Truthy(filters[i].1)
  {
    var conditions: seq<Binding> := [];
    var params: seq<Value> := [];
    var paramIndex: nat := 1;
    for i := 0 to |filters|
      invariant conditions == Numbered(Keys(Kept(filters[..i])), 1)
      invariant params == Values(Kept(filters[..i]))
      invariant paramIndex == |params| + 1
    {
      var (key, value) := filters[i];
      assert filters[..i + 1] == filters[..i] + [(key, value)];
      KeptSnoc(filters[..i], (key, value));
      if Truthy(value) {
        NumberedSnoc(Keys(Kept(filters[..i])), key, 1);
        conditions := conditions + [Binding(key, paramIndex)];
        params := params + [value];
        paramIndex := paramIndex + 1;
      }
    }
    assert filters[..|filters|] == filters;
    q := Query(SelectFiltered(tableName, conditions), params);
    KeptConditions(filters);
  }
}
