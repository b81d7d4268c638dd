/** The SQL statements that src/database/adapters/pgDB.ts and src/database/db.ts build from the
    entries of a criteria or data object. A statement keeps its `column = $n` clauses as
    structured bindings; `Text` renders it exactly as the template literals do. */
module SqlText {
  import opened Wrappers
  import opened JsValue
  import opened Decimal
  import opened Seqs

  /** `Object.entries(o)`: own properties in order. */
  type Entries = seq<(string, Value)>

  /** One `column = $param` clause. */
  datatype Binding = Binding(column: string, param: nat)

  datatype Statement =
    | SelectOne(table: string, where: seq<Binding>)
    | SelectFiltered(table: string, where: seq<Binding>)
    | InsertRow(table: string, columns: seq<string>, placeholders: seq<nat>)
    | UpdateRows(table: string, assignments: seq<Binding>, where: seq<Binding>)
    | DeleteRows(table: string, where: seq<Binding>)

  /** The text and the parameter list handed to `pool.query`. */
  datatype Query = Query(statement: Statement, params: seq<Value>)

  function Key(e: (string, Value)): string { e.0 }

  function Val(e: (string, Value)): Value { e.1 }

  function Keys(entries: Entries): seq<string> { Map(entries, Key) }

  function Values(entries: Entries): seq<Value> { Map(entries, Val) }

  /** `entries.map((_, i) => `${entries[i][0]} = $${i + first}`)` before joining. */
  function Numbered(columns: seq<string>, first: nat): (bs: seq<Binding>)
    ensures |bs| == |columns|
    ensures forall i :: 0 <= i < |bs| ==> bs[i].column == columns[i] && bs[i].param == first + i
  {
    seq(|columns|, i requires 0 <= i < |columns| => Binding(columns[i], first + i))
  }

  /** The placeholders are `$first`, `$first+1`, ... in clause order. */
  ghost predicate NumberedFrom(bs: seq<Binding>, first: nat) {
    forall i :: 0 <= i < |bs| ==> bs[i].param == first + i
  }

  /** Clause i compares column `entries[i].0` with a placeholder `$p` whose parameter
      `params[p - 1]` is `entries[i].1`. */
  ghost predicate Binds(bs: seq<Binding>, params: seq<Value>, entries: Entries) {
    |bs| == |entries|
    && forall i :: 0 <= i < |bs| ==>
         bs[i].column == entries[i].0 && 1 <= bs[i].param <= |params| && params[bs[i].param - 1] == entries[i].1
  }

  /** Numbering the entries from one past `offset` binds each entry to its own value, when the
      parameter list holds the entries' values from position `offset` on. */
  lemma NumberedBindsEntries(entries: Entries, params: seq<Value>, offset: nat)
    requires offset + |entries| <= |params|
    requires forall i :: 0 <= i < |entries| ==> params[offset + i] == entries[i].1
    ensures Binds(Numbered(Keys(entries), offset + 1), params, entries)
    ensures NumberedFrom(Numbered(Keys(entries), offset + 1), offset + 1)
  {
  }

  /** The clauses of a statement that takes only these entries: `$1..$n`, each bound to its
      own entry's value. */
  lemma EntriesBindFromOne(entries: Entries)
    ensures NumberedFrom(Numbered(Keys(entries), 1), 1)
    ensures Binds(Numbered(Keys(entries), 1), Values(entries), entries)
  {
    NumberedBindsEntries(entries, Values(entries), 0);
  }

  // ---------------------------------------------------------------------------
  // Rendering

  /** `$${p}`. */
  function Placeholder(p: nat): string {
    "$" + NatToString(p)
  }

  /** Reads `$digits` back as the parameter position it names. */
  function ParsePlaceholder(s: string): Option<nat> {
    if |s| >= 2 && s[0] == '$' && AllDigits(s[1..]) then Some(DigitsValue(s[1..])) else None
  }

  /** The rendered placeholder names exactly the intended parameter position. */
  lemma PlaceholderRoundTrip(p: nat)
    ensures ParsePlaceholder(Placeholder(p)) == Some(p)
  {
    NatToStringRoundTrip(p);
    assert Placeholder(p)[1..] == NatToString(p);
  }

  function ClauseText(b: Binding): string {
    b.column + " = " + Placeholder(b.param)
  }

  function ClauseTexts(bs: seq<Binding>): seq<string> {
    Map(bs, ClauseText)
  }

  /** The summed lengths of the parts. */
  function TotalLength(parts: seq<string>): nat
    decreases |parts|
  {
    if parts == [] then 0 else |parts[0]| + TotalLength(parts[1..])
  }

  /** `Array.prototype.join(sep)`: the parts in order with one separator between neighbours;
      no parts give the empty string. */
  function Join(parts: seq<string>, sep: string): (r: string)
    ensures parts == [] ==> r == ""
    ensures parts != [] ==> StartsWith(r, parts[0]) && EndsWith(r, parts[|parts| - 1])
    decreases |parts|
  {
    if parts == [] then ""
    else if |parts| == 1 then parts[0]
    else
      var rest := parts[1..];
      var tail := Join(rest, sep);
      assert rest[|rest| - 1] == parts[|parts| - 1];
      StartsWithConcat(parts[0], sep + tail);
      EndsWithPrepend(parts[0] + sep, tail, parts[|parts| - 1]);
      parts[0] + sep + tail
  }

  /** n parts joined carry n - 1 separators: the length is the parts' total plus one
      separator between each pair of neighbours. */
  lemma {:induction false} JoinLength(parts: seq<string>, sep: string)
    requires parts != []
    ensures |Join(parts, sep)| == TotalLength(parts) + (|parts| - 1) * |sep|
    decreases |parts|
  {
    if |parts| > 1 {
      var rest := parts[1..];
      JoinLength(rest, sep);
      assert (|parts| - 1) * |sep| == (|rest| - 1) * |sep| + |sep|;
    }
  }

  function PlaceholderTexts(ps: seq<nat>): seq<string> {
    Map(ps, Placeholder)
  }

  /** The exact text of each statement's template literal: the verb and the table open it,
      `LIMIT 1` or `RETURNING *` close it where the template has them, and a filtered select
      has a WHERE line exactly when it has conditions. */
  function Text(s: Statement): (r: string)
    ensures s.SelectOne? ==> StartsWith(r, "SELECT * FROM " + s.table) && EndsWith(r, " LIMIT 1")
    ensures s.SelectFiltered? ==> StartsWith(r, "\n      SELECT * FROM " + s.table)
    ensures s.SelectFiltered? ==> (s.where == [] <==> |r| == 33 + |s.table|)
    ensures s.InsertRow? ==> StartsWith(r, "INSERT INTO " + s.table) && EndsWith(r, " RETURNING *")
    ensures s.UpdateRows? ==> StartsWith(r, "UPDATE " + s.table) && EndsWith(r, " RETURNING *")
    ensures s.DeleteRows? ==> StartsWith(r, "DELETE FROM " + s.table)
  {
    match s
    case SelectOne(t, w) =>
      var head, tail := "SELECT * FROM " + t, " WHERE " + Join(ClauseTexts(w), " AND ") + " LIMIT 1";
      StartsWithConcat(head, tail);
      EndsWithConcat(" WHERE " + Join(ClauseTexts(w), " AND "), " LIMIT 1");
      EndsWithPrepend(head, tail, " LIMIT 1");
      head + tail
    case SelectFiltered(t, w) =>
      var head := "\n      SELECT * FROM " + t;
      var tail := "\n      " + (if |w| > 0 then "WHERE " + Join(ClauseTexts(w), " AND ") else "") + "\n    ";
      StartsWithConcat(head, tail);
      head + tail
    case InsertRow(t, cols, ps) =>
      var head := "INSERT INTO " + t;
      var body := " (" + Join(cols, ", ") + ") VALUES (" + Join(PlaceholderTexts(ps), ", ") + ")";
      StartsWithConcat(head, body + " RETURNING *");
      EndsWithConcat(body, " RETURNING *");
      EndsWithPrepend(head, body + " RETURNING *", " RETURNING *");
      head + (body + " RETURNING *")
    case UpdateRows(t, assignments, w) =>
      var head := "UPDATE " + t;
      var body := " SET " + Join(ClauseTexts(assignments), ", ") + " WHERE " + Join(ClauseTexts(w), " AND ");
      StartsWithConcat(head, body + " RETURNING *");
      EndsWithConcat(body, " RETURNING *");
      EndsWithPrepend(head, body + " RETURNING *", " RETURNING *");
      head + (body + " RETURNING *")
    case DeleteRows(t, w) =>
      var head := "DELETE FROM " + t;
      StartsWithConcat(head, " WHERE " + Join(ClauseTexts(w), " AND "));
      head + (" WHERE " + Join(ClauseTexts(w), " AND "))
  }
}
