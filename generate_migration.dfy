/** The computed part of scripts/generateMigration.ts: the timestamp taken from
    `new Date().toISOString()`, the migration file name and the table name in its templates.
    The clock reading is an input; writing the file and exiting are not modelled. */
module GenerateMigration {
  import opened Wrappers
  import opened Seqs
  import opened Decimal
  import MigrationStatus

  /** The characters `/[-T:.Z]/g` matches. */
  const Separators: string := "-T:.Z"

  predicate KeptInStamp(c: char) { c !in Separators }

  /** `.replace(/[-T:.Z]/g, "")`: every separator character is dropped, the rest keep their order. */
  function Strip(iso: string): (stamp: string)
    ensures forall i :: 0 <= i < |stamp| ==> stamp[i] !in Separators
    ensures forall c :: c !in Separators ==> multiset(stamp)[c] == multiset(iso)[c]
  {
    var stamp := Filter(iso, KeptInStamp);
    forall i | 0 <= i < |stamp| ensures stamp[i] !in Separators {
      FilterMembership(iso, KeptInStamp, stamp[i]);
    }
    stamp
  }

  /** The fields of a `toISOString()` result `YYYY-MM-DDTHH:MM:SS.sssZ`. */
  datatype IsoParts = IsoParts(year: string, month: string, day: string,
                               hour: string, minute: string, second: string, millis: string)

  ghost predicate WellFormed(p: IsoParts) {
    |p.year| == 4 && |p.month| == 2 && |p.day| == 2 && |p.hour| == 2 && |p.minute| == 2
    && |p.second| == 2 && |p.millis| == 3
    && AllDigits(p.year) && AllDigits(p.month) && AllDigits(p.day) && AllDigits(p.hour)
    && AllDigits(p.minute) && AllDigits(p.second) && AllDigits(p.millis)
  }

  /** The text `toISOString()` produces for these fields. */
  function Iso(p: IsoParts): string {
    p.year + "-" + p.month + "-" + p.day + "T" + p.hour + ":" + p.minute + ":" + p.second + "." + p.millis + "Z"
  }

  /** The fields' digits run together: year, month, day, hour, minute, second, milliseconds. */
  function Digits(p: IsoParts): string {
    p.year + p.month + p.day + p.hour + p.minute + p.second + p.millis
  }

  /** Stripping a prefix followed by a digit field and one separator keeps exactly the field. */
  lemma StripFieldThenSeparator(prefix: string, field: string, sep: char)
    requires AllDigits(field) && sep in Separators
    ensures Strip(prefix + field + [sep]) == Strip(prefix) + field
  {
    FilterAppend(prefix + field, [sep], KeptInStamp);
    FilterAppend(prefix, field, KeptInStamp);
    FilterKeepsAll(field, KeptInStamp);
    assert [sep][..0] == [];
    assert Filter([sep], KeptInStamp) == Filter([], KeptInStamp) + [];
  }

  /** A well-formed ISO timestamp strips to its 17 digits. */
  lemma {:induction false} IsoStampIsSeventeenDigits(p: IsoParts)
    requires WellFormed(p)
    ensures Strip(Iso(p)) == Digits(p)
    ensures |Strip(Iso(p))| == 17 && AllDigits(Strip(Iso(p)))
  {
    var a1 := p.year + "-";
    var a2 := a1 + p.month + "-";
    var a3 := a2 + p.day + "T";
    var a4 := a3 + p.hour + ":";
    var a5 := a4 + p.minute + ":";
    var a6 := a5 + p.second + ".";
    var a7 := a6 + p.millis + "Z";
    assert a1 == [] + p.year + ['-'];
    StripFieldThenSeparator([], p.year, '-');
    StripFieldThenSeparator(a1, p.month, '-');
    StripFieldThenSeparator(a2, p.day, 'T');
    StripFieldThenSeparator(a3, p.hour, ':');
    StripFieldThenSeparator(a4, p.minute, ':');
    StripFieldThenSeparator(a5, p.second, '.');
    StripFieldThenSeparator(a6, p.millis, 'Z');
    assert Strip([]) == [];
    assert a7 == Iso(p);
    AllDigitsConcat(p.year, p.month);
    AllDigitsConcat(p.year + p.month, p.day);
    AllDigitsConcat(p.year + p.month + p.day, p.hour);
    AllDigitsConcat(p.year + p.month + p.day + p.hour, p.minute);
    AllDigitsConcat(p.year + p.month + p.day + p.hour + p.minute, p.second);
    AllDigitsConcat(p.year + p.month + p.day + p.hour + p.minute + p.second, p.millis);
  }

  /** ASCII `toLowerCase`. */
  function ToLowerChar(c: char): (l: char)
    ensures !('A' <= l <= 'Z')
    ensures 'A' <= c <= 'Z' ==> l as int == c as int + 32
    ensures !('A' <= c <= 'Z') ==> l == c
  {
    if 'A' <= c <= 'Z' then (c as int + 32) as char else c
  }

  function ToLower(s: string): (l: string)
    ensures |l| == |s| && forall i :: 0 <= i < |s| ==> l[i] == ToLowerChar(s[i])
  {
    seq(|s|, i requires 0 <= i < |s| => ToLowerChar(s[i]))
  }

  /** Lowercasing twice is lowercasing once. */
  lemma ToLowerIdempotent(s: string)
    ensures ToLower(ToLower(s)) == ToLower(s)
  {
  }

  /** What follows the stamp in a file name: "_create_", the lowercased model name, ".ts". */
  function CreateSuffix(modelName: string): (suffix: string)
    ensures |suffix| == 11 + |modelName|
    ensures suffix[..8] == "_create_" && suffix[8..|suffix| - 3] == ToLower(modelName)
    ensures EndsWith(suffix, ".ts")
  {
    "_create_" + ToLower(modelName) + ".ts"
  }

  /** `${timestamp}_create_${modelName.toLowerCase()}.ts`. */
  function FileName(stamp: string, modelName: string): (f: string)
    ensures StartsWith(f, stamp) && f[|stamp|..] == CreateSuffix(modelName)
    ensures MigrationStatus.IsTsFile(f)
  {
    var suffix := CreateSuffix(modelName);
    StartsWithConcat(stamp, suffix);
    EndsWithPrepend(stamp, suffix, ".ts");
    stamp + suffix
  }

  /** The name reads back: the stamp, then "_create_", the table name and ".ts". */
  lemma FileNameParts(p: IsoParts, modelName: string)
    requires WellFormed(p)
    ensures var f := FileName(Strip(Iso(p)), modelName);
            |f| == 28 + |modelName|
            && f[..17] == Digits(p) && f[17..25] == "_create_"
            && f[25..|f| - 3] == ToLower(modelName) && f[|f| - 3..] == ".ts"
  {
    IsoStampIsSeventeenDigits(p);
  }

  /** Because the stamp has a fixed width, file names sort as text in the order of their stamps,
      whatever the model names. */
  lemma FileNamesSortByStamp(p: IsoParts, q: IsoParts, m1: string, m2: string)
    requires WellFormed(p) && WellFormed(q)
    requires DigitsValue(Digits(p)) < DigitsValue(Digits(q))
    ensures LexLess(FileName(Strip(Iso(p)), m1), FileName(Strip(Iso(q)), m2))
  {
    IsoStampIsSeventeenDigits(p);
    IsoStampIsSeventeenDigits(q);
    EqualWidthDigitsOrder(Digits(p), Digits(q));
    LexLessExtend(Digits(p), Digits(q), CreateSuffix(m1), CreateSuffix(m2));
  }

  /** The `up` statement of the template. */
  function CreateTableSql(table: string): (sql: string)
    ensures StartsWith(sql, "\n    CREATE TABLE " + table)
  {
    var head := "\n    CREATE TABLE " + table;
    var columns := " (\n      id UUID PRIMARY KEY DEFAULT gen_random_uuid(),\n"
                   + "      created_at TIMESTAMP DEFAULT NOW(),\n      updated_at TIMESTAMP DEFAULT NOW()\n    )";
    StartsWithConcat(head, columns);
    head + columns
  }

  /** The `down` statement of the template. */
  function DropTableSql(table: string): (sql: string)
    ensures StartsWith(sql, "\n    DROP TABLE IF EXISTS " + table) && EndsWith(sql, ";\n  ")
  {
    var head := "\n    DROP TABLE IF EXISTS " + table;
    StartsWithConcat(head, ";\n  ");
    EndsWithConcat(head, ";\n  ");
    head + ";\n  "
  }

  datatype MigrationFile = MigrationFile(fileName: string, tableName: string, upSql: string, downSql: string)

  const UsageError: string := "Model name is required. Usage: yarn generate-migration <modelName>"

  /** `generateMigration(process.argv[2])` at the instant `iso`: an absent or empty model name is
      refused before anything is built; otherwise the file is named from the stamp and the
      lowercased model name, which is also the table both templates create and drop. */
  function Generate(modelName: Option<string>, iso: string): (r: Result<MigrationFile, string>)
    ensures r.Failure? <==> modelName.None? || modelName.value == ""
    ensures r.Failure? ==> r.error == UsageError
    ensures r.Success? ==>
              var table := ToLower(modelName.value);
              r.value.tableName == table
              && r.value.fileName == Strip(iso) + CreateSuffix(modelName.value)
              && r.value.upSql == CreateTableSql(table)
              && r.value.downSql == DropTableSql(table)
  {
    match modelName
    case None => Failure(UsageError)
    case Some(m) =>
      if m == "" then Failure(UsageError)
      else
        var table := ToLower(m);
        Success(MigrationFile(FileName(Strip(iso), m), table, CreateTableSql(table), DropTableSql(table)))
  }

  /** A generated file ends in ".ts", so the status report counts it as a migration. */
  lemma GeneratedFileIsCounted(modelName: Option<string>, iso: string)
    requires Generate(modelName, iso).Success?
    ensures MigrationStatus.IsTsFile(Generate(modelName, iso).value.fileName)
  {
    var f := Generate(modelName, iso).value.fileName;
    assert f[|f| - 3..] == ".ts";
  }
}
