/**
 * The PostgreSQL dialect: identifier quoting, the type map, default-literal
 * formatting and the CREATE TABLE, DROP TABLE and ALTER TABLE statements.
 * Every operation is a pure function of its arguments; the source's loops only
 * append to a local slice, so they appear here as maps and filters.
 */
module Dialect {

  import opened Wrappers
  import opened Text
  import opened Types

  /** The dialect's `Name()`. */
  const DialectName: string := "postgresql"

  /** Wraps in double quotes; quotes inside `name` are not escaped. */
  function QuoteIdentifier(name: string): (r: string)
    ensures |r| == |name| + 2
    ensures r[0] == '"' && r[|r| - 1] == '"'
    ensures r[1..|r| - 1] == name
  {
    "\"" + name + "\""
  }

  /** The source's fixed type table; its keys are matched case-sensitively. */
  const PostgresTypes: map<string, string> := map[
    "varchar" := "VARCHAR(255)",
    "int" := "INTEGER",
    "bigint" := "BIGINT",
    "smallint" := "SMALLINT",
    "float" := "REAL",
    "double" := "DOUBLE PRECISION",
    "decimal" := "DECIMAL(10,2)",
    "boolean" := "BOOLEAN",
    "text" := "TEXT",
    "date" := "DATE",
    "time" := "TIME",
    "timestamp" := "TIMESTAMP",
    "uuid" := "UUID",
    "json" := "JSON",
    "jsonb" := "JSONB",
    "binary" := "BYTEA",
    "serial" := "SERIAL",
    "bigserial" := "BIGSERIAL"]

  /** `mapDataType`: the table entry for a known name, otherwise the name upper-cased. */
  function MapDataType(dataType: string): (r: string)
    ensures NoLower(r)
  {
    match dataType
    case "varchar" => "VARCHAR(255)"
    case "int" => "INTEGER"
    case "bigint" => "BIGINT"
    case "smallint" => "SMALLINT"
    case "float" => "REAL"
    case "double" => "DOUBLE PRECISION"
    case "decimal" => "DECIMAL(10,2)"
    case "boolean" => "BOOLEAN"
    case "text" => "TEXT"
    case "date" => "DATE"
    case "time" => "TIME"
    case "timestamp" => "TIMESTAMP"
    case "uuid" => "UUID"
    case "json" => "JSON"
    case "jsonb" => "JSONB"
    case "binary" => "BYTEA"
    case "serial" => "SERIAL"
    case "bigserial" => "BIGSERIAL"
    case _ => ToUpper(dataType)
  }

  /** A name in the table maps to its table entry. */
  lemma MapDataTypeKnown(dataType: string)
    requires dataType in PostgresTypes
    ensures MapDataType(dataType) == PostgresTypes[dataType]
  {
  }

  /** A name outside the table is upper-cased. */
  lemma MapDataTypeUnknown(dataType: string)
    requires dataType !in PostgresTypes
    ensures MapDataType(dataType) == ToUpper(dataType)
  {
  }

  /**
   * `formatDefault`: a string between single quotes exactly as given (no
   * escaping), TRUE or FALSE for a boolean, the `%v` text of anything else.
   */
  function FormatDefault(value: DefaultValue): (r: string)
    ensures value.Str? ==>
      |r| == |value.s| + 2 && r[0] == '\'' && r[|r| - 1] == '\'' && r[1..|r| - 1] == value.s
    ensures value.Bool? ==> r == if value.b then "TRUE" else "FALSE"
    ensures value.Int? ==> CanonicalInt(r) && ParseInt(r) == Some(value.i)
    ensures value.Other? ==> r == value.text
  {
    match value
    case Str(s) => "'" + s + "'"
    case Bool(b) => if b then "TRUE" else "FALSE"
    case Int(i) => IntToString(i)
    case Other(text) => text
  }

  /** `[clause]` when `present`, nothing otherwise. */
  function Optional(present: bool, clause: string): seq<string> {
    if present then [clause] else []
  }

  /** `[keyword + text]` when there is a text, nothing otherwise. */
  function OptionalKeyword(keyword: string, text: Option<string>): seq<string> {
    if text.Some? then [keyword + text.value] else []
  }

  /** The literal after DEFAULT, present iff the column has a default. */
  function DefaultLiteral(col: Column): Option<string> {
    if col.hasDefault then Some(FormatDefault(col.defaultValue)) else None
  }

  /** The target after REFERENCES, present iff both the table and the column are set. */
  function ReferenceTarget(col: Column): Option<string> {
    if col.refTable != "" && col.refColumn != ""
    then Some(QuoteIdentifier(col.refTable) + "(" + QuoteIdentifier(col.refColumn) + ")")
    else None
  }

  /** The clauses after the name and type, in their fixed order, each at most once. */
  function ColumnClauses(col: Column): (clauses: seq<string>)
    ensures |clauses| <= 5
  {
    Optional(col.isPrimaryKey, "PRIMARY KEY")
    + Optional(col.isNotNull && !col.isPrimaryKey, "NOT NULL")
    + Optional(col.isUnique && !col.isPrimaryKey, "UNIQUE")
    + OptionalKeyword("DEFAULT ", DefaultLiteral(col))
    + OptionalKeyword("REFERENCES ", ReferenceTarget(col))
  }

  /** The space-separated parts of a column definition. */
  function ColumnParts(col: Column): (parts: seq<string>)
    ensures |parts| >= 2
    ensures parts[0] == QuoteIdentifier(col.name) && parts[1] == MapDataType(col.dataType)
    ensures parts[2..] == ColumnClauses(col)
  {
    [QuoteIdentifier(col.name), MapDataType(col.dataType)] + ColumnClauses(col)
  }

  /** `ColumnDefinitionSQL`: starts with the quoted name and the mapped type. */
  function ColumnDefinitionSQL(col: Column): (r: string)
    ensures HasPrefix(r, QuoteIdentifier(col.name) + " " + MapDataType(col.dataType))
  {
    var parts := ColumnParts(col);
    JoinPrefix(parts, " ");
    Join(parts, " ")
  }

  /** The first two parts of a join of at least two parts, with the separator between. */
  lemma JoinPrefix(parts: seq<string>, sep: string)
    requires |parts| >= 2
    ensures HasPrefix(Join(parts, sep), parts[0] + sep + parts[1])
  {
    if |parts| == 2 {
      assert Join(parts, sep) == parts[0] + sep + parts[1];
    } else {
      var tail := Join(parts[1..], sep);
      assert HasPrefix(tail, parts[1]) by { JoinHead(parts[1..], sep); }
      assert Join(parts, sep) == parts[0] + sep + tail;
      assert (parts[0] + sep + tail)[..|parts[0] + sep + parts[1]|] == parts[0] + sep + parts[1];
    }
  }

  lemma JoinHead(parts: seq<string>, sep: string)
    requires |parts| >= 1
    ensures HasPrefix(Join(parts, sep), parts[0])
  {
    if |parts| > 1 {
      assert Join(parts, sep) == parts[0] + (sep + Join(parts[1..], sep));
    }
  }

  /** What a reader of a clause list recovers. */
  datatype ClauseSummary = ClauseSummary(
    primaryKey: bool,
    notNull: bool,
    unique: bool,
    defaultLiteral: Option<string>,
    references: Option<string>)

  /** Consumes `clause` if it comes first. */
  function TakeWord(parts: seq<string>, clause: string): (bool, seq<string>) {
    if |parts| > 0 && parts[0] == clause then (true, parts[1..]) else (false, parts)
  }

  /** Consumes a first part that starts with `keyword`, returning what follows the keyword. */
  function TakeKeyword(parts: seq<string>, keyword: string): (Option<string>, seq<string>) {
    if |parts| > 0 && HasPrefix(parts[0], keyword) then (Some(parts[0][|keyword|..]), parts[1..])
    else (None, parts)
  }

  /**
   * Reads a clause list that follows the fixed order PRIMARY KEY, NOT NULL,
   * UNIQUE, DEFAULT, REFERENCES, each at most once; anything else is rejected.
   */
  function ReadClauses(parts: seq<string>): Option<ClauseSummary> {
    var (pk, p1) := TakeWord(parts, "PRIMARY KEY");
    var (nn, p2) := TakeWord(p1, "NOT NULL");
    var (uq, p3) := TakeWord(p2, "UNIQUE");
    var (df, p4) := TakeKeyword(p3, "DEFAULT ");
    var (rf, p5) := TakeKeyword(p4, "REFERENCES ");
    if p5 == [] then Some(ClauseSummary(pk, nn, uq, df, rf)) else None
  }

  /** The first part, if any, is non-empty and does not start with `c`. */
  predicate HeadNot(parts: seq<string>, c: char) {
    parts == [] || (|parts[0]| > 0 && parts[0][0] != c)
  }

  lemma TakeOptional(present: bool, clause: string, rest: seq<string>)
    requires |clause| > 0 && HeadNot(rest, clause[0])
    ensures TakeWord(Optional(present, clause) + rest, clause) == (present, rest)
  {
    if present {
      assert ([clause] + rest)[1..] == rest;
    } else {
      assert Optional(present, clause) + rest == rest;
    }
  }

  lemma TakeOptionalKeyword(keyword: string, text: Option<string>, rest: seq<string>)
    requires |keyword| > 0 && HeadNot(rest, keyword[0])
    ensures TakeKeyword(OptionalKeyword(keyword, text) + rest, keyword) == (text, rest)
  {
    if text.Some? {
      var part := keyword + text.value;
      assert ([part] + rest)[0] == part && ([part] + rest)[1..] == rest;
      assert part[..|keyword|] == keyword && part[|keyword|..] == text.value;
    } else {
      assert OptionalKeyword(keyword, text) + rest == rest;
      if rest != [] {
        assert rest[0][0] != keyword[0];
      }
    }
  }

  /** The DEFAULT and REFERENCES parts read back, and what precedes them can start with neither. */
  lemma ReadKeywordClauses(df: Option<string>, rf: Option<string>)
    ensures var p4, p5 := OptionalKeyword("DEFAULT ", df), OptionalKeyword("REFERENCES ", rf);
      TakeKeyword(p4 + p5, "DEFAULT ") == (df, p5) && TakeKeyword(p5, "REFERENCES ") == (rf, [])
      && HeadNot(p4 + p5, 'U') && HeadNot(p4 + p5, 'N') && HeadNot(p4 + p5, 'P')
  {
    var p4, p5 := OptionalKeyword("DEFAULT ", df), OptionalKeyword("REFERENCES ", rf);
    TakeOptionalKeyword("REFERENCES ", rf, []);
    assert p5 + [] == p5;
    assert HeadNot(p5, 'D');
    TakeOptionalKeyword("DEFAULT ", df, p5);
  }

  /** Any clause list built in the fixed order reads back as what it was built from. */
  lemma ReadOrderedClauses(pk: bool, nn: bool, uq: bool, df: Option<string>, rf: Option<string>)
    ensures ReadClauses(Optional(pk, "PRIMARY KEY") + Optional(nn, "NOT NULL") + Optional(uq, "UNIQUE")
                        + OptionalKeyword("DEFAULT ", df) + OptionalKeyword("REFERENCES ", rf))
         == Some(ClauseSummary(pk, nn, uq, df, rf))
  {
    var p1 := Optional(pk, "PRIMARY KEY");
    var p2 := Optional(nn, "NOT NULL");
    var p3 := Optional(uq, "UNIQUE");
    var p4 := OptionalKeyword("DEFAULT ", df);
    var p5 := OptionalKeyword("REFERENCES ", rf);
    assert p1 + p2 + p3 + p4 + p5 == p1 + (p2 + (p3 + (p4 + p5)));
    ReadKeywordClauses(df, rf);
    TakeOptional(uq, "UNIQUE", p4 + p5);
    assert HeadNot(p3 + (p4 + p5), 'N');
    TakeOptional(nn, "NOT NULL", p3 + (p4 + p5));
    assert HeadNot(p2 + (p3 + (p4 + p5)), 'P');
    TakeOptional(pk, "PRIMARY KEY", p2 + (p3 + (p4 + p5)));
  }

  /**
   * The clauses of a column definition read back in their fixed order: PRIMARY
   * KEY iff primary, NOT NULL and UNIQUE only for non-primary columns, a
   * DEFAULT literal iff the column has a default, a reference iff both the
   * referenced table and column are set.
   */
  lemma ColumnClausesRoundTrip(col: Column)
    ensures ReadClauses(ColumnClauses(col)) == Some(ClauseSummary(
      col.isPrimaryKey,
      col.isNotNull && !col.isPrimaryKey,
      col.isUnique && !col.isPrimaryKey,
      DefaultLiteral(col),
      ReferenceTarget(col)))
  {
    ReadOrderedClauses(col.isPrimaryKey, col.isNotNull && !col.isPrimaryKey, col.isUnique && !col.isPrimaryKey,
                       DefaultLiteral(col), ReferenceTarget(col));
  }

  /** A primary-key column never carries NOT NULL or UNIQUE, whatever its flags. */
  lemma PrimaryKeySuppressesFlags(col: Column)
    requires col.isPrimaryKey
    ensures "NOT NULL" !in ColumnClauses(col) && "UNIQUE" !in ColumnClauses(col)
    ensures ColumnClauses(col)[0] == "PRIMARY KEY"
  {
    ColumnClausesRoundTrip(col);
    var clauses := ColumnClauses(col);
    forall x | x in clauses[1..] ensures x != "NOT NULL" && x != "UNIQUE" {
      assert x[0] == 'D' || x[0] == 'R';
    }
  }

  /** The definition depends on no column field but the ones it prints. */
  lemma DefinitionIgnoresSizes(col: Column, length: int, precision: int, scale: int, comment: string, unsigned: bool)
    ensures ColumnDefinitionSQL(col) ==
      ColumnDefinitionSQL(col.(length := length, precision := precision, scale := scale,
                               comment := comment, isUnsigned := unsigned))
  {
  }

  /** One definition per column, in column order. */
  function ColumnDefinitions(cols: seq<Column>): (defs: seq<string>)
    ensures |defs| == |cols|
    ensures forall i :: 0 <= i < |cols| ==> defs[i] == ColumnDefinitionSQL(cols[i])
  {
    if cols == [] then [] else [ColumnDefinitionSQL(cols[0])] + ColumnDefinitions(cols[1..])
  }

  const CreateOpen: string := " (\n  "
  const CreateSep: string := ",\n  "
  const CreateClose: string := "\n);"

  /** Everything before the column definitions. */
  function CreateHead(name: string): string {
    "CREATE TABLE " + QuoteIdentifier(name) + CreateOpen
  }

  /** The three parts of `a + b + c` can be read back by position. */
  lemma ThreeParts(a: string, b: string, c: string)
    ensures HasPrefix(a + b + c, a)
    ensures (a + b + c)[|a|..|a + b + c| - |c|] == b
    ensures (a + b + c)[|a + b + c| - |c|..] == c
  {
    var r := a + b + c;
    assert r[..|a|] == a;
    assert r[|a|..|r| - |c|] == b;
  }

  /**
   * `CreateTableSQL`: the head naming the quoted table, the column
   * definitions joined by a comma and a new line, and the closing parenthesis.
   */
  function CreateTableSQL(table: Table): (r: string)
    ensures HasPrefix(r, CreateHead(table.name))
    ensures |r| >= |CreateHead(table.name)| + |CreateClose|
    ensures r[|r| - |CreateClose|..] == CreateClose
    ensures r[|CreateHead(table.name)|..|r| - |CreateClose|] == Join(ColumnDefinitions(table.columns), CreateSep)
  {
    var head := CreateHead(table.name);
    var body := Join(ColumnDefinitions(table.columns), CreateSep);
    ThreeParts(head, body, CreateClose);
    head + body + CreateClose
  }

  /** The definitions of an extended column list extend the definitions. */
  lemma {:induction false} ColumnDefinitionsAppend(cols: seq<Column>, col: Column)
    ensures ColumnDefinitions(cols + [col]) == ColumnDefinitions(cols) + [ColumnDefinitionSQL(col)]
  {
    if cols == [] {
      assert cols + [col] == [col];
    } else {
      assert (cols + [col])[1..] == cols[1..] + [col];
      ColumnDefinitionsAppend(cols[1..], col);
    }
  }

  /** Adding a column adds one definition after the others, behind the separator. */
  lemma CreateTableAppendColumn(table: Table, col: Column)
    requires |table.columns| >= 1
    ensures CreateTableSQL(table.(columns := table.columns + [col]))
         == CreateHead(table.name)
            + (Join(ColumnDefinitions(table.columns), CreateSep) + CreateSep + ColumnDefinitionSQL(col))
            + CreateClose
  {
    var defs := ColumnDefinitions(table.columns);
    var def := ColumnDefinitionSQL(col);
    ColumnDefinitionsAppend(table.columns, col);
    JoinSnoc(defs, def, CreateSep);
  }

  /** A single-column body is that column's definition. */
  lemma CreateTableSingleColumn(table: Table)
    requires |table.columns| == 1
    ensures CreateTableSQL(table) == CreateHead(table.name) + ColumnDefinitionSQL(table.columns[0]) + CreateClose
  {
  }

  /** Joining three parts. */
  lemma JoinThree(a: string, b: string, c: string, sep: string)
    ensures Join([a, b, c], sep) == a + sep + b + sep + c
  {
    assert [a, b, c][1..] == [b, c];
    assert [b, c][1..] == [c];
  }

  /** The column of the primary-key example: an integer primary key `id`. */
  function ExampleIdColumn(): Column {
    NewColumn("id", "int").(isPrimaryKey := true)
  }

  lemma ExampleIdDefinition()
    ensures ColumnDefinitionSQL(ExampleIdColumn()) == "\"id\"" + " " + "INTEGER" + " " + "PRIMARY KEY"
  {
    var col := ExampleIdColumn();
    assert ColumnClauses(col) == ["PRIMARY KEY"];
    var q, m := QuoteIdentifier("id"), MapDataType("int");
    assert q == "\"id\"" && m == "INTEGER";
    assert ColumnParts(col) == [q, m, "PRIMARY KEY"];
    JoinThree(q, m, "PRIMARY KEY", " ");
  }

  /** The primary-key example: table `t` holding only the `id` column. */
  lemma CreateTableExample()
    ensures CreateTableSQL(Table("t", [ExampleIdColumn()], []))
         == ("CREATE TABLE " + "\"t\"" + " (\n  ") + ("\"id\"" + " " + "INTEGER" + " " + "PRIMARY KEY") + "\n);"
  {
    CreateTableSingleColumn(Table("t", [ExampleIdColumn()], []));
    ExampleIdDefinition();
  }

  /** `DropTableSQL`: the statement names exactly the quoted table. */
  function DropTableSQL(name: string): (r: string)
    ensures HasPrefix(r, "DROP TABLE ") && r[|r| - 1] == ';'
    ensures r[|"DROP TABLE "|..|r| - 1] == QuoteIdentifier(name)
  {
    var r := "DROP TABLE " + QuoteIdentifier(name) + ";";
    assert r[..|"DROP TABLE "|] == "DROP TABLE ";
    r
  }

  /** `DropTableIfExistsSQL`: the statement names exactly the quoted table. */
  function DropTableIfExistsSQL(name: string): (r: string)
    ensures HasPrefix(r, "DROP TABLE IF EXISTS ") && r[|r| - 1] == ';'
    ensures r[|"DROP TABLE IF EXISTS "|..|r| - 1] == QuoteIdentifier(name)
  {
    var r := "DROP TABLE IF EXISTS " + QuoteIdentifier(name) + ";";
    assert r[..|"DROP TABLE IF EXISTS "|] == "DROP TABLE IF EXISTS ";
    r
  }

  /** Distinct tables get distinct DROP statements. */
  lemma DropTableInjective(a: string, b: string)
    ensures DropTableSQL(a) == DropTableSQL(b) ==> a == b
    ensures DropTableIfExistsSQL(a) == DropTableIfExistsSQL(b) ==> a == b
  {
    if DropTableSQL(a) == DropTableSQL(b) {
      assert QuoteIdentifier(a) == QuoteIdentifier(b);
    }
    if DropTableIfExistsSQL(a) == DropTableIfExistsSQL(b) {
      assert QuoteIdentifier(a) == QuoteIdentifier(b);
    }
  }

  /** Every ALTER statement starts with this. */
  function AlterPrefix(tableName: string): string {
    "ALTER TABLE " + QuoteIdentifier(tableName) + " "
  }

  /** `s` is an ALTER TABLE statement on `tableName`: the prefix, a clause, then ';'. */
  predicate IsAlterFor(tableName: string, s: string) {
    |s| > |AlterPrefix(tableName)| && HasPrefix(s, AlterPrefix(tableName)) && s[|s| - 1] == ';'
  }

  /** The clause between the prefix and the terminating ';'. */
  function ClauseOf(tableName: string, s: string): string
    requires IsAlterFor(tableName, s)
  {
    s[|AlterPrefix(tableName)|..|s| - 1]
  }

  function AlterStatement(tableName: string, clause: string): (s: string)
    ensures IsAlterFor(tableName, s)
    ensures ClauseOf(tableName, s) == clause
  {
    var s := AlterPrefix(tableName) + clause + ";";
    assert s[..|AlterPrefix(tableName)|] == AlterPrefix(tableName);
    s
  }

  /** `DropColumnSQL`. */
  function DropColumnSQL(tableName: string, columnName: string): (r: string)
    ensures IsAlterFor(tableName, r)
    ensures ClauseOf(tableName, r) == "DROP COLUMN " + QuoteIdentifier(columnName)
  {
    AlterStatement(tableName, "DROP COLUMN " + QuoteIdentifier(columnName))
  }

  /** `AddColumnSQL`: the clause carries the full column definition. */
  function AddColumnSQL(tableName: string, column: Column): (r: string)
    ensures IsAlterFor(tableName, r)
    ensures ClauseOf(tableName, r) == "ADD COLUMN " + ColumnDefinitionSQL(column)
  {
    AlterStatement(tableName, "ADD COLUMN " + ColumnDefinitionSQL(column))
  }

  /** `RenameColumnSQL`. */
  function RenameColumnSQL(tableName: string, oldName: string, newName: string): (r: string)
    ensures IsAlterFor(tableName, r)
    ensures ClauseOf(tableName, r)
         == "RENAME COLUMN " + QuoteIdentifier(oldName) + " TO " + QuoteIdentifier(newName)
  {
    AlterStatement(tableName, "RENAME COLUMN " + QuoteIdentifier(oldName) + " TO " + QuoteIdentifier(newName))
  }

  /** `ChangeColumnTypeSQL`: only the name and the mapped type of the column are used. */
  function ChangeColumnTypeSQL(tableName: string, column: Column): (r: string)
    ensures IsAlterFor(tableName, r)
    ensures ClauseOf(tableName, r)
         == "ALTER COLUMN " + QuoteIdentifier(column.name) + " TYPE " + MapDataType(column.dataType)
  {
    AlterStatement(tableName,
      "ALTER COLUMN " + QuoteIdentifier(column.name) + " TYPE " + MapDataType(column.dataType))
  }

  /** `SetColumnNotNullSQL`. */
  function SetColumnNotNullSQL(tableName: string, columnName: string): (r: string)
    ensures IsAlterFor(tableName, r)
    ensures ClauseOf(tableName, r) == "ALTER COLUMN " + QuoteIdentifier(columnName) + " SET NOT NULL"
  {
    AlterStatement(tableName, "ALTER COLUMN " + QuoteIdentifier(columnName) + " SET NOT NULL")
  }

  /** `DropColumnNotNullSQL`. */
  function DropColumnNotNullSQL(tableName: string, columnName: string): (r: string)
    ensures IsAlterFor(tableName, r)
    ensures ClauseOf(tableName, r) == "ALTER COLUMN " + QuoteIdentifier(columnName) + " DROP NOT NULL"
  {
    AlterStatement(tableName, "ALTER COLUMN " + QuoteIdentifier(columnName) + " DROP NOT NULL")
  }

  /** `SetColumnDefaultSQL`: the literal is formatted as for a column default. */
  function SetColumnDefaultSQL(tableName: string, columnName: string, value: DefaultValue): (r: string)
    ensures IsAlterFor(tableName, r)
    ensures ClauseOf(tableName, r)
         == "ALTER COLUMN " + QuoteIdentifier(columnName) + " SET DEFAULT " + FormatDefault(value)
  {
    AlterStatement(tableName,
      "ALTER COLUMN " + QuoteIdentifier(columnName) + " SET DEFAULT " + FormatDefault(value))
  }

  /** `DropColumnDefaultSQL`. */
  function DropColumnDefaultSQL(tableName: string, columnName: string): (r: string)
    ensures IsAlterFor(tableName, r)
    ensures ClauseOf(tableName, r) == "ALTER COLUMN " + QuoteIdentifier(columnName) + " DROP DEFAULT"
  {
    AlterStatement(tableName, "ALTER COLUMN " + QuoteIdentifier(columnName) + " DROP DEFAULT")
  }

  /** The eight kinds `AlterTableSQL` translates. */
  predicate Handled(kind: ActionType) {
    !(kind.ModifyColumn? || kind.AddForeignKey? || kind.CreateIndex?)
  }

  /** Adding a column and changing its type dereference the action's column. */
  predicate WellFormed(a: TableAction) {
    (a.kind.AddColumn? || a.kind.ChangeColumnType?) ==> a.column.Some?
  }

  predicate AllWellFormed(actions: seq<TableAction>) {
    forall i :: 0 <= i < |actions| ==> WellFormed(actions[i])
  }

  /** The statement for one action: the switch inside `AlterTableSQL`'s loop. */
  function ActionSQL(tableName: string, a: TableAction): (r: Option<string>)
    requires WellFormed(a)
    ensures r.Some? <==> Handled(a.kind)
    ensures r.Some? ==> IsAlterFor(tableName, r.value)
  {
    match a.kind
    case DropColumn => Some(DropColumnSQL(tableName, a.name))
    case AddColumn => Some(AddColumnSQL(tableName, a.column.value))
    case RenameColumn => Some(RenameColumnSQL(tableName, a.name, a.newName))
    case ChangeColumnType => Some(ChangeColumnTypeSQL(tableName, a.column.value))
    case SetColumnNotNull => Some(SetColumnNotNullSQL(tableName, a.name))
    case DropColumnNotNull => Some(DropColumnNotNullSQL(tableName, a.name))
    case SetColumnDefault => Some(SetColumnDefaultSQL(tableName, a.name, a.defaultValue))
    case DropColumnDefault => Some(DropColumnDefaultSQL(tableName, a.name))
    case _ => None
  }

  /** How many actions are of a handled kind. */
  function HandledCount(actions: seq<TableAction>): (n: nat)
    ensures n <= |actions|
  {
    if actions == [] then 0
    else (if Handled(actions[0].kind) then 1 else 0) + HandledCount(actions[1..])
  }

  /** The statements one action contributes: its own if handled, none otherwise. */
  function StatementsFor(tableName: string, a: TableAction): (r: seq<string>)
    requires WellFormed(a)
  {
    match ActionSQL(tableName, a) case Some(s) => [s] case None => []
  }

  /**
   * `AlterTableSQL`: one statement per handled action and none for the others,
   * every one an ALTER TABLE on `tableName`.
   */
  function AlterTableSQL(tableName: string, actions: seq<TableAction>): (r: seq<string>)
    requires AllWellFormed(actions)
    ensures |r| == HandledCount(actions) <= |actions|
    ensures forall i :: 0 <= i < |r| ==> IsAlterFor(tableName, r[i])
  {
    if actions == [] then []
    else
      var head := StatementsFor(tableName, actions[0]);
      var rest := AlterTableSQL(tableName, actions[1..]);
      assert forall i :: 0 <= i < |rest| ==> (head + rest)[|head| + i] == rest[i];
      head + rest
  }

  lemma WellFormedAppend(xs: seq<TableAction>, ys: seq<TableAction>)
    requires AllWellFormed(xs) && AllWellFormed(ys)
    ensures AllWellFormed(xs + ys)
    ensures xs != [] ==> AllWellFormed(xs[1..])
  {
    forall i | 0 <= i < |xs + ys|
      ensures WellFormed((xs + ys)[i])
    {
      if i < |xs| { assert (xs + ys)[i] == xs[i]; } else { assert (xs + ys)[i] == ys[i - |xs|]; }
    }
    if xs != [] {
      forall i | 0 <= i < |xs| - 1 ensures WellFormed(xs[1..][i]) { assert xs[1..][i] == xs[i + 1]; }
    }
  }

  /** Statements come out in the order of their actions: translation distributes over concatenation. */
  lemma {:induction false} AlterTableSQLAppend(tableName: string, xs: seq<TableAction>, ys: seq<TableAction>)
    requires AllWellFormed(xs) && AllWellFormed(ys)
    ensures AllWellFormed(xs + ys)
    ensures AlterTableSQL(tableName, xs + ys) == AlterTableSQL(tableName, xs) + AlterTableSQL(tableName, ys)
  {
    WellFormedAppend(xs, ys);
    if xs != [] {
      WellFormedAppend(xs[1..], ys);
      var head := StatementsFor(tableName, xs[0]);
      assert (xs + ys)[0] == xs[0];
      assert (xs + ys)[1..] == xs[1..] + ys;
      assert AlterTableSQL(tableName, xs + ys) == head + AlterTableSQL(tableName, xs[1..] + ys);
      AlterTableSQLAppend(tableName, xs[1..], ys);
      assert AlterTableSQL(tableName, xs) == head + AlterTableSQL(tableName, xs[1..]);
    } else {
      assert xs + ys == ys;
    }
  }

  /** A single action yields its own statement if handled and nothing otherwise. */
  lemma AlterTableSQLSingle(tableName: string, a: TableAction)
    requires WellFormed(a)
    ensures AlterTableSQL(tableName, [a])
         == if Handled(a.kind) then [ActionSQL(tableName, a).value] else []
  {
    assert [a][1..] == [];
  }

  /** When every action is handled, statement i is the translation of action i. */
  lemma {:induction false} AlterTableSQLAllHandled(tableName: string, actions: seq<TableAction>)
    requires AllWellFormed(actions)
    requires forall i :: 0 <= i < |actions| ==> Handled(actions[i].kind)
    ensures |AlterTableSQL(tableName, actions)| == |actions|
    ensures forall i :: 0 <= i < |actions| ==>
      AlterTableSQL(tableName, actions)[i] == ActionSQL(tableName, actions[i]).value
  {
    if actions != [] {
      var tail := actions[1..];
      assert AllWellFormed(tail) by {
        forall i | 0 <= i < |tail| ensures WellFormed(tail[i]) { assert tail[i] == actions[i + 1]; }
      }
      forall i | 0 <= i < |tail| ensures Handled(tail[i].kind) { assert tail[i] == actions[i + 1]; }
      AlterTableSQLAllHandled(tableName, tail);
      var r := AlterTableSQL(tableName, actions);
      var first := ActionSQL(tableName, actions[0]).value;
      assert StatementsFor(tableName, actions[0]) == [first];
      assert r == [first] + AlterTableSQL(tableName, tail);
      forall i | 0 <= i < |actions|
        ensures r[i] == ActionSQL(tableName, actions[i]).value
      {
        if i > 0 { assert tail[i - 1] == actions[i]; }
      }
    }
  }

  /** Actions of kinds outside the eight contribute nothing at all. */
  lemma {:induction false} AlterTableSQLUnhandled(tableName: string, actions: seq<TableAction>)
    requires forall i :: 0 <= i < |actions| ==> !Handled(actions[i].kind)
    ensures AllWellFormed(actions)
    ensures AlterTableSQL(tableName, actions) == []
  {
    if actions != [] {
      AlterTableSQLUnhandled(tableName, actions[1..]);
    }
  }

  /** No statement depends on an action's foreign key: actions that differ only there translate alike. */
  lemma {:induction false} AlterTableSQLIgnoresForeignKeys(tableName: string, xs: seq<TableAction>, ys: seq<TableAction>)
    requires AllWellFormed(xs) && |xs| == |ys|
    requires forall i :: 0 <= i < |xs| ==> ys[i] == xs[i].(foreignKey := ys[i].foreignKey)
    ensures AllWellFormed(ys)
    ensures AlterTableSQL(tableName, ys) == AlterTableSQL(tableName, xs)
  {
    forall i | 0 <= i < |ys| ensures WellFormed(ys[i]) {
      assert ys[i].kind == xs[i].kind && ys[i].column == xs[i].column;
    }
    if xs != [] {
      var xt, yt := xs[1..], ys[1..];
      assert AllWellFormed(xt) by {
        forall i | 0 <= i < |xt| ensures WellFormed(xt[i]) { assert xt[i] == xs[i + 1]; }
      }
      forall i | 0 <= i < |xt| ensures yt[i] == xt[i].(foreignKey := yt[i].foreignKey) {
        assert xt[i] == xs[i + 1] && yt[i] == ys[i + 1];
      }
      AlterTableSQLIgnoresForeignKeys(tableName, xt, yt);
      assert ActionSQL(tableName, ys[0]) == ActionSQL(tableName, xs[0]);
      assert StatementsFor(tableName, ys[0]) == StatementsFor(tableName, xs[0]);
    }
  }

  /** The statement renaming `a` to `b` in `t`. */
  lemma RenameExample()
    ensures RenameColumnSQL("t", "a", "b")
         == ("ALTER TABLE " + "\"t\"" + " ") + ("RENAME COLUMN " + "\"a\"" + " TO " + "\"b\"") + ";"
  {
    var t, a, b := QuoteIdentifier("t"), QuoteIdentifier("a"), QuoteIdentifier("b");
    assert t == "\"t\"" && a == "\"a\"" && b == "\"b\"";
  }

  /** The statement dropping `c` from `t`. */
  lemma DropExample()
    ensures DropColumnSQL("t", "c") == ("ALTER TABLE " + "\"t\"" + " ") + ("DROP COLUMN " + "\"c\"") + ";"
  {
    var t, c := QuoteIdentifier("t"), QuoteIdentifier("c");
    assert t == "\"t\"" && c == "\"c\"";
  }

  /** Rename then drop on `t`: exactly two statements, in that order. */
  lemma AlterTableExample()
    ensures AlterTableSQL("t", [NamedAction(RenameColumn, "a").(newName := "b"), NamedAction(DropColumn, "c")])
         == [RenameColumnSQL("t", "a", "b"), DropColumnSQL("t", "c")]
  {
    var rename, drop := NamedAction(RenameColumn, "a").(newName := "b"), NamedAction(DropColumn, "c");
    AlterTableSQLSingle("t", rename);
    AlterTableSQLSingle("t", drop);
    AlterTableSQLAppend("t", [rename], [drop]);
  }
}
