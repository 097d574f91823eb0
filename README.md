# jone: a verified model of the schema compiler and migration tooling

jone is a Go library and command-line tool for database migrations. This
project models its sequential, I/O-free core in Dafny and proves properties
of that model:

- **The PostgreSQL dialect** (`Dialect`, over the `Types` data model). It
  covers identifier quoting, the fixed type map with its upper-case fallback,
  default-literal formatting, column definitions, and the `CREATE TABLE`,
  `DROP TABLE` and per-action `ALTER TABLE` statements. These are pure
  functions, with exact output strings and round-trip lemmas. The dialect's
  name, `postgresql` (dialect/postgres.go:14-16), is the constant
  `DialectName`.
- **The schema builder** (`Schema`). The table is a class holding a
  sequence of column builders and a sequence of action records. Column
  modifiers change their column in place. The foreign-key builder rewrites
  the table's last action record in place whenever one of its setters runs,
  when that record adds a foreign key; otherwise the setter writes nothing.
  `Scenarios` replays the builder's documented behaviours on fresh tables.
- **The migration registry** (`Registry`, `Constants`). It covers the folder
  alias, the `^\d+_` folder pattern, the filter from directory entries to
  registry records, and the import path. `RegenerateRegistry` is a loop
  proved against a selection function.
- **The go.mod scanners** (`GoMod`, `Init`). `ReadModulePath` is a
  first-match line loop. The `require`-block state machine is written once,
  as `ScanRequires`, which both `JoneDependencyPresent` and the `init`
  command's copy call. Both loops are proved against reference predicates.
- **The runner** (`Runner`). `RunUp` and `RunDown` produce a trace of
  printed lines and opaque `Up`/`Down` calls. Lemmas state the order of the
  calls and the exact lines printed.

`Text` provides the ASCII stand-ins for Go's `strings` functions that these
modules use: `TrimSpace`, `HasPrefix`, `TrimPrefix`, `Fields`, `Join`,
`ToUpper` and `IndexOf` (Go's `Index`), plus integer rendering. `Wrappers` holds `Option` and
`Result`.

Inputs that come from the file system are parameters:

- an opened go.mod is `Some(lines)`, and a file that cannot be opened is `None`;
- a directory listing is `Some(entries)`, and a failed read is `None`.

## Model

| member | source | states |
|---|---|---|
| Dialect.QuoteIdentifier | dialect/postgres.go:19-21 | the result is the name between two double quotes, with nothing escaped |
| Dialect.MapDataType | dialect/postgres.go:78-119 | the mapped type never contains a lower-case ASCII letter |
| Dialect.MapDataTypeKnown | dialect/postgres.go:79-112 | each of the 18 keys of the table maps to its fixed SQL type; keys compare case-sensitively |
| Dialect.MapDataTypeUnknown | dialect/postgres.go:114-118 | any name outside the table maps to its upper-cased form |
| Dialect.FormatDefault | dialect/postgres.go:122-134 | a string default is quoted verbatim; a boolean default is TRUE or FALSE; an integer default is canonical decimal text (no redundant leading zero, no `-0`) that parses back to the integer, hence exactly the `%v` text by `Text.IntToStringOfParse`; any other value keeps its `%v` text |
| Text.NatToString | dialect/postgres.go:131-132 | the rendering of a natural number is a canonical numeral, `0` only for zero, and parses back to the number |
| Text.IntToString | dialect/postgres.go:131-132 | the rendering of an integer is canonical (a `-` only before a non-zero numeral) and parses back to the integer |
| Text.NatToStringOfParse | dialect/postgres.go:131-132 | every canonical numeral is the rendering of the number it reads as |
| Text.IntToStringOfParse | dialect/postgres.go:131-132 | every canonical integer text is the rendering of the integer it reads as, so an integer has exactly one canonical text |
| Dialect.ColumnDefinitionSQL | dialect/postgres.go:48-75 | a column definition starts with the quoted name, a space and the mapped type |
| Dialect.ColumnClausesRoundTrip | dialect/postgres.go:54-72 | the clauses after the type read back, in fixed order, as: PRIMARY KEY iff primary; NOT NULL iff not-null and not primary; UNIQUE iff unique and not primary; the DEFAULT literal iff the column has a default; the reference iff both referenced table and column are non-empty |
| Dialect.ReadOrderedClauses | dialect/postgres.go:54-72 | any clause list built in that order is decoded back into exactly the flags and texts it was built from |
| Dialect.PrimaryKeySuppressesFlags | dialect/postgres.go:54-62 | a primary-key column starts its clauses with PRIMARY KEY and never emits NOT NULL or UNIQUE |
| Dialect.DefinitionIgnoresSizes | dialect/postgres.go:48-75 | the definition does not depend on length, precision, scale, comment or the unsigned flag |
| Dialect.ColumnClauses | dialect/postgres.go:54-72 | at most five clauses; `Dialect.ColumnClausesRoundTrip` states which ones appear and in what order |
| Dialect.ColumnDefinitions | dialect/postgres.go:25-28 | one definition per column, in column order |
| Dialect.ColumnDefinitionsAppend | dialect/postgres.go:25-28 | a column added at the end adds its definition at the end |
| Dialect.CreateTableSQL | dialect/postgres.go:24-35 | the statement is `CREATE TABLE`, the quoted table and the opening parenthesis, then the column definitions joined by a comma and a new line, then the closing line; each part can be read back by position |
| Dialect.CreateTableAppendColumn | dialect/postgres.go:24-35 | adding a column to a non-empty table inserts the separator and that column's definition just before the closing line |
| Dialect.CreateTableSingleColumn | dialect/postgres.go:24-35 | a one-column table's body is exactly that column's definition |
| Dialect.ExampleIdDefinition | dialect/postgres.go:48-75 | an integer primary key `id` is defined as `"id" INTEGER PRIMARY KEY` |
| Dialect.CreateTableExample | dialect/postgres.go:24-35 | table `t` with that column yields the expected `CREATE TABLE "t"` statement |
| Dialect.DropTableSQL | dialect/postgres.go:38-40 | `DROP TABLE `, the quoted name, `;` |
| Dialect.DropTableIfExistsSQL | dialect/postgres.go:43-45 | `DROP TABLE IF EXISTS `, the quoted name, `;` |
| Dialect.DropTableInjective | dialect/postgres.go:38-45 | distinct tables get distinct DROP statements of both forms |
| Dialect.AlterStatement | dialect/postgres.go:163-219 | every ALTER statement is the `ALTER TABLE` prefix on the quoted table, the clause, then `;`, and the clause can be read back |
| Dialect.DropColumnSQL | dialect/postgres.go:163-167 | an ALTER on the table whose clause is DROP COLUMN and the quoted column |
| Dialect.AddColumnSQL | dialect/postgres.go:170-174 | an ALTER on the table whose clause is ADD COLUMN and the full column definition |
| Dialect.RenameColumnSQL | dialect/postgres.go:177-182 | an ALTER on the table whose clause renames the quoted old name to the quoted new name |
| Dialect.ChangeColumnTypeSQL | dialect/postgres.go:185-190 | an ALTER on the table whose clause changes the quoted column to the mapped type |
| Dialect.SetColumnNotNullSQL | dialect/postgres.go:193-197 | an ALTER on the table whose clause sets NOT NULL on the quoted column |
| Dialect.DropColumnNotNullSQL | dialect/postgres.go:200-204 | an ALTER on the table whose clause drops NOT NULL on the quoted column |
| Dialect.SetColumnDefaultSQL | dialect/postgres.go:207-212 | an ALTER on the table whose clause sets the default to the formatted literal |
| Dialect.DropColumnDefaultSQL | dialect/postgres.go:215-219 | an ALTER on the table whose clause drops the quoted column's default |
| Dialect.ActionSQL | dialect/postgres.go:140-157 | an action yields a statement iff its kind is one of the eight handled kinds, and the statement is an ALTER on the table |
| Dialect.HandledCount | dialect/postgres.go:139-158 | never more handled actions than actions |
| Dialect.AlterTableSQL | dialect/postgres.go:137-160 | one statement per handled action, at most one per action, every one an ALTER TABLE on the given table |
| Dialect.AlterTableSQLAppend | dialect/postgres.go:139-158 | statements keep the order of their actions: translating a concatenation concatenates the translations |
| Dialect.AlterTableSQLSingle | dialect/postgres.go:140-157 | one action yields its own statement if handled, nothing otherwise |
| Dialect.AlterTableSQLAllHandled | dialect/postgres.go:137-160 | when every action is handled, statement i translates action i |
| Dialect.AlterTableSQLUnhandled | dialect/postgres.go:140-157 | foreign-key, index and modify-column actions contribute no statement at all |
| Dialect.AlterTableSQLIgnoresForeignKeys | dialect/postgres.go:137-160 | actions that differ only in their foreign keys translate to the same statements |
| Dialect.RenameExample | dialect/postgres.go:177-182 | renaming `a` to `b` on `t` gives `ALTER TABLE "t" RENAME COLUMN "a" TO "b";` |
| Dialect.DropExample | dialect/postgres.go:163-167 | dropping `c` from `t` gives `ALTER TABLE "t" DROP COLUMN "c";` |
| Dialect.AlterTableExample | dialect/postgres.go:137-160 | a rename followed by a drop yields exactly those two statements, in that order |
| Types.NewColumn | types/types.go:24-35 | a new column has the given name and type and every flag and reference unset |
| Types.ActionTypeName | types/types.go:8-13 | the string names that the source shows, for exactly the six kinds that have one; `create_index` and `add_foreign_key` are the names the builder tests check at schema/table_test.go:187 and schema/table_test.go:217 |
| Types.ActionTypeNameInjective | types/types.go:8-13 | kinds with a shown name are told apart by it |
| Types.NamedAction | types/types.go:15-21 | an action of the given kind naming one column and carrying nothing else |
| Schema.ColumnBuilder.constructor | schema/table_test.go:7-17 | a column builder starts from the named, typed column with every modifier unset |
| Schema.ColumnBuilder.Length | schema/table_test.go:19-35 | stores the length in the same column object and returns that object |
| Schema.ColumnBuilder.Precision | schema/table_test.go:84-100 | stores the precision in place and returns the same builder |
| Schema.ColumnBuilder.Scale | schema/table_test.go:84-100 | stores the scale in place and returns the same builder |
| Schema.ColumnBuilder.NotNullable | schema/table_test.go:19-35 | sets the not-null flag in place and changes nothing else |
| Schema.ColumnBuilder.Unique | schema/table_test.go:19-35 | sets the unique flag in place and changes nothing else |
| Schema.ColumnBuilder.Primary | schema/table_test.go:71-82 | sets the primary-key flag in place and changes nothing else |
| Schema.ColumnBuilder.Default | schema/table_test.go:55-69 | stores the value and sets the has-default flag, for every value including `""` |
| Schema.ColumnBuilder.Comment | schema/table_test.go:239-263 | stores the comment in place and returns the same builder |
| Schema.IndexAction | schema/table_test.go:180-208 | an index action lists the columns and the uniqueness flag, and has no column or foreign key |
| Schema.ForeignAction | schema/table_test.go:210-237 | `Foreign` records an add-foreign-key action on the column, with its foreign key still unset |
| Schema.PatchLast | schema/foreign_key.go:70-77 | the action values after `updateAction`: as many as before; the lemmas below state which one changes and how |
| Schema.PatchLastKeepsOthers | schema/foreign_key.go:70-77 | patching never changes the number of actions or any action but the last |
| Schema.PatchLastSetsLast | schema/foreign_key.go:70-77 | the last action keeps every field but its foreign key, which becomes the new key when the action adds a foreign key and keeps its old value otherwise |
| Schema.PatchLastNonForeignUnchanged | schema/foreign_key.go:70-77 | with no actions, or a last action that adds no foreign key, the action list is unchanged |
| Schema.PatchLastTwice | schema/foreign_key.go:70-77 | a later patch overwrites an earlier one completely |
| Schema.PatchLastKeepsKinds | schema/foreign_key.go:70-77 | patching changes no action's kind |
| Schema.PatchLastKeepsStatements | schema/foreign_key.go:70-77 | patching the last action never changes the ALTER statements the dialect emits for the table's actions |
| Schema.Table.constructor | schema/table_test.go:7-17 | a new table has its name, no columns and no actions |
| Schema.Table.Append | schema/table_test.go:7-100 | appends exactly one fresh column builder and leaves every column and action as it was |
| Schema.Table.String | schema/table_test.go:7-17 | appends one `varchar` column under the name |
| Schema.Table.Int | schema/table_test.go:37-44 | appends one `int` column under the name |
| Schema.Table.BigInt | schema/table_test.go:46-53 | appends one `bigint` column under the name |
| Schema.Table.Boolean | schema/table_test.go:55-69 | appends one `boolean` column under the name |
| Schema.Table.UUID | schema/table_test.go:71-82 | appends one `uuid` column under the name |
| Schema.Table.Decimal | schema/table_test.go:84-100 | appends one `decimal` column under the name |
| Schema.Table.Increments | schema/table_test.go:135-145 | appends one `serial` primary-key column |
| Schema.Table.Timestamps | schema/table_test.go:102-133 | appends exactly `created_at` (timestamp, not null) and `updated_at` (timestamp), in that order |
| Schema.Table.Record | schema/table_test.go:147-237 | appends exactly one fresh action record and leaves the columns as they were |
| Schema.Table.DropColumn | schema/table_test.go:147-160 | appends one drop-column action naming the column |
| Schema.Table.RenameColumn | schema/table_test.go:162-178 | appends one rename action with the old name as its name and the new name beside it |
| Schema.Table.Index | schema/table_test.go:180-196 | appends one create-index action over the columns, not unique |
| Schema.Table.Unique | schema/table_test.go:198-208 | appends one create-index action over the columns, marked unique |
| Schema.Table.Foreign | schema/table_test.go:210-237 | appends the add-foreign-key placeholder and returns a fresh builder for that table and column with every setting empty |
| Schema.ForeignKeyBuilder.constructor | schema/foreign_key.go:8-16 | a builder bound to its table and column, every setting empty |
| Schema.ForeignKeyName | schema/foreign_key.go:65-67 | the name generated for a table and a column is `fk_`, the table name, `_`, the column, each readable back by position |
| Schema.ForeignKeyBuilder.GenerateName | schema/foreign_key.go:65-67 | the generated name is `fk_`, the table name, `_`, the column, each readable back by position |
| Schema.ForeignKeyBuilder.Build | schema/foreign_key.go:48-62 | the key copies the column, references, actions and table name verbatim; it uses the set name when there is one and the generated name otherwise; the name is never empty |
| Schema.ForeignKeyBuilder.UpdateAction | schema/foreign_key.go:70-77 | the table's records stay the same objects, and their values are the old values with the last one patched by the built key |
| Schema.ForeignKeyBuilder.PatchedValues | schema/foreign_key.go:70-77 | the record values after the update are exactly the patched old values |
| Schema.ForeignKeyBuilder.References | schema/foreign_key.go:19-24 | sets the referenced table and column, keeps the other settings, returns the same builder and patches the last action |
| Schema.ForeignKeyBuilder.OnDelete | schema/foreign_key.go:27-31 | sets the on-delete action, keeps the other settings, returns the same builder and patches the last action |
| Schema.ForeignKeyBuilder.OnUpdate | schema/foreign_key.go:34-38 | sets the on-update action, keeps the other settings, returns the same builder and patches the last action |
| Schema.ForeignKeyBuilder.Name | schema/foreign_key.go:41-45 | sets the constraint name, keeps the other settings, returns the same builder and patches the last action |
| Scenarios.StringColumn | schema/table_test.go:7-17 | a fresh table after `String("name")` holds exactly that varchar column and no actions |
| Scenarios.StringWithModifiers | schema/table_test.go:19-35 | length 255, not null and unique all land on the recorded column |
| Scenarios.TypedColumns | schema/table_test.go:37-82 | int, bigint, boolean with default true, and primary uuid columns are recorded in call order |
| Scenarios.DecimalColumn | schema/table_test.go:84-100 | a decimal column records precision 10, scale 2 and not null |
| Scenarios.TimestampColumns | schema/table_test.go:102-133 | a fresh table gets exactly the two timestamp columns and no actions |
| Scenarios.IncrementsColumn | schema/table_test.go:135-145 | the only column is a serial primary key `id` |
| Scenarios.DropColumnAction | schema/table_test.go:147-160 | exactly one `drop_column` action naming `legacy_field`, and no columns |
| Scenarios.RenameColumnAction | schema/table_test.go:162-178 | exactly one `rename_column` action from `old_name` to `new_name` |
| Scenarios.IndexActions | schema/table_test.go:180-208 | `Index` then `Unique` give two `create_index` actions over `email`, the second unique |
| Scenarios.ForeignKeyAction | schema/table_test.go:210-237 | exactly one `add_foreign_key` action, whose key is `fk_posts_user_id` on `user_id`, referencing `users(id)`, on delete CASCADE |
| Scenarios.NamedForeignKey | schema/foreign_key.go:41-62 | a name set with `Name` survives every later setter, in place of the generated name |
| Scenarios.InterleavedForeignKey | schema/foreign_key.go:70-77 | once another action follows the placeholder, later setters patch nothing |
| Scenarios.CrossedForeignKeys | schema/foreign_key.go:70-77 | with two placeholders recorded, a setter on the first builder fills the second placeholder with the first builder's key and leaves the first placeholder empty |
| Scenarios.ChainedModifiers | schema/table_test.go:239-263 | chained modifiers, `Default("")` included, all land on the one column |
| Scenarios.BuilderAlterStatements | dialect/postgres.go:137-160 | index and foreign-key actions from the builder produce no ALTER statements |
| Constants.MatchesMigrationPattern | cmd/jone/cli/constants.go:16 | a matching name has at least two characters, starts with a digit and contains `_`; `Constants.MigrationPatternIff` states the match exactly |
| Constants.LeadingDigits | cmd/jone/cli/constants.go:16 | the length of the maximal run of ASCII digits a name starts with |
| Constants.MigrationPatternIff | cmd/jone/cli/constants.go:15-16 | the folder pattern matches iff a non-empty run of digits at the start is followed by `_` |
| Registry.AliasFromFolder | cmd/jone/cli/registry.go:80-87 | the alias is `m` and a prefix of the folder, cut exactly at the first `_`; it contains `_` iff the folder starts with one, in which case it is `m` and the whole folder |
| Registry.AliasOfMigrationName | cmd/jone/cli/registry.go:80-87 | for a folder matching the pattern the alias is `m` and the leading digits |
| Registry.SameDigitsSameAlias | cmd/jone/cli/registry.go:80-87 | migration folders with the same leading digits get the same alias |
| Registry.ImportPath | cmd/jone/cli/registry.go:39 | the import path starts with the module path and `/jone/migrations/`, and the folder name is read back after them |
| Registry.ImportPathInjective | cmd/jone/cli/registry.go:39 | within one module, distinct folders get distinct import paths |
| Registry.Selected | cmd/jone/cli/registry.go:28-35 | a selected entry is a directory whose name starts with a digit and contains `_`; `Registry.SelectComplete` and `Registry.SelectSound` tie it to the records |
| Registry.SelectMigrations | cmd/jone/cli/registry.go:27-42 | never more records than entries |
| Registry.SelectAppend | cmd/jone/cli/registry.go:27-42 | selection works entry by entry and keeps listing order |
| Registry.SelectComplete | cmd/jone/cli/registry.go:28-41 | every directory entry that is not `registry` and matches the pattern gets its record, with its name, alias and import path |
| Registry.SelectSound | cmd/jone/cli/registry.go:28-41 | every record comes from such an entry and carries that entry's name unchanged |
| Registry.RegistryNameSkipped | cmd/jone/cli/registry.go:32-35 | `registry` itself never matches the pattern |
| Registry.RegenerateRegistry | cmd/jone/cli/registry.go:14-45 | a failed directory read is reported first, then a missing module path; otherwise the result is exactly the selected records, in listing order |
| GoMod.ModuleValue | cmd/jone/cli/gomod.go:24-26 | the value read from a line has no surrounding white space; `GoMod.ModuleValueNonEmpty` and `GoMod.ModuleLineRoundTrip` state what it is for a module line |
| GoMod.ModulePathIn | cmd/jone/cli/gomod.go:22-29 | the path has no leading or trailing white space |
| GoMod.ReadModulePath | cmd/jone/cli/gomod.go:15-30 | the loop returns the value of the first module line, or `""` when there is none or the file cannot be opened |
| GoMod.ModuleValueNonEmpty | cmd/jone/cli/gomod.go:25-26 | a module line never yields an empty path |
| GoMod.BareModuleLineIgnored | cmd/jone/cli/gomod.go:25 | a line that trims to a bare `module` is skipped |
| GoMod.ModulePathFirstWins | cmd/jone/cli/gomod.go:23-27 | the first module line decides the path; later ones are ignored |
| GoMod.ModulePathNonEmptyIff | cmd/jone/cli/gomod.go:22-29 | the path is non-empty iff some line declares the module |
| GoMod.ModuleLineRoundTrip | cmd/jone/cli/gomod.go:24-26 | reading `module p` back gives `p` for every non-empty trimmed `p` |
| GoMod.ScanRequires | cmd/jone/cli/gomod.go:88-128 | the state-machine loop returns true iff the file lists the package |
| GoMod.JoneDependencyPresent | cmd/jone/cli/gomod.go:81-129 | true iff the file opens and lists the runtime package |
| GoMod.DependencyListedIff | cmd/jone/cli/gomod.go:91-126 | a file lists the package iff some line names it in the block state the earlier lines leave: a block entry inside the block, a one-line require outside it |
| GoMod.EmptyNotListed | cmd/jone/cli/gomod.go:128 | an empty file lists nothing |
| GoMod.ListedFromAppend | cmd/jone/cli/gomod.go:112-124 | once a prefix names the package, more lines never undo it |
| GoMod.DependencyListedAppend | cmd/jone/cli/gomod.go:112-124 | appending lines never turns a true result false |
| GoMod.CloseOutsideBlockIgnored | cmd/jone/cli/gomod.go:101-104 | a `)` line outside a block changes nothing |
| GoMod.OpenLine | cmd/jone/cli/gomod.go:95-98 | a `require (` line enters the block from either state and never names the package |
| GoMod.CloseLine | cmd/jone/cli/gomod.go:101-104 | a `)` line leaves the block (outside it, the state stays outside) and never names the package |
| GoMod.BlankOrCommentInBlock | cmd/jone/cli/gomod.go:108-110 | blank and `//` lines inside the block keep the block open and name nothing |
| GoMod.EntryLine | cmd/jone/cli/gomod.go:107-116 | a `pkg version` line is a block entry for `pkg` and no other kind of line |
| GoMod.SingleRequireLine | cmd/jone/cli/gomod.go:119-125 | `require pkg version` is a one-line require of `pkg`, not a block opening |
| GoMod.SingleRequireListed | cmd/jone/cli/gomod.go:119-125 | a file of just `require pkg version` lists `pkg` |
| GoMod.BlockRequireListed | cmd/jone/cli/gomod.go:95-116 | an entry between `require (` and `)` is listed |
| GoMod.ClosedBlockEntryIgnored | cmd/jone/cli/gomod.go:101-125 | an entry that follows the closing `)` is not listed |
| GoMod.RuntimePackageIsPlain | cmd/jone/cli/constants.go:13 | the runtime package is a plain path, so the concrete-line lemmas apply to it |
| Init.LiteralIsRuntimePackage | cmd/jone/cli/init.go:116 | the literal the `init` copy compares against is the runtime package |
| Init.JoneDependencyPresent | cmd/jone/cli/init.go:86-133 | the `init` copy agrees with `GoMod.JoneDependencyPresent` on every file |
| Runner.RunUp | runner.go:6-14 | the loop produces exactly the forward trace |
| Runner.RunDown | runner.go:17-27 | the index-decrementing loop produces exactly the backward trace |
| Runner.UpTraceCalls | runner.go:7-12 | `Up` is called once per registration, at indices 0 to n-1 in increasing order, each with a fresh empty schema |
| Runner.DownTraceCalls | runner.go:19-25 | `Down` is called once per registration, at indices n-1 down to 0, each with a fresh empty schema |
| Runner.DownReversesUp | runner.go:6-27 | the order of the `Down` calls is the reverse of the order of the `Up` calls |
| Runner.UpTracePrinted | runner.go:8-13 | 2n+1 lines: the running and completed lines for each registration in order, then the success line |
| Runner.DownTracePrinted | runner.go:21-26 | 2n+1 lines: the rollback and completed lines for each registration from the last, then the success line |
| Runner.EmptyDownTrace | runner.go:19-26 | with no registrations only the success line appears |
| Runner.CallsAppend | runner.go:7-12 | the calls of a concatenated trace are the concatenated calls |
| Runner.PrintedAppend | runner.go:8-13 | the lines of a concatenated trace are the concatenated lines |

## Left out

- File input and output. An opened go.mod and a directory listing are parameters, and an unreadable file or directory is `None`. `os.Open`, `bufio.Scanner` line splitting and `os.ReadDir` are not modelled.
- `writeRegistryFile` and the registry template. `RegenerateRegistry` returns the records it would render and stops there. The text-template rendering, `go/format`, `MkdirAll` and the file write are foreign library calls.
- The interactive parts of the command-line tool: prompts, `go mod init`, folder creation and the cobra commands. They are all I/O.
- Sorting of migrations. The source never sorts, so the registry keeps the directory listing's order.
- Executing migrations against a database. `Up` and `Down` are opaque trace events, since the runner executes no SQL itself.
- Unicode. Space, case and digit tests are ASCII-only, as are `TrimSpace`, `Fields`, `ToUpper` and the `\d` of the folder pattern.
- `%v` rendering of floats and other arbitrary values. A default that is neither a string, a boolean nor an integer carries its rendered text.
- Go's `int` width. Integers, lengths and sizes are unbounded.
- Dialect.ColumnDefinitionSQL: its own contract states only the prefix. The full clause layout is proved in `Dialect.ColumnClausesRoundTrip`.
- Dialect.AlterTableSQL: add-column and change-type actions must carry a column. The source dereferences a nil column pointer there and panics. Every other nil-free input is handled.
- No escaping of quotes in identifiers or string defaults. The source escapes none, so neither does the model.
- The Table builder's own source file is not part of this model. Its behaviour is taken from its tests. `Foreign` records an add-foreign-key action whose key is unset until a setter runs. `Timestamps` leaves `updated_at` nullable, since the tests check not-null only on `created_at`.
- Types.ActionTypeName: the string values of the change-type, not-null and default kinds are not shown, so they have no name in the model.
- The registration type and the `Schema` value passed to `Up`/`Down` are not part of this model. A registration is its name, and the schema is a single empty value.
- GoMod.ScanRequires: the go.mod check and its copy in `init` are one loop over a package parameter. `Init.LiteralIsRuntimePackage` shows that the copy's literal and the constant are the same path.
- GoMod.SingleRequireLine, GoMod.EntryLine, GoMod.BlockRequireListed and GoMod.ClosedBlockEntryIgnored: stated for plain package paths and single-word versions. The general rule holds for every line and is proved in `GoMod.DependencyListedIff`.
- Constants.JoneFolderPath and Constants.JoneFilePath are declared but used only by the file-creation code, which is not modelled.
