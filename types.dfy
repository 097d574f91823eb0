/**
 * The schema data model shared by the builder and the dialect compiler:
 * columns, foreign keys, indexes, table actions and tables, as values.
 */
module Types {

  import opened Wrappers

  /**
   * A column's default value. The source stores it untyped; the compiler tells
   * strings and booleans apart and prints everything else with `%v`, so the
   * remaining cases are integers and `Other`, which carries its `%v` text.
   */
  datatype DefaultValue = Str(s: string) | Bool(b: bool) | Int(i: int) | Other(text: string)

  /** The value a column holds before `Default` is called: Go's nil, printed as `<nil>`. */
  const NilDefault: DefaultValue := Other("<nil>")

  datatype Column = Column(
    name: string,
    dataType: string,
    isPrimaryKey: bool,
    isNotNull: bool,
    isUnique: bool,
    isUnsigned: bool,
    defaultValue: DefaultValue,
    hasDefault: bool,
    refTable: string,
    refColumn: string,
    length: int,
    precision: int,
    scale: int,
    comment: string)

  /** A column with the given name and generic type and every modifier at its zero value. */
  function NewColumn(name: string, dataType: string): (c: Column)
    ensures c.name == name && c.dataType == dataType
    ensures !c.isPrimaryKey && !c.isNotNull && !c.isUnique && !c.isUnsigned && !c.hasDefault
    ensures c.refTable == "" && c.refColumn == ""
  {
    Column(name, dataType, false, false, false, false, NilDefault, false, "", "", 0, 0, 0, "")
  }

  /** The kinds of table alteration. */
  datatype ActionType =
    | DropColumn
    | AddColumn
    | RenameColumn
    | ModifyColumn
    | ChangeColumnType
    | SetColumnNotNull
    | DropColumnNotNull
    | SetColumnDefault
    | DropColumnDefault
    | AddForeignKey
    | CreateIndex

  /**
   * The string value of an action kind, where the source shows it: the
   * constants in the types package and the ones the builder's tests compare
   * against. The remaining kinds' strings are not shown.
   */
  function ActionTypeName(kind: ActionType): (r: Option<string>)
    ensures r.Some? <==> kind in {DropColumn, AddColumn, RenameColumn, ModifyColumn, AddForeignKey, CreateIndex}
  {
    match kind
    case DropColumn => Some("drop_column")
    case AddColumn => Some("add_column")
    case RenameColumn => Some("rename_column")
    case ModifyColumn => Some("modify_column")
    case AddForeignKey => Some("add_foreign_key")
    case CreateIndex => Some("create_index")
    case _ => None
  }

  /** Kinds with a shown name are told apart by it. */
  lemma ActionTypeNameInjective(a: ActionType, b: ActionType)
    requires ActionTypeName(a).Some? && ActionTypeName(a) == ActionTypeName(b)
    ensures a == b
  {
  }

  datatype ForeignKey = ForeignKey(
    name: string,
    column: string,
    refTable: string,
    refColumn: string,
    onDelete: string,
    onUpdate: string,
    tableName: string)

  datatype Index = Index(columns: seq<string>, isUnique: bool)

  /**
   * One recorded alteration. `column`, `foreignKey` and `index` are the
   * source's nullable pointers; `name` is the column name (the old name for a
   * rename) and `newName` the new name of a rename.
   */
  datatype TableAction = TableAction(
    kind: ActionType,
    column: Option<Column>,
    name: string,
    newName: string,
    defaultValue: DefaultValue,
    foreignKey: Option<ForeignKey>,
    index: Option<Index>)

  /** An action of the given kind naming one column, every other field empty. */
  function NamedAction(kind: ActionType, name: string): (a: TableAction)
    ensures a.kind == kind && a.name == name && a.newName == ""
    ensures a.column.None? && a.foreignKey.None? && a.index.None?
  {
    TableAction(kind, None, name, "", NilDefault, None, None)
  }

  datatype Table = Table(name: string, columns: seq<Column>, actions: seq<TableAction>)
}
