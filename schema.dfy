/**
 * The schema builder: a table object that collects column builders and
 * action records, column builders whose modifiers change their column in
 * place, and the foreign-key builder that re-writes the table's last action
 * each time one of its setters runs, when that action adds a foreign key.
 */
module Schema {

  import opened Wrappers
  import opened Text
  import opened Types
  import Dialect

  /** A column under construction; its modifiers change it in place and return it. */
  class ColumnBuilder {
    var column: Column

    constructor(name: string, dataType: string)
      ensures column == NewColumn(name, dataType)
    {
      column := NewColumn(name, dataType);
    }

    method Length(n: int) returns (b: ColumnBuilder)
      modifies this
      ensures b == this && column == old(column).(length := n)
    {
      column := column.(length := n);
      b := this;
    }

    method Precision(n: int) returns (b: ColumnBuilder)
      modifies this
      ensures b == this && column == old(column).(precision := n)
    {
      column := column.(precision := n);
      b := this;
    }

    method Scale(n: int) returns (b: ColumnBuilder)
      modifies this
      ensures b == this && column == old(column).(scale := n)
    {
      column := column.(scale := n);
      b := this;
    }

    method NotNullable() returns (b: ColumnBuilder)
      modifies this
      ensures b == this && column == old(column).(isNotNull := true)
    {
      column := column.(isNotNull := true);
      b := this;
    }

    method Unique() returns (b: ColumnBuilder)
      modifies this
      ensures b == this && column == old(column).(isUnique := true)
    {
      column := column.(isUnique := true);
      b := this;
    }

    method Primary() returns (b: ColumnBuilder)
      modifies this
      ensures b == this && column == old(column).(isPrimaryKey := true)
    {
      column := column.(isPrimaryKey := true);
      b := this;
    }

    /** Stores the value and marks the column as having a default, whatever the value is. */
    method Default(value: DefaultValue) returns (b: ColumnBuilder)
      modifies this
      ensures b == this && column == old(column).(defaultValue := value, hasDefault := true)
    {
      column := column.(defaultValue := value, hasDefault := true);
      b := this;
    }

    method Comment(text: string) returns (b: ColumnBuilder)
      modifies this
      ensures b == this && column == old(column).(comment := text)
    {
      column := column.(comment := text);
      b := this;
    }
  }

  /** One element of the table's action list, shared by reference with the foreign-key builder. */
  class ActionRecord {
    var action: TableAction

    constructor(a: TableAction)
      ensures action == a
    {
      action := a;
    }
  }

  /** The current values behind a list of column builders. */
  function ColumnValues(cs: seq<ColumnBuilder>): seq<Column>
    reads cs
  {
    seq(|cs|, i requires 0 <= i < |cs| reads cs => cs[i].column)
  }

  /** The current values behind a list of action records. */
  function ActionValues(rs: seq<ActionRecord>): seq<TableAction>
    reads rs
  {
    seq(|rs|, i requires 0 <= i < |rs| reads rs => rs[i].action)
  }

  /** The action an index declaration records. */
  function IndexAction(columns: seq<string>, isUnique: bool): (a: TableAction)
    ensures a.kind == CreateIndex && a.index == Some(Index(columns, isUnique))
    ensures a.column.None? && a.foreignKey.None?
  {
    TableAction(CreateIndex, None, "", "", NilDefault, None, Some(Index(columns, isUnique)))
  }

  /** The placeholder that `Foreign` records; the builder's setters fill in its foreign key. */
  function ForeignAction(column: string): (a: TableAction)
    ensures a.kind == AddForeignKey && a.name == column && a.foreignKey.None?
  {
    NamedAction(AddForeignKey, column)
  }

  /**
   * What the foreign-key builder does to the list of action values: the last
   * action, when it is an add-foreign-key action, gets `fk`; nothing else changes.
   */
  function PatchLast(actions: seq<TableAction>, fk: ForeignKey): (patched: seq<TableAction>)
    ensures |patched| == |actions|
  {
    if |actions| > 0 && actions[|actions| - 1].kind == AddForeignKey
    then actions[..|actions| - 1] + [actions[|actions| - 1].(foreignKey := Some(fk))]
    else actions
  }

  /** Patching keeps the length and every action but the last. */
  lemma PatchLastKeepsOthers(actions: seq<TableAction>, fk: ForeignKey)
    ensures |PatchLast(actions, fk)| == |actions|
    ensures forall i :: 0 <= i < |actions| - 1 ==> PatchLast(actions, fk)[i] == actions[i]
  {
  }

  /**
   * The last action keeps its kind and every field but the foreign key, which
   * becomes `fk` when it adds one and stays as it was otherwise.
   */
  lemma PatchLastSetsLast(actions: seq<TableAction>, fk: ForeignKey)
    requires |actions| > 0
    ensures var last := PatchLast(actions, fk)[|actions| - 1];
      last == actions[|actions| - 1].(foreignKey := last.foreignKey)
      && last.foreignKey == (if actions[|actions| - 1].kind == AddForeignKey then Some(fk)
                             else actions[|actions| - 1].foreignKey)
  {
  }

  /** With no actions, or a last action that adds no foreign key, patching changes nothing. */
  lemma PatchLastNonForeignUnchanged(actions: seq<TableAction>, fk: ForeignKey)
    requires |actions| == 0 || actions[|actions| - 1].kind != AddForeignKey
    ensures PatchLast(actions, fk) == actions
  {
  }

  /** Only the latest patch survives: patching again overwrites the previous one. */
  lemma {:induction false} PatchLastTwice(actions: seq<TableAction>, fk1: ForeignKey, fk2: ForeignKey)
    ensures PatchLast(PatchLast(actions, fk1), fk2) == PatchLast(actions, fk2)
  {
    if |actions| > 0 && actions[|actions| - 1].kind == AddForeignKey {
      var n := |actions| - 1;
      var once := PatchLast(actions, fk1);
      assert once[..n] == actions[..n];
      assert once[n].kind == AddForeignKey;
    }
  }

  /** Patching changes no action's kind. */
  lemma PatchLastKeepsKinds(actions: seq<TableAction>, fk: ForeignKey)
    ensures forall i :: 0 <= i < |actions| ==> PatchLast(actions, fk)[i].kind == actions[i].kind
  {
  }

  /** Patching never changes which ALTER statements the dialect emits for the actions. */
  lemma PatchLastKeepsStatements(tableName: string, actions: seq<TableAction>, fk: ForeignKey)
    requires Dialect.AllWellFormed(actions)
    ensures Dialect.AllWellFormed(PatchLast(actions, fk))
    ensures Dialect.AlterTableSQL(tableName, PatchLast(actions, fk)) == Dialect.AlterTableSQL(tableName, actions)
  {
    var patched := PatchLast(actions, fk);
    PatchLastKeepsOthers(actions, fk);
    forall i | 0 <= i < |actions| ensures patched[i] == actions[i].(foreignKey := patched[i].foreignKey) {
      if i == |actions| - 1 {
        PatchLastSetsLast(actions, fk);
      } else {
        assert patched[i] == actions[i];
      }
    }
    Dialect.AlterTableSQLIgnoresForeignKeys(tableName, actions, patched);
  }

  /** `Table`: the table under construction. */
  class Table {
    const name: string
    var columns: seq<ColumnBuilder>
    var actions: seq<ActionRecord>

    /** No column builder and no action record appears twice. */
    ghost predicate Valid()
      reads this
    {
      (forall i, j :: 0 <= i < j < |columns| ==> columns[i] != columns[j])
      && (forall i, j :: 0 <= i < j < |actions| ==> actions[i] != actions[j])
    }

    /** The table as the dialect sees it. */
    function Snapshot(): Types.Table
      reads this, columns, actions
    {
      Types.Table(name, ColumnValues(columns), ActionValues(actions))
    }

    /** `NewTable`: no columns and no actions. */
    constructor(name: string)
      ensures this.name == name && columns == [] && actions == []
      ensures Valid()
    {
      this.name := name;
      columns := [];
      actions := [];
    }

    /** Appends a fresh column builder; every other column and every action stay as they were. */
    method Append(name: string, dataType: string) returns (c: ColumnBuilder)
      requires Valid()
      modifies this
      ensures Valid() && fresh(c)
      ensures columns == old(columns) + [c] && actions == old(actions)
      ensures c.column == NewColumn(name, dataType)
    {
      c := new ColumnBuilder(name, dataType);
      columns := columns + [c];
    }

    method String(name: string) returns (c: ColumnBuilder)
      requires Valid()
      modifies this
      ensures Valid() && fresh(c)
      ensures columns == old(columns) + [c] && actions == old(actions)
      ensures c.column == NewColumn(name, "varchar")
    {
      c := Append(name, "varchar");
    }

    method Int(name: string) returns (c: ColumnBuilder)
      requires Valid()
      modifies this
      ensures Valid() && fresh(c)
      ensures columns == old(columns) + [c] && actions == old(actions)
      ensures c.column == NewColumn(name, "int")
    {
      c := Append(name, "int");
    }

    method BigInt(name: string) returns (c: ColumnBuilder)
      requires Valid()
      modifies this
      ensures Valid() && fresh(c)
      ensures columns == old(columns) + [c] && actions == old(actions)
      ensures c.column == NewColumn(name, "bigint")
    {
      c := Append(name, "bigint");
    }

    method Boolean(name: string) returns (c: ColumnBuilder)
      requires Valid()
      modifies this
      ensures Valid() && fresh(c)
      ensures columns == old(columns) + [c] && actions == old(actions)
      ensures c.column == NewColumn(name, "boolean")
    {
      c := Append(name, "boolean");
    }

    method UUID(name: string) returns (c: ColumnBuilder)
      requires Valid()
      modifies this
      ensures Valid() && fresh(c)
      ensures columns == old(columns) + [c] && actions == old(actions)
      ensures c.column == NewColumn(name, "uuid")
    {
      c := Append(name, "uuid");
    }

    method Decimal(name: string) returns (c: ColumnBuilder)
      requires Valid()
      modifies this
      ensures Valid() && fresh(c)
      ensures columns == old(columns) + [c] && actions == old(actions)
      ensures c.column == NewColumn(name, "decimal")
    {
      c := Append(name, "decimal");
    }

    /** An auto-incrementing primary key. */
    method Increments(name: string) returns (c: ColumnBuilder)
      requires Valid()
      modifies this
      ensures Valid() && fresh(c)
      ensures columns == old(columns) + [c] && actions == old(actions)
      ensures c.column == NewColumn(name, "serial").(isPrimaryKey := true)
    {
      c := Append(name, "serial");
      c := c.Primary();
    }

    /** `created_at` (not null) and `updated_at`, both timestamps. */
    method Timestamps()
      requires Valid()
      modifies this
      ensures Valid() && actions == old(actions)
      ensures |columns| == |old(columns)| + 2 && columns[..|old(columns)|] == old(columns)
      ensures fresh(columns[|old(columns)|]) && fresh(columns[|old(columns)| + 1])
      ensures columns[|old(columns)|].column == NewColumn("created_at", "timestamp").(isNotNull := true)
      ensures columns[|old(columns)| + 1].column == NewColumn("updated_at", "timestamp")
    {
      var created := Append("created_at", "timestamp");
      created := created.NotNullable();
      var updated := Append("updated_at", "timestamp");
    }

    /** Records an action; the columns stay as they were. */
    method Record(a: TableAction) returns (r: ActionRecord)
      requires Valid()
      modifies this
      ensures Valid() && fresh(r)
      ensures actions == old(actions) + [r] && columns == old(columns)
      ensures r.action == a
    {
      r := new ActionRecord(a);
      actions := actions + [r];
    }

    method DropColumn(column: string)
      requires Valid()
      modifies this
      ensures Valid() && columns == old(columns)
      ensures |actions| == |old(actions)| + 1 && actions[..|old(actions)|] == old(actions)
      ensures fresh(actions[|old(actions)|])
      ensures actions[|old(actions)|].action == NamedAction(Types.DropColumn, column)
    {
      var r := Record(NamedAction(Types.DropColumn, column));
    }

    method RenameColumn(oldName: string, newName: string)
      requires Valid()
      modifies this
      ensures Valid() && columns == old(columns)
      ensures |actions| == |old(actions)| + 1 && actions[..|old(actions)|] == old(actions)
      ensures fresh(actions[|old(actions)|])
      ensures actions[|old(actions)|].action == NamedAction(Types.RenameColumn, oldName).(newName := newName)
    {
      var r := Record(NamedAction(Types.RenameColumn, oldName).(newName := newName));
    }

    method Index(cols: seq<string>)
      requires Valid()
      modifies this
      ensures Valid() && columns == old(columns)
      ensures |actions| == |old(actions)| + 1 && actions[..|old(actions)|] == old(actions)
      ensures fresh(actions[|old(actions)|])
      ensures actions[|old(actions)|].action == IndexAction(cols, false)
    {
      var r := Record(IndexAction(cols, false));
    }

    method Unique(cols: seq<string>)
      requires Valid()
      modifies this
      ensures Valid() && columns == old(columns)
      ensures |actions| == |old(actions)| + 1 && actions[..|old(actions)|] == old(actions)
      ensures fresh(actions[|old(actions)|])
      ensures actions[|old(actions)|].action == IndexAction(cols, true)
    {
      var r := Record(IndexAction(cols, true));
    }

    /** Records the foreign-key placeholder and returns a builder for it. */
    method Foreign(column: string) returns (b: ForeignKeyBuilder)
      requires Valid()
      modifies this
      ensures Valid() && columns == old(columns) && fresh(b)
      ensures |actions| == |old(actions)| + 1 && actions[..|old(actions)|] == old(actions)
      ensures fresh(actions[|old(actions)|])
      ensures actions[|old(actions)|].action == ForeignAction(column)
      ensures b.table == this && b.column == column
      ensures b.name == "" && b.refTable == "" && b.refCol == "" && b.onDelete == "" && b.onUpdate == ""
    {
      var r := Record(ForeignAction(column));
      b := new ForeignKeyBuilder(this, column);
    }
  }

  /** The last record of a table, the only one a foreign-key builder may change. */
  function LastActionFrame(t: Table): set<ActionRecord>
    reads t
  {
    if |t.actions| == 0 then {} else {t.actions[|t.actions| - 1]}
  }

  /** The constraint name generated for `column` of `tableName`: `fk_`, the table, `_`, the column. */
  function ForeignKeyName(tableName: string, column: string): (n: string)
    ensures |n| == |tableName| + |column| + 4
    ensures HasPrefix(n, "fk_") && n[|n| - |column|..] == column
    ensures n[3..|n| - |column| - 1] == tableName && n[|n| - |column| - 1] == '_'
  {
    var n := "fk_" + tableName + "_" + column;
    assert n[..3] == "fk_";
    assert n[3..|n| - |column| - 1] == tableName;
    n
  }

  /** `ForeignKeyBuilder`: the foreign key's settings and the table whose last action it keeps up to date. */
  class ForeignKeyBuilder {
    const table: Table
    const column: string
    var name: string
    var refTable: string
    var refCol: string
    var onDelete: string
    var onUpdate: string

    constructor(table: Table, column: string)
      ensures this.table == table && this.column == column
      ensures name == "" && refTable == "" && refCol == "" && onDelete == "" && onUpdate == ""
    {
      this.table := table;
      this.column := column;
      name := "";
      refTable := "";
      refCol := "";
      onDelete := "";
      onUpdate := "";
    }

    /** `generateName`: `fk_`, the table's name, `_`, the column. */
    function GenerateName(): (n: string)
      ensures |n| == |table.name| + |column| + 4
      ensures HasPrefix(n, "fk_") && n[|n| - |column|..] == column
      ensures n[3..|n| - |column| - 1] == table.name && n[|n| - |column| - 1] == '_'
    {
      ForeignKeyName(table.name, column)
    }

    /** `build`: the settings copied verbatim, with the generated name when none was set. */
    function Build(): (fk: ForeignKey)
      reads this
      ensures fk.column == column && fk.refTable == refTable && fk.refColumn == refCol
      ensures fk.onDelete == onDelete && fk.onUpdate == onUpdate && fk.tableName == table.name
      ensures name != "" ==> fk.name == name
      ensures name == "" ==> fk.name == GenerateName()
      ensures fk.name != ""
    {
      ForeignKey(if name == "" then GenerateName() else name, column, refTable, refCol, onDelete, onUpdate, table.name)
    }

    /** The table's action list after a setter: the same records, the values patched with `Build()`. */
    twostate predicate ActionPatched()
      reads this, table, table.actions
    {
      table.actions == old(table.actions) && table.columns == old(table.columns)
      && ActionValues(table.actions) == PatchLast(old(ActionValues(table.actions)), Build())
    }

    /** `updateAction`. */
    method UpdateAction()
      requires table.Valid()
      modifies LastActionFrame(table)
      ensures ActionPatched()
    {
      if |table.actions| > 0 {
        var last := table.actions[|table.actions| - 1];
        if last.action.kind == AddForeignKey {
          last.action := last.action.(foreignKey := Some(Build()));
        }
      }
      PatchedValues(old(ActionValues(table.actions)));
    }

    /** The values now in the table's records are the patched old ones. */
    lemma PatchedValues(before: seq<TableAction>)
      requires table.Valid() && |before| == |table.actions|
      requires forall i :: 0 <= i < |before| - 1 ==> table.actions[i].action == before[i]
      requires |before| > 0 ==> table.actions[|before| - 1].action
                                == PatchLast(before, Build())[|before| - 1]
      ensures ActionValues(table.actions) == PatchLast(before, Build())
    {
    }

    /** `References`. */
    method References(t: string, c: string) returns (b: ForeignKeyBuilder)
      requires table.Valid()
      modifies this, LastActionFrame(table)
      ensures b == this && refTable == t && refCol == c
      ensures name == old(name) && onDelete == old(onDelete) && onUpdate == old(onUpdate)
      ensures ActionPatched()
    {
      refTable := t;
      refCol := c;
      UpdateAction();
      b := this;
    }

    /** `OnDelete`. */
    method OnDelete(action: string) returns (b: ForeignKeyBuilder)
      requires table.Valid()
      modifies this, LastActionFrame(table)
      ensures b == this && onDelete == action
      ensures name == old(name) && refTable == old(refTable) && refCol == old(refCol) && onUpdate == old(onUpdate)
      ensures ActionPatched()
    {
      onDelete := action;
      UpdateAction();
      b := this;
    }

    /** `OnUpdate`. */
    method OnUpdate(action: string) returns (b: ForeignKeyBuilder)
      requires table.Valid()
      modifies this, LastActionFrame(table)
      ensures b == this && onUpdate == action
      ensures name == old(name) && refTable == old(refTable) && refCol == old(refCol) && onDelete == old(onDelete)
      ensures ActionPatched()
    {
      onUpdate := action;
      UpdateAction();
      b := this;
    }

    /** `Name`. */
    method Name(n: string) returns (b: ForeignKeyBuilder)
      requires table.Valid()
      modifies this, LastActionFrame(table)
      ensures b == this && name == n
      ensures refTable == old(refTable) && refCol == old(refCol) && onDelete == old(onDelete) && onUpdate == old(onUpdate)
      ensures ActionPatched()
    {
      name := n;
      UpdateAction();
      b := this;
    }
  }
}
