/**
 * The builder's documented behaviour, one scenario per behaviour: each method
 * builds a fresh table with the builder and returns what the dialect would see.
 */
module Scenarios {

  import opened Wrappers
  import opened Types
  import Schema
  import Dialect

  /** `String` records a varchar column under the given name. */
  method StringColumn() returns (t: Types.Table)
    ensures t == Types.Table("users", [NewColumn("name", "varchar")], [])
  {
    var table := new Schema.Table("users");
    var col := table.String("name");
    t := table.Snapshot();
  }

  /** Modifiers change the column already recorded in the table. */
  method StringWithModifiers() returns (t: Types.Table)
    ensures t.columns == [NewColumn("email", "varchar").(length := 255, isNotNull := true, isUnique := true)]
    ensures t.columns[0].length == 255 && t.columns[0].isNotNull && t.columns[0].isUnique
  {
    var table := new Schema.Table("users");
    var col := table.String("email");
    col := col.Length(255);
    col := col.NotNullable();
    col := col.Unique();
    t := table.Snapshot();
  }

  /** Each typed column method records its own generic type, in call order. */
  method TypedColumns() returns (t: Types.Table)
    ensures t.actions == []
    ensures t.columns == [
      NewColumn("age", "int"),
      NewColumn("views", "bigint"),
      NewColumn("active", "boolean").(defaultValue := Bool(true), hasDefault := true),
      NewColumn("id", "uuid").(isPrimaryKey := true)]
  {
    var table := new Schema.Table("users");
    var age := table.Int("age");
    var views := table.BigInt("views");
    var active := table.Boolean("active");
    active := active.Default(Bool(true));
    var id := table.UUID("id");
    id := id.Primary();
    t := table.Snapshot();
  }

  /** A decimal column with its precision, scale and NOT NULL set. */
  method DecimalColumn() returns (t: Types.Table)
    ensures t.columns == [NewColumn("price", "decimal").(precision := 10, scale := 2, isNotNull := true)]
  {
    var table := new Schema.Table("products");
    var col := table.Decimal("price");
    col := col.Precision(10);
    col := col.Scale(2);
    col := col.NotNullable();
    t := table.Snapshot();
  }

  /** `Timestamps` on a fresh table adds exactly `created_at` and `updated_at`. */
  method TimestampColumns() returns (t: Types.Table)
    ensures |t.columns| == 2 && t.actions == []
    ensures t.columns[0].name == "created_at" && t.columns[0].dataType == "timestamp" && t.columns[0].isNotNull
    ensures t.columns[1].name == "updated_at" && t.columns[1].dataType == "timestamp"
  {
    var table := new Schema.Table("users");
    table.Timestamps();
    t := table.Snapshot();
  }

  /** `Increments` records a serial primary key. */
  method IncrementsColumn() returns (t: Types.Table)
    ensures t.columns == [NewColumn("id", "serial").(isPrimaryKey := true)]
  {
    var table := new Schema.Table("users");
    var col := table.Increments("id");
    t := table.Snapshot();
  }

  /** `DropColumn` on a fresh table records exactly one `drop_column` action naming the column. */
  method DropColumnAction() returns (t: Types.Table)
    ensures t.columns == [] && |t.actions| == 1
    ensures ActionTypeName(t.actions[0].kind) == Some("drop_column") && t.actions[0].name == "legacy_field"
  {
    var table := new Schema.Table("users");
    table.DropColumn("legacy_field");
    t := table.Snapshot();
    assert t.actions[0].kind == DropColumn;
    ShownNames();
  }

  /** `RenameColumn` records the old name as the name and the new name beside it. */
  method RenameColumnAction() returns (t: Types.Table)
    ensures |t.actions| == 1
    ensures ActionTypeName(t.actions[0].kind) == Some("rename_column")
    ensures t.actions[0].name == "old_name" && t.actions[0].newName == "new_name"
  {
    var table := new Schema.Table("users");
    table.RenameColumn("old_name", "new_name");
    t := table.Snapshot();
    assert t.actions[0].kind == RenameColumn;
    ShownNames();
  }

  /** `Index` and `Unique` each record a `create_index` action over their columns. */
  method IndexActions() returns (t: Types.Table)
    ensures |t.actions| == 2
    ensures ActionTypeName(t.actions[0].kind) == Some("create_index")
    ensures t.actions[0].index == Some(Index(["email"], false))
    ensures t.actions[1].index == Some(Index(["email"], true))
  {
    var table := new Schema.Table("users");
    table.Index(["email"]);
    table.Unique(["email"]);
    t := table.Snapshot();
    assert t.actions[0].kind == CreateIndex;
    ShownNames();
  }

  /** A foreign key declared through the builder ends up complete in the table's only action. */
  method ForeignKeyAction() returns (t: Types.Table)
    ensures |t.actions| == 1
    ensures ActionTypeName(t.actions[0].kind) == Some("add_foreign_key")
    ensures t.actions[0].foreignKey
         == Some(ForeignKey("fk_posts_user_id", "user_id", "users", "id", "CASCADE", "", "posts"))
  {
    var table := new Schema.Table("posts");
    var fk := table.Foreign("user_id");
    fk := fk.References("users", "id");
    fk := fk.OnDelete("CASCADE");
    t := table.Snapshot();
    assert t.actions[0].kind == AddForeignKey;
    ShownNames();
    ghost var key := fk.Build();
    assert t.actions[0].foreignKey == Some(key);
    assert key.name == Schema.ForeignKeyName("posts", "user_id");
    PostsForeignKeyName();
  }

  /** The action-type names the source shows for the kinds the scenarios record. */
  lemma ShownNames()
    ensures ActionTypeName(DropColumn) == Some("drop_column")
    ensures ActionTypeName(RenameColumn) == Some("rename_column")
    ensures ActionTypeName(CreateIndex) == Some("create_index")
    ensures ActionTypeName(AddForeignKey) == Some("add_foreign_key")
  {
  }

  /** The generated name for column `user_id` of table `posts`. */
  lemma PostsForeignKeyName()
    ensures Schema.ForeignKeyName("posts", "user_id") == "fk_posts_user_id"
  {
  }

  /** A name given with `Name` replaces the generated one, whenever it is set. */
  method NamedForeignKey() returns (t: Types.Table)
    ensures |t.actions| == 1
    ensures t.actions[0].foreignKey
         == Some(ForeignKey("author_fk", "user_id", "users", "id", "", "CASCADE", "posts"))
  {
    var table := new Schema.Table("posts");
    var fk := table.Foreign("user_id");
    fk := fk.Name("author_fk");
    fk := fk.References("users", "id");
    fk := fk.OnUpdate("CASCADE");
    t := table.Snapshot();
  }

  /**
   * A foreign-key builder only ever patches the table's last action: once
   * another action follows the placeholder, later setters reach nothing and the
   * placeholder keeps no foreign key.
   */
  method InterleavedForeignKey() returns (t: Types.Table)
    ensures |t.actions| == 2
    ensures t.actions[0] == Schema.ForeignAction("user_id")
    ensures t.actions[0].foreignKey == None
    ensures t.actions[1] == NamedAction(Types.DropColumn, "legacy_field")
  {
    var table := new Schema.Table("posts");
    var fk := table.Foreign("user_id");
    table.DropColumn("legacy_field");
    fk := fk.References("users", "id");
    t := table.Snapshot();
  }

  /**
   * The builder patches whatever action is last, as long as it adds a foreign
   * key: a setter on the first of two builders fills in the second
   * placeholder with the first builder's key and leaves its own empty.
   */
  method CrossedForeignKeys() returns (t: Types.Table)
    ensures |t.actions| == 2
    ensures t.actions[0] == Schema.ForeignAction("user_id")
    ensures t.actions[1].kind == AddForeignKey && t.actions[1].name == "author_id"
    ensures t.actions[1].foreignKey
         == Some(ForeignKey("fk_posts_user_id", "user_id", "users", "id", "", "", "posts"))
  {
    var table := new Schema.Table("posts");
    var first := table.Foreign("user_id");
    var second := table.Foreign("author_id");
    first := first.References("users", "id");
    t := table.Snapshot();
    assert first.GenerateName() == Schema.ForeignKeyName("posts", "user_id");
    PostsForeignKeyName();
  }

  /** Every modifier lands on the same column, `Default("")` included. */
  method ChainedModifiers() returns (t: Types.Table)
    ensures |t.columns| == 1
    ensures t.columns[0].length == 50 && t.columns[0].isNotNull && t.columns[0].isUnique
    ensures t.columns[0].hasDefault && t.columns[0].defaultValue == Str("")
    ensures t.columns[0].comment == "Stock Keeping Unit"
  {
    var table := new Schema.Table("products");
    var col := table.String("sku");
    col := col.Length(50);
    col := col.NotNullable();
    col := col.Unique();
    col := col.Default(Str(""));
    col := col.Comment("Stock Keeping Unit");
    t := table.Snapshot();
  }

  /** Indexes and foreign keys declared through the builder produce no ALTER statements. */
  method BuilderAlterStatements() returns (statements: seq<string>)
    ensures statements == []
  {
    var table := new Schema.Table("posts");
    table.Index(["user_id"]);
    var fk := table.Foreign("user_id");
    fk := fk.References("users", "id");
    var t := table.Snapshot();
    Dialect.AlterTableSQLUnhandled("posts", t.actions);
    statements := Dialect.AlterTableSQL("posts", t.actions);
  }
}
