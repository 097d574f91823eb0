/**
 * The migration registry: which folders of the migrations directory become
 * registry records, and the alias and import path each record gets. The
 * directory listing and go.mod are inputs; `None` stands for a read that failed.
 */
module Registry {

  import opened Wrappers
  import opened Text
  import opened Constants
  import GoMod

  /** One entry of the migrations directory, in the order the listing gives. */
  datatype DirEntry = DirEntry(name: string, isDir: bool)

  /** One migration as the registry template receives it. */
  datatype MigrationInfo = MigrationInfo(name: string, alias: string, importPath: string)

  /** Why the registry could not be regenerated. */
  datatype RegistryError = ReadDirError | ModulePathError

  /**
   * `aliasFromFolder`: `m` followed by the folder name cut at its first `_`,
   * unless that `_` is the first character, in which case nothing is cut.
   */
  function AliasFromFolder(folder: string): (alias: string)
    ensures |alias| >= 1 && alias[0] == 'm'
    ensures HasPrefix(folder, alias[1..])
    ensures |alias| - 1 < |folder| ==> folder[|alias| - 1] == '_'
    ensures '_' in alias <==> folder != [] && folder[0] == '_'
    ensures folder != [] && folder[0] == '_' ==> alias == "m" + folder
  {
    var idx := IndexOf(folder, '_');
    if idx > 0 then
      var alias := "m" + folder[..idx];
      assert alias[1..] == folder[..idx];
      assert forall k :: 1 <= k < |alias| ==> alias[k] == folder[k - 1];
      alias
    else
      var alias := "m" + folder;
      assert alias[1..] == folder;
      assert folder != [] ==> alias[1] == folder[0];
      alias
  }

  /** For a migration folder the alias is `m` and the folder's leading digits. */
  lemma AliasOfMigrationName(name: string)
    requires MatchesMigrationPattern(name)
    ensures AliasFromFolder(name) == "m" + name[..LeadingDigits(name)]
  {
    var n := LeadingDigits(name);
    var idx := IndexOf(name, '_');
    assert idx != -1 by { assert name[n] == '_'; }
  }

  /** Two migration folders with the same leading digits get the same alias. */
  lemma SameDigitsSameAlias(a: string, b: string)
    requires MatchesMigrationPattern(a) && MatchesMigrationPattern(b)
    requires a[..LeadingDigits(a)] == b[..LeadingDigits(b)]
    ensures AliasFromFolder(a) == AliasFromFolder(b)
  {
    AliasOfMigrationName(a);
    AliasOfMigrationName(b);
  }

  /** Where a migration folder's package is imported from. */
  function ImportPath(modulePath: string, name: string): (path: string)
    ensures HasPrefix(path, modulePath + "/jone/migrations/")
    ensures path[|modulePath| + 17..] == name
  {
    var path := modulePath + "/" + MigrationsPath + "/" + name;
    assert path[..|modulePath| + 17] == modulePath + "/jone/migrations/";
    path
  }

  /** Within one module, distinct folders get distinct import paths. */
  lemma ImportPathInjective(modulePath: string, a: string, b: string)
    ensures ImportPath(modulePath, a) == ImportPath(modulePath, b) ==> a == b
  {
  }

  /** A directory other than `registry` whose name matches the migration pattern. */
  predicate Selected(e: DirEntry)
    ensures Selected(e) ==> e.isDir && |e.name| >= 2 && IsDigit(e.name[0]) && '_' in e.name
  {
    e.isDir && e.name != "registry" && MatchesMigrationPattern(e.name)
  }

  function Info(modulePath: string, name: string): MigrationInfo {
    MigrationInfo(name, AliasFromFolder(name), ImportPath(modulePath, name))
  }

  /** The records for the selected entries, in listing order. */
  function SelectMigrations(entries: seq<DirEntry>, modulePath: string): (ms: seq<MigrationInfo>)
    ensures |ms| <= |entries|
  {
    if entries == [] then []
    else
      var before := SelectMigrations(entries[..|entries| - 1], modulePath);
      var e := entries[|entries| - 1];
      if Selected(e) then before + [Info(modulePath, e.name)] else before
  }

  /** A single entry gives its record exactly when it is selected. */
  lemma SelectOne(e: DirEntry, modulePath: string)
    ensures SelectMigrations([e], modulePath) == if Selected(e) then [Info(modulePath, e.name)] else []
  {
    assert [e][..0] == [];
  }

  /** Selection works entry by entry and keeps the listing order. */
  lemma {:induction false} SelectAppend(xs: seq<DirEntry>, ys: seq<DirEntry>, modulePath: string)
    ensures SelectMigrations(xs + ys, modulePath)
         == SelectMigrations(xs, modulePath) + SelectMigrations(ys, modulePath)
    decreases |ys|
  {
    if ys == [] {
      assert xs + ys == xs;
    } else {
      var ys' := ys[..|ys| - 1];
      assert (xs + ys)[..|xs + ys| - 1] == xs + ys';
      assert (xs + ys)[|xs + ys| - 1] == ys[|ys| - 1];
      SelectAppend(xs, ys', modulePath);
    }
  }

  /** Every selected entry gets its record. */
  lemma SelectComplete(entries: seq<DirEntry>, modulePath: string, k: nat)
    requires k < |entries| && Selected(entries[k])
    ensures Info(modulePath, entries[k].name) in SelectMigrations(entries, modulePath)
  {
    var pre, post := entries[..k], entries[k + 1..];
    assert entries == pre + [entries[k]] + post;
    SelectAppend(pre + [entries[k]], post, modulePath);
    SelectAppend(pre, [entries[k]], modulePath);
    SelectOne(entries[k], modulePath);
  }

  /** Every record belongs to a selected entry, under that entry's name. */
  lemma {:induction false} SelectSound(entries: seq<DirEntry>, modulePath: string, m: MigrationInfo) returns (k: nat)
    requires m in SelectMigrations(entries, modulePath)
    ensures k < |entries| && Selected(entries[k]) && m == Info(modulePath, entries[k].name)
    decreases |entries|
  {
    var before := entries[..|entries| - 1];
    var e := entries[|entries| - 1];
    assert entries == before + [e];
    SelectAppend(before, [e], modulePath);
    SelectOne(e, modulePath);
    if m in SelectMigrations(before, modulePath) {
      k := SelectSound(before, modulePath, m);
      assert before[k] == entries[k];
    } else {
      k := |entries| - 1;
    }
  }

  /** `registry` never matches the migration pattern, so skipping it by name changes nothing. */
  lemma RegistryNameSkipped()
    ensures !MatchesMigrationPattern("registry")
  {
    assert !IsDigit("registry"[0]);
  }

  /**
   * `RegenerateRegistry` up to the file write: a failed directory read is
   * reported first, then a missing module path; otherwise the records for the
   * selected entries, in listing order.
   */
  method RegenerateRegistry(entries: Option<seq<DirEntry>>, goMod: Option<seq<string>>)
    returns (r: Result<seq<MigrationInfo>, RegistryError>)
    ensures entries.None? ==> r == Failure(ReadDirError)
    ensures entries.Some? && GoMod.ModulePathOf(goMod) == "" ==> r == Failure(ModulePathError)
    ensures entries.Some? && GoMod.ModulePathOf(goMod) != ""
        ==> r == Success(SelectMigrations(entries.value, GoMod.ModulePathOf(goMod)))
  {
    if entries.None? {
      return Failure(ReadDirError);
    }
    var modulePath := GoMod.ReadModulePath(goMod);
    if modulePath == "" {
      return Failure(ModulePathError);
    }
    var es := entries.value;
    var migrations: seq<MigrationInfo> := [];
    for i := 0 to |es|
      invariant migrations == SelectMigrations(es[..i], modulePath)
    {
      assert es[..i + 1][..i] == es[..i];
      var entry := es[i];
      if !entry.isDir {
        continue;
      }
      var name := entry.name;
      if name == "registry" {
        continue;
      }
      if MatchesMigrationPattern(name) {
        migrations := migrations + [MigrationInfo(name, AliasFromFolder(name), modulePath + "/" + MigrationsPath + "/" + name)];
      }
    }
    assert es[..|es|] == es;
    return Success(migrations);
  }
}
