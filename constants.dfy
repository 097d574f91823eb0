/** The command-line tool's fixed paths, the runtime import path and the migration-folder pattern. */
module Constants {

  import opened Text

  /** Paths relative to the project root. */
  const JoneFolderPath: string := "jone"
  const JoneFilePath: string := "jone/jonefile.go"
  const MigrationsPath: string := "jone/migrations"

  /** The import path of the runtime library. */
  const RuntimePackage: string := "github.com/Grandbusta/jone"

  /** The length of the run of ASCII digits that `s` starts with. */
  function LeadingDigits(s: string): (n: nat)
    ensures n <= |s| && AllDigits(s[..n])
    ensures n == |s| || !IsDigit(s[n])
  {
    if s == [] || !IsDigit(s[0]) then 0
    else
      var n := 1 + LeadingDigits(s[1..]);
      assert s[..n] == [s[0]] + s[1..][..n - 1];
      n
  }

  /** `MigrationDirPattern`, the expression `^\d+_`: one or more leading digits, then `_`. */
  predicate MatchesMigrationPattern(name: string)
    ensures MatchesMigrationPattern(name) ==> |name| >= 2 && IsDigit(name[0]) && '_' in name
  {
    var n := LeadingDigits(name);
    1 <= n < |name| && name[n] == '_'
  }

  /**
   * The pattern matches exactly when some non-empty digit prefix is followed
   * by an underscore.
   */
  lemma MigrationPatternIff(name: string)
    ensures MatchesMigrationPattern(name)
        <==> exists k :: 1 <= k < |name| && AllDigits(name[..k]) && name[k] == '_'
  {
    var n := LeadingDigits(name);
    if k :| 1 <= k < |name| && AllDigits(name[..k]) && name[k] == '_' {
      if k < n {
        assert name[..n][k] == name[k];
      } else if k > n {
        assert name[..k][n] == name[n];
      }
    }
  }
}
