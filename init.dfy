/**
 * The dependency check of `jone init`: the go.mod scanner again, this time
 * with the runtime import path written out as a literal.
 */
module Init {

  import opened Wrappers
  import opened Constants
  import GoMod

  /** The import path as `init` spells it. */
  const InitRuntimeLiteral: string := "github.com/Grandbusta/jone"

  /** The literal and the shared constant are the same path. */
  lemma LiteralIsRuntimePackage()
    ensures InitRuntimeLiteral == RuntimePackage
  {
  }

  /** `joneDependencyPresent`: the same scan, so it agrees with the go.mod check on every file. */
  method JoneDependencyPresent(goMod: Option<seq<string>>) returns (present: bool)
    ensures present == (goMod.Some? && GoMod.DependencyListed(goMod.value, RuntimePackage))
  {
    if goMod.None? {
      return false;
    }
    present := GoMod.ScanRequires(goMod.value, InitRuntimeLiteral);
  }
}
