/**
 * The two go.mod scanners: the module-path reader and the check that the
 * runtime library is required. A go.mod file is its sequence of lines, or
 * `None` when it cannot be opened.
 */
module GoMod {

  import opened Wrappers
  import opened Text
  import opened Constants

  /** A line that declares the module: after trimming it starts with `module `. */
  predicate IsModuleLine(raw: string) {
    HasPrefix(TrimSpace(raw), "module ")
  }

  /** What the reader returns for a module line. */
  function ModuleValue(raw: string): (path: string)
    ensures Trimmed(path)
  {
    TrimSpace(TrimPrefix(TrimSpace(raw), "module"))
  }

  /** The value of the first module line, or "" when there is none. */
  function ModulePathIn(lines: seq<string>): (path: string)
    ensures Trimmed(path)
  {
    if lines == [] then ""
    else if IsModuleLine(lines[0]) then ModuleValue(lines[0])
    else ModulePathIn(lines[1..])
  }

  /** An unreadable file has no module path. */
  function ModulePathOf(goMod: Option<seq<string>>): string {
    if goMod.None? then "" else ModulePathIn(goMod.value)
  }

  /** `ReadModulePath`. */
  method ReadModulePath(goMod: Option<seq<string>>) returns (path: string)
    ensures path == ModulePathOf(goMod)
  {
    if goMod.None? {
      return "";
    }
    var lines := goMod.value;
    var i := 0;
    while i < |lines|
      invariant 0 <= i <= |lines|
      invariant ModulePathIn(lines) == ModulePathIn(lines[i..])
    {
      var line := TrimSpace(lines[i]);
      if HasPrefix(line, "module ") {
        return TrimSpace(TrimPrefix(line, "module"));
      }
      assert lines[i..][1..] == lines[i + 1..];
      i := i + 1;
    }
    return "";
  }

  /** A module line never yields an empty path: the trimmed line ends in a non-space. */
  lemma ModuleValueNonEmpty(raw: string)
    requires IsModuleLine(raw)
    ensures ModuleValue(raw) != ""
  {
    var line := TrimSpace(raw);
    PrefixOfPrefix(line, "module ", "module");
    var rest := TrimPrefix(line, "module");
    assert rest == line[6..];
    assert rest[|rest| - 1] == line[|line| - 1];
    TrimSpaceNonEmpty(rest, |rest| - 1);
  }

  /** A bare `module` line, with nothing after the keyword, declares nothing. */
  lemma BareModuleLineIgnored(raw: string, lines: seq<string>)
    requires TrimSpace(raw) == "module"
    ensures ModulePathIn([raw] + lines) == ModulePathIn(lines)
  {
    assert ([raw] + lines)[1..] == lines;
  }

  /** The first module line decides the path; later ones are ignored. */
  lemma {:induction false} ModulePathFirstWins(lines: seq<string>, k: nat)
    requires k < |lines| && IsModuleLine(lines[k])
    requires forall j :: 0 <= j < k ==> !IsModuleLine(lines[j])
    ensures ModulePathIn(lines) == ModuleValue(lines[k])
  {
    if k > 0 {
      assert forall j :: 0 <= j < k - 1 ==> lines[1..][j] == lines[j + 1];
      ModulePathFirstWins(lines[1..], k - 1);
    }
  }

  /** The path is non-empty exactly when some line declares the module. */
  lemma {:induction false} ModulePathNonEmptyIff(lines: seq<string>)
    ensures ModulePathIn(lines) != "" <==> exists k :: 0 <= k < |lines| && IsModuleLine(lines[k])
  {
    if lines != [] {
      if IsModuleLine(lines[0]) {
        ModuleValueNonEmpty(lines[0]);
      } else {
        ModulePathNonEmptyIff(lines[1..]);
        if k :| 0 <= k < |lines| && IsModuleLine(lines[k]) {
          assert lines[1..][k - 1] == lines[k];
        }
      }
    }
  }

  /** The line `go mod init p` writes reads back as `p`. */
  lemma ModuleLineRoundTrip(p: string)
    requires p != [] && Trimmed(p)
    ensures ModulePathIn(["module " + p]) == p
  {
    var rest := " " + p;
    var line := "module" + rest;
    assert line == "module " + p;
    assert line[0] == 'm' && line[|line| - 1] == p[|p| - 1];
    TrimSpaceOfTrimmed(line);
    TrimPrefixConcat("module ", p);
    TrimPrefixConcat("module", rest);
    TrimSpaceLeadingSpace(p);
  }

  /** Inside the block: a non-blank, non-comment line whose first field is `pkg`. */
  predicate BlockEntry(line: string, pkg: string) {
    line != "" && !HasPrefix(line, "//") && FirstFieldIs(line, pkg)
  }

  /** Outside the block: `require ` followed by a first field equal to `pkg`. */
  predicate SingleRequire(line: string, pkg: string) {
    HasPrefix(line, "require ") && FirstFieldIs(TrimSpace(TrimPrefix(line, "require")), pkg)
  }

  /** What the scanner can tell about one line before it knows the block state. */
  datatype LineInfo = LineInfo(opensBlock: bool, closes: bool, blockEntry: bool, singleRequire: bool)

  /** The trimmed line's shape: `require (`, a leading `)`, a block entry for `pkg`, a one-line require of `pkg`. */
  function Classify(raw: string, pkg: string): LineInfo {
    var line := TrimSpace(raw);
    LineInfo(HasPrefix(line, "require ("), HasPrefix(line, ")"), BlockEntry(line, pkg), SingleRequire(line, pkg))
  }

  function Classified(lines: seq<string>, pkg: string): seq<LineInfo> {
    seq(|lines|, i requires 0 <= i < |lines| => Classify(lines[i], pkg))
  }

  /** The block state after a line: `require (` opens the block and `)` closes an open one. */
  function NextInBlock(inBlock: bool, info: LineInfo): bool {
    if info.opensBlock then true
    else if inBlock && info.closes then false
    else inBlock
  }

  /**
   * The line names the package in the given block state. `require (` never
   * does; inside the block a `)` line never does.
   */
  predicate Names(inBlock: bool, info: LineInfo) {
    !info.opensBlock && if inBlock then !info.closes && info.blockEntry else info.singleRequire
  }

  /** Some line, read in the state its predecessors leave, names the package. */
  predicate ListedFrom(inBlock: bool, infos: seq<LineInfo>)
    decreases |infos|
  {
    infos != [] && (Names(inBlock, infos[0]) || ListedFrom(NextInBlock(inBlock, infos[0]), infos[1..]))
  }

  /** The block state after reading `infos` from state `inBlock`. */
  function StateAfter(inBlock: bool, infos: seq<LineInfo>): bool
    decreases |infos|
  {
    if infos == [] then inBlock else StateAfter(NextInBlock(inBlock, infos[0]), infos[1..])
  }

  /** The file lists `pkg`, reading from outside any block. */
  predicate DependencyListed(lines: seq<string>, pkg: string) {
    ListedFrom(false, Classified(lines, pkg))
  }

  /** One dependency check over an open file's lines, for any package path. */
  method ScanRequires(lines: seq<string>, pkg: string) returns (present: bool)
    ensures present == DependencyListed(lines, pkg)
  {
    ghost var infos := Classified(lines, pkg);
    var inRequireBlock := false;
    for i := 0 to |lines|
      invariant DependencyListed(lines, pkg) == ListedFrom(inRequireBlock, infos[i..])
    {
      assert infos[i..][1..] == infos[i + 1..];
      assert infos[i..][0] == Classify(lines[i], pkg);
      var line := TrimSpace(lines[i]);
      if HasPrefix(line, "require (") {
        inRequireBlock := true;
        continue;
      }
      if inRequireBlock && HasPrefix(line, ")") {
        inRequireBlock := false;
        continue;
      }
      if inRequireBlock {
        if line == "" || HasPrefix(line, "//") {
          continue;
        }
        var fields := Fields(line);
        FieldsHead(line, pkg);
        if |fields| >= 1 && fields[0] == pkg {
          return true;
        }
        continue;
      }
      if HasPrefix(line, "require ") {
        var rest := TrimSpace(TrimPrefix(line, "require"));
        var fields := Fields(rest);
        FieldsHead(rest, pkg);
        if |fields| >= 1 && fields[0] == pkg {
          return true;
        }
      }
    }
    return false;
  }

  /** `JoneDependencyPresent`: false for an unreadable file. */
  method JoneDependencyPresent(goMod: Option<seq<string>>) returns (present: bool)
    ensures present == (goMod.Some? && DependencyListed(goMod.value, RuntimePackage))
  {
    if goMod.None? {
      return false;
    }
    present := ScanRequires(goMod.value, RuntimePackage);
  }

  /** Reading a non-empty prefix is reading its first line, then the rest. */
  lemma StateAfterCons(inBlock: bool, infos: seq<LineInfo>, i: nat)
    requires 1 <= i <= |infos|
    ensures StateAfter(inBlock, infos[..i]) == StateAfter(NextInBlock(inBlock, infos[0]), infos[1..][..i - 1])
  {
    assert infos[..i][1..] == infos[1..][..i - 1];
  }

  /** A line that names the package in its state makes the file list it. */
  lemma {:induction false} ListedFromWitness(inBlock: bool, infos: seq<LineInfo>, i: nat)
    requires i < |infos| && Names(StateAfter(inBlock, infos[..i]), infos[i])
    ensures ListedFrom(inBlock, infos)
    decreases i
  {
    if i > 0 {
      StateAfterCons(inBlock, infos, i);
      assert infos[1..][i - 1] == infos[i];
      ListedFromWitness(NextInBlock(inBlock, infos[0]), infos[1..], i - 1);
    } else {
      assert infos[..0] == [];
    }
  }

  /** A listed package is named by some line in the state before it. */
  lemma {:induction false} ListedFromFind(inBlock: bool, infos: seq<LineInfo>) returns (i: nat)
    requires ListedFrom(inBlock, infos)
    ensures i < |infos| && Names(StateAfter(inBlock, infos[..i]), infos[i])
    decreases |infos|
  {
    if Names(inBlock, infos[0]) {
      assert infos[..0] == [];
      i := 0;
    } else {
      var j := ListedFromFind(NextInBlock(inBlock, infos[0]), infos[1..]);
      i := j + 1;
      StateAfterCons(inBlock, infos, i);
      assert infos[1..][j] == infos[i];
    }
  }

  /**
   * The file lists `pkg` exactly when some line names it in the block state
   * that the lines before it leave, starting outside any block.
   */
  lemma DependencyListedIff(lines: seq<string>, pkg: string)
    ensures DependencyListed(lines, pkg)
        <==> exists i :: 0 <= i < |lines|
               && Names(StateAfter(false, Classified(lines, pkg)[..i]), Classify(lines[i], pkg))
  {
    var infos := Classified(lines, pkg);
    if ListedFrom(false, infos) {
      var i := ListedFromFind(false, infos);
      assert infos[i] == Classify(lines[i], pkg);
    }
    if i :| 0 <= i < |lines| && Names(StateAfter(false, infos[..i]), Classify(lines[i], pkg)) {
      assert infos[i] == Classify(lines[i], pkg);
      ListedFromWitness(false, infos, i);
    }
  }

  /** An empty file lists nothing. */
  lemma EmptyNotListed(pkg: string)
    ensures !DependencyListed([], pkg)
  {
  }

  lemma {:induction false} ListedFromAppend(inBlock: bool, xs: seq<LineInfo>, ys: seq<LineInfo>)
    requires ListedFrom(inBlock, xs)
    ensures ListedFrom(inBlock, xs + ys)
    decreases |xs|
  {
    assert (xs + ys)[0] == xs[0];
    if !Names(inBlock, xs[0]) {
      assert (xs + ys)[1..] == xs[1..] + ys;
      ListedFromAppend(NextInBlock(inBlock, xs[0]), xs[1..], ys);
    }
  }

  /** Classifying is line by line. */
  lemma ClassifiedAppend(xs: seq<string>, ys: seq<string>, pkg: string)
    ensures Classified(xs + ys, pkg) == Classified(xs, pkg) + Classified(ys, pkg)
  {
    var l, r := Classified(xs + ys, pkg), Classified(xs, pkg) + Classified(ys, pkg);
    assert |l| == |r|;
    forall k | 0 <= k < |l|
      ensures l[k] == r[k]
    {
      assert l[k] == Classify((xs + ys)[k], pkg);
      if k < |xs| {
        assert (xs + ys)[k] == xs[k];
        assert r[k] == Classified(xs, pkg)[k];
      } else {
        assert (xs + ys)[k] == ys[k - |xs|];
        assert r[k] == Classified(ys, pkg)[k - |xs|];
      }
    }
  }

  /** More lines never withdraw a dependency already found: the scanner returns at the first hit. */
  lemma DependencyListedAppend(xs: seq<string>, ys: seq<string>, pkg: string)
    requires DependencyListed(xs, pkg)
    ensures DependencyListed(xs + ys, pkg)
  {
    ClassifiedAppend(xs, ys, pkg);
    ListedFromAppend(false, Classified(xs, pkg), Classified(ys, pkg));
  }

  /** A `)` outside a block changes nothing. */
  lemma CloseOutsideBlockIgnored(lines: seq<string>, pkg: string)
    ensures DependencyListed([")"] + lines, pkg) == DependencyListed(lines, pkg)
  {
    var infos := Classified([")"] + lines, pkg);
    assert TrimSpace(")") == ")";
    assert !HasPrefix(")", "require (") && !HasPrefix(")", "require ");
    assert infos[0] == Classify(")", pkg);
    assert infos[1..] == Classified(lines, pkg);
  }

  /**
   * A package path that no other kind of line can be mistaken for: non-empty,
   * free of white space, not the word `require`, and not starting with `(`, `)`
   * or `/`.
   */
  predicate PlainPath(pkg: string) {
    pkg != [] && NoSpace(pkg) && pkg != "require" && pkg[0] != '(' && pkg[0] != ')' && pkg[0] != '/'
  }

  lemma RuntimePackageIsPlain()
    ensures PlainPath(RuntimePackage)
  {
    assert RuntimePackage[0] == 'g';
  }

  /** A line starting with a plain path and a space is no `require` line. */
  lemma EntryNotRequire(pkg: string, rest: string)
    requires PlainPath(pkg)
    ensures !HasPrefix(pkg + " " + rest, "require ")
  {
    var e := pkg + " " + rest;
    assert e == pkg + (" " + rest);
    WordOfConcat(pkg, " " + rest);
    if HasPrefix(e, "require ") {
      assert e == "require" + e[7..];
      WordOfConcat("require", e[7..]);
    }
  }

  /** How the scanner sees `pkg version`, the form of an entry inside a block. */
  lemma EntryLine(pkg: string, version: string)
    requires PlainPath(pkg) && version != [] && NoSpace(version)
    ensures !Classify(pkg + " " + version, pkg).opensBlock
    ensures !Classify(pkg + " " + version, pkg).closes
    ensures Classify(pkg + " " + version, pkg).blockEntry
    ensures !Classify(pkg + " " + version, pkg).singleRequire
  {
    var entry := pkg + " " + version;
    assert entry[0] == pkg[0] && entry[|entry| - 1] == version[|version| - 1];
    TrimSpaceOfTrimmed(entry);
    EntryNotRequire(pkg, version);
    assert !HasPrefix(entry, "require (") by { PrefixOfPrefix(entry, "require (", "require "); }
    assert !HasPrefix(entry, ")") && !HasPrefix(entry, "//");
    assert entry == pkg + (" " + version);
    FirstFieldOfConcat(pkg, " " + version);
  }

  /** `require ` before a trimmed entry: the line is trimmed and drops back to the entry. */
  lemma RequireLineParts(entry: string)
    requires entry != [] && Trimmed(entry)
    ensures TrimSpace("require " + entry) == "require " + entry
    ensures HasPrefix("require " + entry, "require ")
    ensures TrimSpace(TrimPrefix("require " + entry, "require")) == entry
  {
    var line := "require " + entry;
    assert line == "require" + (" " + entry);
    assert line[0] == 'r' && line[|line| - 1] == entry[|entry| - 1];
    TrimSpaceOfTrimmed(line);
    TrimPrefixConcat("require ", entry);
    TrimPrefixConcat("require", " " + entry);
    TrimSpaceLeadingSpace(entry);
  }

  /** `require ` before an entry that does not start with `(` does not open a block. */
  lemma RequireLineNotBlock(entry: string)
    requires entry != [] && entry[0] != '('
    ensures !HasPrefix("require " + entry, "require (")
  {
    assert ("require " + entry)[8] == entry[0];
  }

  /** `require ` before an entry whose first field is `pkg` is a one-line require of `pkg`. */
  lemma RequireLineSingle(entry: string, pkg: string)
    requires entry != [] && Trimmed(entry) && entry[0] != '(' && FirstFieldIs(entry, pkg)
    ensures TrimSpace("require " + entry) == "require " + entry
    ensures !HasPrefix("require " + entry, "require (")
    ensures SingleRequire("require " + entry, pkg)
  {
    RequireLineParts(entry);
    RequireLineNotBlock(entry);
  }

  /** `pkg version` is a trimmed line whose first field is `pkg`. */
  lemma EntryShape(pkg: string, version: string)
    requires PlainPath(pkg) && version != [] && NoSpace(version)
    ensures var entry := pkg + " " + version;
      entry != [] && Trimmed(entry) && entry[0] != '(' && FirstFieldIs(entry, pkg)
  {
    var entry := pkg + " " + version;
    assert entry[0] == pkg[0] && entry[|entry| - 1] == version[|version| - 1];
    assert entry == pkg + (" " + version);
    FirstFieldOfConcat(pkg, " " + version);
  }

  /** How the scanner sees `require pkg version`. */
  lemma SingleRequireLine(pkg: string, version: string)
    requires PlainPath(pkg) && version != [] && NoSpace(version)
    ensures !Classify("require " + (pkg + " " + version), pkg).opensBlock
    ensures Classify("require " + (pkg + " " + version), pkg).singleRequire
  {
    EntryShape(pkg, version);
    RequireLineSingle(pkg + " " + version, pkg);
  }

  /** A line that trims to `require (...` opens the block and never names a package. */
  lemma OpenLine(inBlock: bool, raw: string, pkg: string)
    requires HasPrefix(TrimSpace(raw), "require (")
    ensures NextInBlock(inBlock, Classify(raw, pkg))
    ensures !Names(inBlock, Classify(raw, pkg))
  {
  }

  /** A line that trims to `)...` closes an open block and names nothing; outside a block it is ignored. */
  lemma CloseLine(inBlock: bool, raw: string, pkg: string)
    requires HasPrefix(TrimSpace(raw), ")")
    ensures !NextInBlock(inBlock, Classify(raw, pkg))
    ensures !Names(inBlock, Classify(raw, pkg))
  {
    var line := TrimSpace(raw);
    assert line[0] == ')';
    assert !HasPrefix(line, "require (") && !HasPrefix(line, "require ");
  }

  /** Inside a block, blank and `//` lines are skipped: they name nothing and keep the block open. */
  lemma BlankOrCommentInBlock(raw: string, pkg: string)
    requires TrimSpace(raw) == "" || HasPrefix(TrimSpace(raw), "//")
    ensures NextInBlock(true, Classify(raw, pkg))
    ensures !Names(true, Classify(raw, pkg))
  {
    var line := TrimSpace(raw);
    if line != "" {
      assert line[0] == '/';
    }
  }

  /** `require pkg version` on one line lists `pkg`. */
  lemma SingleRequireListed(pkg: string, version: string)
    requires PlainPath(pkg) && version != [] && NoSpace(version)
    ensures DependencyListed(["require " + (pkg + " " + version)], pkg)
  {
    var line := "require " + (pkg + " " + version);
    SingleRequireLine(pkg, version);
    ClassifiedOne(line, pkg);
    ListedFromOne(false, Classify(line, pkg));
  }

  lemma ClassifiedOne(a: string, pkg: string)
    ensures Classified([a], pkg) == [Classify(a, pkg)]
  {
  }

  /** One line lists the package when it names it, read outside or inside a block. */
  lemma ListedFromOne(b: bool, i0: LineInfo)
    ensures ListedFrom(b, [i0]) == Names(b, i0)
  {
    assert [i0][1..] == [];
  }

  /** Three lines list the package when one of them names it in the state the ones before it leave. */
  lemma ListedFromThree(b: bool, i0: LineInfo, i1: LineInfo, i2: LineInfo)
    ensures ListedFrom(b, [i0, i1, i2])
        == (Names(b, i0) || Names(NextInBlock(b, i0), i1) || Names(NextInBlock(NextInBlock(b, i0), i1), i2))
  {
    var b1 := NextInBlock(b, i0);
    var b2 := NextInBlock(b1, i1);
    assert [i0, i1, i2][1..] == [i1, i2];
    assert [i1, i2][1..] == [i2];
    assert [i2][1..] == [];
    assert ListedFrom(b2, [i2]) == Names(b2, i2);
    assert ListedFrom(b1, [i1, i2]) == (Names(b1, i1) || ListedFrom(b2, [i2]));
  }

  lemma ClassifiedThree(a: string, b: string, c: string, pkg: string)
    ensures Classified([a, b, c], pkg) == [Classify(a, pkg), Classify(b, pkg), Classify(c, pkg)]
  {
  }

  /** An entry between a `require (` line and a `)` line lists its package. */
  lemma BlockRequireListed(open: string, close: string, pkg: string, version: string)
    requires HasPrefix(TrimSpace(open), "require (") && HasPrefix(TrimSpace(close), ")")
    requires PlainPath(pkg) && version != [] && NoSpace(version)
    ensures DependencyListed([open, pkg + " " + version, close], pkg)
  {
    var entry := pkg + " " + version;
    OpenLine(false, open, pkg);
    EntryLine(pkg, version);
    ClassifiedThree(open, entry, close, pkg);
    ListedFromThree(false, Classify(open, pkg), Classify(entry, pkg), Classify(close, pkg));
  }

  /** Once the `)` line closes the block, an entry line after it no longer counts. */
  lemma ClosedBlockEntryIgnored(open: string, close: string, pkg: string, version: string)
    requires HasPrefix(TrimSpace(open), "require (") && HasPrefix(TrimSpace(close), ")")
    requires PlainPath(pkg) && version != [] && NoSpace(version)
    ensures !DependencyListed([open, close, pkg + " " + version], pkg)
  {
    var entry := pkg + " " + version;
    OpenLine(false, open, pkg);
    CloseLine(true, close, pkg);
    EntryLine(pkg, version);
    ClassifiedThree(open, close, entry, pkg);
    ListedFromThree(false, Classify(open, pkg), Classify(close, pkg), Classify(entry, pkg));
  }
}
