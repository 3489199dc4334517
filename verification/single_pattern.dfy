/**
 The pipeline of main.rs: one optional include and one optional exclude
 pattern, matched against the bare file name, fused in a single filter with
 the read of the file and the header check.
 */
module SinglePattern {
  import opened FileTree
  import opened Sequences
  import opened Walker
  import opened GlobFilter
  import opened HeaderCheck

  /**
   The exclude pattern used when none is given. The comment beside it says that
   it excludes nothing; as a glob it matches only the empty name.
   */
  const DefaultExclude: string := ""

  function ResolveInclude(includes: Option<string>): string {
    includes.GetOr(DefaultInclude)
  }

  function ResolveExclude(excludes: Option<string>): string {
    excludes.GetOr(DefaultExclude)
  }

  /**
   Both patterns are compiled once, after the specification has been read; the
   specification is compiled for every readable file that passes both globs.
   */
  predicate Usable(files: seq<Path>, spec: string, inc: string, exc: string, fs: FileSystem, glob: GlobEngine, re: RegexEngine) {
    glob.valid(inc) && glob.valid(exc) &&
    forall f :: f in files && f in fs && glob.matches(inc, FileName(f)) && !glob.matches(exc, FileName(f)) ==>
      re.compiles(MultiLinePattern(spec))
  }

  /**
   The filter closure: `include_match && !exclude_match && !check_matching(..)`
   on a readable file. The call is written out because a total arrow cannot
   carry `CheckMatching`'s precondition; `ReportedIffCheckFails` ties the two together.
   */
  function KeepReported(spec: string, inc: string, exc: string, fs: FileSystem, glob: GlobEngine, re: RegexEngine): Path -> bool {
    f => f in fs && glob.matches(inc, FileName(f)) && !glob.matches(exc, FileName(f)) &&
         !re.isMatch(MultiLinePattern(spec), fs[f])
  }

  /** `separate_regex_matching_files` of main.rs after the walk that yields `files`. */
  function SelectNonCompliant(
    files: seq<Path>, specPath: Path, includes: Option<string>, excludes: Option<string>,
    fs: FileSystem, glob: GlobEngine, re: RegexEngine): (r: seq<Path>)
    requires forall f :: f in files ==> f != []
    requires specPath in fs ==> Usable(files, fs[specPath], ResolveInclude(includes), ResolveExclude(excludes), fs, glob, re)
    ensures specPath !in fs ==> r == []
    ensures specPath in fs ==> forall f :: f in r <==>
      f in files && glob.matches(ResolveInclude(includes), FileName(f)) &&
      !glob.matches(ResolveExclude(excludes), FileName(f)) &&
      f in fs && !re.isMatch(MultiLinePattern(fs[specPath]), fs[f])
    ensures IsSubsequence(r, files)
  {
    match ReadFileContent(fs, specPath)
    case None => []
    case Some(spec) => Filter(files, KeepReported(spec, ResolveInclude(includes), ResolveExclude(excludes), fs, glob, re))
  }

  /**
   A file is reported exactly when the specification can be read, the file was
   walked, its name passes the include and exclude patterns, it can be read, and
   `check_matching` on its text is false.
   */
  lemma ReportedIffCheckFails(
    files: seq<Path>, specPath: Path, includes: Option<string>, excludes: Option<string>,
    fs: FileSystem, glob: GlobEngine, re: RegexEngine, f: Path)
    requires forall f :: f in files ==> f != []
    requires specPath in fs ==> Usable(files, fs[specPath], ResolveInclude(includes), ResolveExclude(excludes), fs, glob, re)
    ensures f in SelectNonCompliant(files, specPath, includes, excludes, fs, glob, re) <==>
      specPath in fs && f in files && glob.matches(ResolveInclude(includes), FileName(f)) &&
      !glob.matches(ResolveExclude(excludes), FileName(f)) &&
      f in fs && !CheckMatching(fs[f], fs[specPath], re)
  {
  }

  /** `separate_regex_matching_files` of main.rs */
  method SeparateRegexMatchingFiles(
    specPath: Path, root: Path, tree: Node, includes: Option<string>, excludes: Option<string>,
    fs: FileSystem, glob: GlobEngine, re: RegexEngine)
    returns (r: seq<Path>)
    requires specPath in fs ==>
      Usable(AllFilesOf(root, tree), fs[specPath], ResolveInclude(includes), ResolveExclude(excludes), fs, glob, re)
    ensures r == SelectNonCompliant(AllFilesOf(root, tree), specPath, includes, excludes, fs, glob, re)
    ensures IsSubsequence(r, AllFilesOf(root, tree))
    ensures specPath !in fs ==> r == []
  {
    var files := AllFiles(root, tree);
    r := SelectNonCompliant(files, specPath, includes, excludes, fs, glob, re);
  }

  /**
   The default exclude pattern removes nothing when, as in the glob crate, the
   empty pattern matches only the empty text: file names are never empty.
   */
  lemma DefaultExcludeRemovesNothing(
    files: seq<Path>, specPath: Path, includes: Option<string>, fs: FileSystem, glob: GlobEngine, re: RegexEngine)
    requires forall f :: f in files ==> f != [] && FileName(f) != ""
    requires specPath in fs ==> Usable(files, fs[specPath], ResolveInclude(includes), DefaultExclude, fs, glob, re)
    requires forall t :: glob.matches(DefaultExclude, t) ==> t == ""
    ensures specPath in fs ==> forall f :: f in SelectNonCompliant(files, specPath, includes, None, fs, glob, re) <==>
      f in files && glob.matches(ResolveInclude(includes), FileName(f)) &&
      f in fs && !re.isMatch(MultiLinePattern(fs[specPath]), fs[f])
  {
  }

  /** The one-element list that a single optional include pattern stands for in separate.rs. */
  function IncludeList(includes: Option<string>): Option<seq<string>> {
    if includes.Some? then Some([includes.value]) else None
  }

  /**
   With an exclude pattern given, the fused filter reports exactly what the
   separate.rs pipeline reports for the one-pattern lists, in the same order;
   an absent include resolves to the same default pattern in both.
   */
  lemma FusedAgreesWithSeparate(
    files: seq<Path>, specPath: Path, includes: Option<string>, exclude: string,
    fs: FileSystem, glob: GlobEngine, re: RegexEngine)
    requires forall f :: f in files ==> f != []
    requires forall f :: f in files ==> CanSelect(ResolveIncludes(IncludeList(includes)), [exclude], FileName(f), glob)
    requires specPath in fs ==> Usable(files, fs[specPath], ResolveInclude(includes), exclude, fs, glob, re)
    requires specPath in fs ==>
      SpecCompilesWhenUsed(fs[specPath], SelectByFileName(files, IncludeList(includes), Some([exclude]), glob), fs, re)
    ensures SelectNonCompliant(files, specPath, includes, Some(exclude), fs, glob, re) ==
      NonmatchingFiles(specPath, SelectByFileName(files, IncludeList(includes), Some([exclude]), glob), fs, re)
  {
    var inc := ResolveInclude(includes);
    assert ResolveIncludes(IncludeList(includes)) == [inc];
    forall t
      ensures AnyMatch([inc], t, glob) == glob.matches(inc, t)
      ensures AnyMatch([exclude], t, glob) == glob.matches(exclude, t)
    {
      assert [inc][1..] == [] && [exclude][1..] == [];
    }
    if specPath in fs {
      var spec := fs[specPath];
      FilterFuse(files, KeepReported(spec, inc, exclude, fs, glob, re),
        KeepByName([inc], [exclude], glob), KeepNonmatching(spec, fs, re));
    }
  }
}
