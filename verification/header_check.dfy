/**
 The header check: `check_matching` and `nonmatching_files` /
 `nonmatching_files_from_list`. The same code stands in separate.rs,
 regex_nonmatch.rs and regex_nonmatch_checking.rs (and `check_matching` in
 main.rs); it is modelled here once.
 */
module HeaderCheck {
  import opened FileTree
  import opened Sequences

  /** The inline flag that puts the regex crate in multi-line mode: `^` and `$` match at every line. */
  const MultiLineFlag: string := "(?m)"

  /** `format!("(?m){}", regex)`: the expression that is compiled for a specification. */
  function MultiLinePattern(spec: string): string {
    MultiLineFlag + spec
  }

  /** `check_matching`; compiling must succeed, or `unwrap` panics. */
  function CheckMatching(file: string, regex: string, re: RegexEngine): bool
    requires re.compiles(MultiLinePattern(regex))
  {
    re.isMatch(MultiLinePattern(regex), file)
  }

  /**
   The filter closure compiles the specification once for every listed file that
   can be read; each of those compilations must succeed.
   */
  predicate SpecCompilesWhenUsed(spec: string, paths: seq<Path>, fs: FileSystem, re: RegexEngine) {
    forall p :: p in paths && p in fs ==> re.compiles(MultiLinePattern(spec))
  }

  /**
   The filter closure: the file can be read and `check_matching` on its text is
   false. The call is written out because a total arrow cannot carry
   `CheckMatching`'s precondition; `ReportedIffCheckFails` ties the two together.
   */
  function KeepNonmatching(spec: string, fs: FileSystem, re: RegexEngine): Path -> bool {
    p => p in fs && !re.isMatch(MultiLinePattern(spec), fs[p])
  }

  /** `nonmatching_files(regex_file_path, file_paths)` */
  function NonmatchingFiles(specPath: Path, paths: seq<Path>, fs: FileSystem, re: RegexEngine): (r: seq<Path>)
    requires specPath in fs ==> SpecCompilesWhenUsed(fs[specPath], paths, fs, re)
    ensures specPath !in fs ==> r == []
    ensures specPath in fs ==> forall p :: p in r <==>
      p in paths && p in fs && !re.isMatch(MultiLinePattern(fs[specPath]), fs[p])
    ensures IsSubsequence(r, paths)
  {
    match ReadFileContent(fs, specPath)
    case None => []
    case Some(spec) => Filter(paths, KeepNonmatching(spec, fs, re))
  }

  /**
   A path is reported exactly when the specification can be read, the path is
   listed and readable, and `check_matching` on its text is false: a file that
   holds the header is never reported, and one that lacks it always is.
   */
  lemma ReportedIffCheckFails(specPath: Path, paths: seq<Path>, fs: FileSystem, re: RegexEngine, p: Path)
    requires specPath in fs ==> SpecCompilesWhenUsed(fs[specPath], paths, fs, re)
    ensures p in NonmatchingFiles(specPath, paths, fs, re) <==>
      specPath in fs && p in paths && p in fs && !CheckMatching(fs[p], fs[specPath], re)
  {
  }

  /**
   The empty specification compiles to "(?m)", which matches every text (at
   offset 0). When the engine agrees, an empty specification file reports no file.
   */
  lemma EmptySpecReportsNothing(specPath: Path, paths: seq<Path>, fs: FileSystem, re: RegexEngine)
    requires specPath in fs && fs[specPath] == ""
    requires SpecCompilesWhenUsed("", paths, fs, re)
    requires forall t :: re.isMatch(MultiLineFlag, t)
    ensures NonmatchingFiles(specPath, paths, fs, re) == []
  {
    assert MultiLinePattern("") == MultiLineFlag;
    FilterDropsAll(paths, KeepNonmatching("", fs, re));
  }
}
