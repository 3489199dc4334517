/**
 The pipeline of separate.rs: walk, keep the files whose bare name passes the
 include/exclude globs, then report those that fail the header specification.
 `FilesMatchingPatterns` is also the function of the same name in
 files_matching_glob_patterns.rs.
 */
module Separate {
  import opened FileTree
  import opened Sequences
  import opened Walker
  import opened GlobFilter
  import opened HeaderCheck

  /** Every file the walk of `root` yields can be run through the filter closure without a panic. */
  predicate GlobsUsable(root: Path, tree: Node, includes: Option<seq<string>>, excludes: Option<seq<string>>, glob: GlobEngine) {
    forall f :: f in AllFilesOf(root, tree) ==> CanSelect(ResolveIncludes(includes), ResolveExcludes(excludes), FileName(f), glob)
  }

  /** `files_matching_patterns` */
  method FilesMatchingPatterns(root: Path, tree: Node, includes: Option<seq<string>>, excludes: Option<seq<string>>, glob: GlobEngine)
    returns (r: seq<Path>)
    requires GlobsUsable(root, tree, includes, excludes, glob)
    ensures r == SelectByFileName(AllFilesOf(root, tree), includes, excludes, glob)
    ensures ListedFiles(root, tree).None? ==> r == []
  {
    var files := AllFiles(root, tree);
    r := SelectByFileName(files, includes, excludes, glob);
  }

  /** `separate_regex_matching_files` */
  method SeparateRegexMatchingFiles(
    specPath: Path, root: Path, tree: Node, includes: Option<seq<string>>, excludes: Option<seq<string>>,
    fs: FileSystem, glob: GlobEngine, re: RegexEngine)
    returns (r: seq<Path>)
    requires GlobsUsable(root, tree, includes, excludes, glob)
    requires specPath in fs ==>
      SpecCompilesWhenUsed(fs[specPath], SelectByFileName(AllFilesOf(root, tree), includes, excludes, glob), fs, re)
    ensures r == NonmatchingFiles(specPath, SelectByFileName(AllFilesOf(root, tree), includes, excludes, glob), fs, re)
    ensures IsSubsequence(r, AllFilesOf(root, tree))
    ensures specPath !in fs ==> r == []
    ensures specPath in fs ==> forall p :: p in r <==>
      p in AllFilesOf(root, tree) &&
      SomeGlobMatches(ResolveIncludes(includes), FileName(p), glob) &&
      !SomeGlobMatches(ResolveExcludes(excludes), FileName(p), glob) &&
      p in fs && !re.isMatch(MultiLinePattern(fs[specPath]), fs[p])
  {
    var selected := FilesMatchingPatterns(root, tree, includes, excludes, glob);
    r := NonmatchingFiles(specPath, selected, fs, re);
    SubsequenceTransitive(r, selected, AllFilesOf(root, tree));
  }
}
