/**
 Include/excludes glob selection. `SelectByFileName` is the filter of
 `files_matching_patterns` (separate.rs, files_matching_glob_patterns.rs), which
 matches the bare file name; `MatchingFiles` is `matching_files`
 (glob_patterns.rs), which matches the whole path.
 */
module GlobFilter {
  import opened FileTree
  import opened Sequences

  /** The includes pattern used when none is given: every file. */
  const DefaultInclude: string := "**/*"

  // `include_patterns.unwrap_or(vec!["**/*".to_string()])`
  function ResolveIncludes(includes: Option<seq<string>>): seq<string> {
    includes.GetOr([DefaultInclude])
  }

  /** `exclude_patterns.unwrap_or(Vec::new())` */
  function ResolveExcludes(excludes: Option<seq<string>>): seq<string> {
    excludes.GetOr([])
  }

  /** Some pattern of `globs` matches `target`. */
  ghost predicate SomeGlobMatches(globs: seq<string>, target: string, glob: GlobEngine) {
    exists i :: 0 <= i < |globs| && glob.matches(globs[i], target)
  }

  /** `globs.iter().any(|g| Pattern::new(g).unwrap().matches(target))` */
  function AnyMatch(globs: seq<string>, target: string, glob: GlobEngine): (r: bool)
    ensures r <==> SomeGlobMatches(globs, target, glob)
  {
    if globs == [] then false
    else glob.matches(globs[0], target) || AnyMatch(globs[1..], target, glob)
  }

  /**
   The `any` above compiles its patterns one by one and stops at the first that
   matches; every pattern it reaches must compile, or `unwrap` panics.
   */
  predicate AnyEvaluates(globs: seq<string>, target: string, glob: GlobEngine) {
    globs == [] ||
    (glob.valid(globs[0]) && (glob.matches(globs[0], target) || AnyEvaluates(globs[1..], target, glob)))
  }

  /** Both `any` calls of the filter closure run to the end for `target`. */
  predicate CanSelect(includes: seq<string>, excludes: seq<string>, target: string, glob: GlobEngine) {
    AnyEvaluates(includes, target, glob) && AnyEvaluates(excludes, target, glob)
  }

  /** `include_match && !exclude_match` */
  predicate Selected(includes: seq<string>, excludes: seq<string>, target: string, glob: GlobEngine) {
    AnyMatch(includes, target, glob) && !AnyMatch(excludes, target, glob)
  }

  function KeepByName(includes: seq<string>, excludes: seq<string>, glob: GlobEngine): Path -> bool {
    p => Selected(includes, excludes, FileName(p), glob)
  }

  function KeepByPath(includes: seq<string>, excludes: seq<string>, glob: GlobEngine): Path -> bool {
    p => Selected(includes, excludes, PathText(p), glob)
  }

  /** The filter of `files_matching_patterns`, applied to the walker's output `files`. */
  function SelectByFileName(files: seq<Path>, includes: Option<seq<string>>, excludes: Option<seq<string>>, glob: GlobEngine): (r: seq<Path>)
    requires forall f :: f in files ==> f != []
    requires forall f :: f in files ==> CanSelect(ResolveIncludes(includes), ResolveExcludes(excludes), FileName(f), glob)
    ensures forall f :: f in r <==>
      f in files && SomeGlobMatches(ResolveIncludes(includes), FileName(f), glob) &&
      !SomeGlobMatches(ResolveExcludes(excludes), FileName(f), glob)
    ensures IsSubsequence(r, files)
  {
    Filter(files, KeepByName(ResolveIncludes(includes), ResolveExcludes(excludes), glob))
  }

  /** `matching_files`, applied to the walker's output `paths`. */
  function MatchingFiles(paths: seq<Path>, includes: Option<seq<string>>, excludes: Option<seq<string>>, glob: GlobEngine): (r: seq<Path>)
    requires forall p :: p in paths ==> CanSelect(ResolveIncludes(includes), ResolveExcludes(excludes), PathText(p), glob)
    ensures forall p :: p in r <==>
      p in paths && SomeGlobMatches(ResolveIncludes(includes), PathText(p), glob) &&
      !SomeGlobMatches(ResolveExcludes(excludes), PathText(p), glob)
    ensures IsSubsequence(r, paths)
  {
    Filter(paths, KeepByPath(ResolveIncludes(includes), ResolveExcludes(excludes), glob))
  }

  /** Every pattern of `fewer` is in `more`, so `more` matches whatever `fewer` matches. */
  lemma MorePatternsMatchMore(fewer: seq<string>, more: seq<string>, target: string, glob: GlobEngine)
    requires forall g :: g in fewer ==> g in more
    ensures SomeGlobMatches(fewer, target, glob) ==> SomeGlobMatches(more, target, glob)
  {
    if SomeGlobMatches(fewer, target, glob) {
      var i :| 0 <= i < |fewer| && glob.matches(fewer[i], target);
      assert fewer[i] in fewer;
      var j :| 0 <= j < |more| && more[j] == fewer[i];
    }
  }

  // With neither list given, and the glob engine matching "**/*" against the
  // name of every walked file (as the glob crate does, its leading "**/"
  // matching zero directories), every walked file is kept, in walk order.
  lemma NameFilterDefaultsKeepEverything(files: seq<Path>, glob: GlobEngine)
    requires forall f :: f in files ==> f != []
    requires glob.valid(DefaultInclude)
    requires forall f :: f in files ==> glob.matches(DefaultInclude, FileName(f))
    ensures SelectByFileName(files, None, None, glob) == files
  {
    FilterKeepsAll(files, KeepByName([DefaultInclude], [], glob));
  }

  /** An includes list given explicitly as empty keeps no file, whatever the excludes list. */
  lemma NameFilterEmptyIncludeKeepsNothing(files: seq<Path>, excludes: Option<seq<string>>, glob: GlobEngine)
    requires forall f :: f in files ==> f != []
    requires forall f :: f in files ==> CanSelect([], ResolveExcludes(excludes), FileName(f), glob)
    ensures SelectByFileName(files, Some([]), excludes, glob) == []
  {
    FilterDropsAll(files, KeepByName([], ResolveExcludes(excludes), glob));
  }

  /** An absent excludes list is the empty one: it removes nothing that the includes keep. */
  lemma NameFilterNoExcludeKeepsIncluded(files: seq<Path>, includes: Option<seq<string>>, glob: GlobEngine)
    requires forall f :: f in files ==> f != []
    requires forall f :: f in files ==> AnyEvaluates(ResolveIncludes(includes), FileName(f), glob)
    ensures SelectByFileName(files, includes, None, glob) == Filter(files, (f: Path) => AnyMatch(ResolveIncludes(includes), FileName(f), glob))
  {
    FilterCongruent(files, KeepByName(ResolveIncludes(includes), [], glob), (f: Path) => AnyMatch(ResolveIncludes(includes), FileName(f), glob));
  }

  // `matching_files` with neither list keeps every path that the engine matches
  // with "**/*"; when that is every walked path, it keeps them all, in order.
  lemma PathFilterDefaultsKeepEverything(paths: seq<Path>, glob: GlobEngine)
    requires glob.valid(DefaultInclude)
    requires forall p :: p in paths ==> glob.matches(DefaultInclude, PathText(p))
    ensures MatchingFiles(paths, None, None, glob) == paths
  {
    FilterKeepsAll(paths, KeepByPath([DefaultInclude], [], glob));
  }

  /** An includes list given explicitly as empty keeps no path: `any` over nothing is false. */
  lemma PathFilterEmptyIncludeKeepsNothing(paths: seq<Path>, excludes: Option<seq<string>>, glob: GlobEngine)
    requires forall p :: p in paths ==> CanSelect([], ResolveExcludes(excludes), PathText(p), glob)
    ensures MatchingFiles(paths, Some([]), excludes, glob) == []
  {
    FilterDropsAll(paths, KeepByPath([], ResolveExcludes(excludes), glob));
  }

  /** More excludes patterns keep an order-preserving part of what fewer keep. */
  lemma ExcludeOnlyShrinks(paths: seq<Path>, includes: Option<seq<string>>, fewer: seq<string>, more: seq<string>, glob: GlobEngine)
    requires forall g :: g in fewer ==> g in more
    requires forall p :: p in paths ==> CanSelect(ResolveIncludes(includes), fewer, PathText(p), glob)
    requires forall p :: p in paths ==> CanSelect(ResolveIncludes(includes), more, PathText(p), glob)
    ensures IsSubsequence(MatchingFiles(paths, includes, Some(more), glob), MatchingFiles(paths, includes, Some(fewer), glob))
  {
    var inc := ResolveIncludes(includes);
    forall p | p in paths && KeepByPath(inc, more, glob)(p)
      ensures KeepByPath(inc, fewer, glob)(p)
    {
      MorePatternsMatchMore(fewer, more, PathText(p), glob);
    }
    FilterMonotone(paths, KeepByPath(inc, more, glob), KeepByPath(inc, fewer, glob));
  }

  /** More includes patterns keep everything fewer keep, in the same order. */
  lemma IncludeOnlyGrows(paths: seq<Path>, fewer: seq<string>, more: seq<string>, excludes: Option<seq<string>>, glob: GlobEngine)
    requires forall g :: g in fewer ==> g in more
    requires forall p :: p in paths ==> CanSelect(fewer, ResolveExcludes(excludes), PathText(p), glob)
    requires forall p :: p in paths ==> CanSelect(more, ResolveExcludes(excludes), PathText(p), glob)
    ensures IsSubsequence(MatchingFiles(paths, Some(fewer), excludes, glob), MatchingFiles(paths, Some(more), excludes, glob))
  {
    var exc := ResolveExcludes(excludes);
    forall p | p in paths && KeepByPath(fewer, exc, glob)(p)
      ensures KeepByPath(more, exc, glob)(p)
    {
      MorePatternsMatchMore(fewer, more, PathText(p), glob);
    }
    FilterMonotone(paths, KeepByPath(fewer, exc, glob), KeepByPath(more, exc, glob));
  }
}
