/**
 The tree walker: `list_files_in_folder` and `all_files`. The three source files
 that contain a walker (separate.rs, main.rs, files_matching_glob_patterns.rs)
 hold the same code, modelled here once.
 */
module Walker {
  import opened FileTree

  /**
   What `list_files_in_folder(folder)` returns when `node` is what `folder`
   names: `None` for the `Err` of a failed `read_dir`. `read_dir` follows a
   symbolic link, so a link given as the folder is listed through its target.
   */
  function ListedFiles(folder: Path, node: Node): Option<seq<FilePath>>
    decreases node, 1
  {
    match node
    case Dir(_, readable, entries) => if readable then ListedEntries(folder, entries) else None
    case Symlink(_, target) => ListedFiles(folder, target)
    case _ => None
  }

  /**
   The loop over the entries of a readable directory, as a function of the
   entries seen so far: one entry that cannot be read fails the whole listing.
   */
  function ListedEntries(folder: Path, entries: seq<Node>): Option<seq<FilePath>>
    decreases entries, 0
  {
    if entries == [] then Some([])
    else
      var before := ListedEntries(folder, entries[..|entries| - 1]);
      var last := entries[|entries| - 1];
      if before.None? || last.BadEntry? then None
      else Some(before.value + Contribution(folder, last))
  }

  /**
   What one entry adds: a link is skipped, a regular file is pushed, a
   directory splices in its own listing when that succeeds, anything else is dropped.
   */
  function Contribution(folder: Path, entry: Node): seq<FilePath>
    decreases entry, 2
  {
    match entry
    case File(name) => [folder + [name]]
    case Dir(name, _, _) => ListedFiles(folder + [name], entry).GetOr([])
    case _ => []
  }

  /** `all_files`: a listing that fails becomes the empty sequence. */
  function AllFilesOf(root: Path, tree: Node): seq<FilePath> {
    ListedFiles(root, tree).GetOr([])
  }

  /** `p` is a regular file reached from `folder` through `entries` and real (not linked) directories. */
  ghost predicate FileBelow(folder: Path, entries: seq<Node>, p: Path)
    decreases entries
  {
    exists i :: 0 <= i < |entries| && match entries[i]
      case File(name) => p == folder + [name]
      case Dir(name, _, children) => FileBelow(folder + [name], children, p)
      case _ => false
  }

  /** Every directory can be read and every entry can be produced. */
  ghost predicate Healthy(entries: seq<Node>)
    decreases entries
  {
    forall i :: 0 <= i < |entries| ==>
      !entries[i].BadEntry? && (entries[i].Dir? ==> entries[i].readable && Healthy(entries[i].entries))
  }

  function Splice(a: Option<seq<FilePath>>, b: Option<seq<FilePath>>): Option<seq<FilePath>> {
    if a.Some? && b.Some? then Some(a.value + b.value) else None
  }

  /** `list_files_in_folder` */
  method ListFilesInFolder(folder: Path, node: Node) returns (r: Option<seq<FilePath>>)
    ensures r == ListedFiles(folder, node)
    decreases node
  {
    match node {
      case Dir(_, readable, entries) =>
        if !readable {
          return None;
        }
        var filePaths: seq<FilePath> := [];
        var i := 0;
        while i < |entries|
          invariant 0 <= i <= |entries|
          invariant ListedEntries(folder, entries[..i]) == Some(filePaths)
        {
          var entry := entries[i];
          assert entries[..i + 1][..i] == entries[..i];
          assert entries[..i + 1][i] == entry;
          if entry.BadEntry? {
            ListedEntriesAppend(folder, entries[..i + 1], entries[i + 1..]);
            assert entries[..i + 1] + entries[i + 1..] == entries;
            return None;
          }
          ghost var added := Contribution(folder, entry);
          assert ListedEntries(folder, entries[..i + 1]) == Some(filePaths + added);
          match entry {
            case Symlink(_, _) =>
              assert filePaths + added == filePaths;
            case File(name) =>
              filePaths := filePaths + [folder + [name]];
            case Dir(name, _, _) =>
              var sub := ListFilesInFolder(folder + [name], entry);
              if sub.Some? {
                filePaths := filePaths + sub.value;
              } else {
                assert filePaths + added == filePaths;
              }
            case Other(_) =>
              assert filePaths + added == filePaths;
          }
          i := i + 1;
        }
        assert entries[..i] == entries;
        return Some(filePaths);
      case Symlink(_, target) =>
        r := ListFilesInFolder(folder, target);
      case File(_) =>
        return None;
      case Other(_) =>
        return None;
      case BadEntry =>
        return None;
    }
  }

  /** `all_files` */
  method AllFiles(root: Path, tree: Node) returns (files: seq<FilePath>)
    ensures files == AllFilesOf(root, tree)
    ensures tree.Dir? && !tree.readable ==> files == []
    ensures !tree.Dir? && !tree.Symlink? ==> files == []
  {
    var listed := ListFilesInFolder(root, tree);
    files := listed.GetOr([]);
  }

  /** The listing of consecutive runs of entries is spliced together in entry order. */
  lemma {:induction false} ListedEntriesAppend(folder: Path, a: seq<Node>, b: seq<Node>)
    ensures ListedEntries(folder, a + b) == Splice(ListedEntries(folder, a), ListedEntries(folder, b))
    decreases |b|
  {
    if b == [] {
      assert a + b == a;
      if ListedEntries(folder, a).Some? {
        assert ListedEntries(folder, a).value + [] == ListedEntries(folder, a).value;
      }
    } else {
      var b' := b[..|b| - 1];
      var last := b[|b| - 1];
      assert (a + b)[..|a + b| - 1] == a + b';
      assert (a + b)[|a + b| - 1] == last;
      ListedEntriesAppend(folder, a, b');
      var la, lb' := ListedEntries(folder, a), ListedEntries(folder, b');
      if la.Some? && lb'.Some? && !last.BadEntry? {
        assert la.value + lb'.value + Contribution(folder, last) == la.value + (lb'.value + Contribution(folder, last));
      }
    }
  }

  /** A symbolic link adds nothing, whether it points to a file, a directory or nowhere readable. */
  lemma SymlinkContributesNothing(folder: Path, a: seq<Node>, name: string, target: Node, b: seq<Node>)
    ensures ListedEntries(folder, a + [Symlink(name, target)] + b) == ListedEntries(folder, a + b)
  {
    var s := a + [Symlink(name, target)];
    ListedEntriesAppend(folder, s, b);
    ListedEntriesAppend(folder, a, b);
    assert s[..|s| - 1] == a;
    SkippedEntry(folder, a, s);
  }

  /**
   A subdirectory whose listing fails adds nothing, and the entries before and
   after it are still listed.
   */
  lemma FailedSubdirContributesNothing(folder: Path, a: seq<Node>, d: Node, b: seq<Node>)
    requires d.Dir? && ListedFiles(folder + [d.name], d).None?
    ensures ListedEntries(folder, a + [d] + b) == ListedEntries(folder, a + b)
  {
    var s := a + [d];
    ListedEntriesAppend(folder, s, b);
    ListedEntriesAppend(folder, a, b);
    assert s[..|s| - 1] == a;
    SkippedEntry(folder, a, s);
  }

  lemma SkippedEntry(folder: Path, a: seq<Node>, s: seq<Node>)
    requires |s| == |a| + 1 && s[..|a|] == a && !s[|a|].BadEntry? && Contribution(folder, s[|a|]) == []
    ensures ListedEntries(folder, s) == ListedEntries(folder, a)
  {
    if ListedEntries(folder, a).Some? {
      assert ListedEntries(folder, a).value + [] == ListedEntries(folder, a).value;
    }
  }

  /** An entry the iterator fails to produce fails the listing of its whole directory. */
  lemma BadEntryFailsListing(folder: Path, a: seq<Node>, b: seq<Node>)
    ensures ListedEntries(folder, a + [BadEntry] + b) == None
  {
    ListedEntriesAppend(folder, a + [BadEntry], b);
  }

  lemma FileBelowPrefix(folder: Path, entries: seq<Node>, k: nat, p: Path)
    requires k <= |entries| && FileBelow(folder, entries[..k], p)
    ensures FileBelow(folder, entries, p)
  {
    var i :| 0 <= i < k && match entries[..k][i]
      case File(name) => p == folder + [name]
      case Dir(name, _, children) => FileBelow(folder + [name], children, p)
      case _ => false;
    assert entries[..k][i] == entries[i];
  }

  /** Only regular files are emitted: never a link, a directory or another kind of entry. */
  lemma {:induction false} ListedEntriesSound(folder: Path, entries: seq<Node>)
    ensures ListedEntries(folder, entries).Some? ==>
      forall p :: p in ListedEntries(folder, entries).value ==> FileBelow(folder, entries, p)
    decreases entries
  {
    if entries != [] && ListedEntries(folder, entries).Some? {
      var n := |entries| - 1;
      var init := entries[..n];
      var last := entries[n];
      ListedEntriesSound(folder, init);
      forall p | p in ListedEntries(folder, entries).value
        ensures FileBelow(folder, entries, p)
      {
        if p in ListedEntries(folder, init).value {
          FileBelowPrefix(folder, entries, n, p);
        } else {
          assert p in Contribution(folder, last);
          match last {
            case File(name) =>
            case Dir(name, readable, children) =>
              ListedEntriesSound(folder + [name], children);
          }
        }
      }
    }
  }

  /** Without unreadable directories or entries, every regular file of the tree is emitted. */
  lemma {:induction false} ListedEntriesComplete(folder: Path, entries: seq<Node>)
    requires Healthy(entries)
    ensures ListedEntries(folder, entries).Some?
    ensures forall p :: FileBelow(folder, entries, p) ==> p in ListedEntries(folder, entries).value
    decreases entries
  {
    if entries != [] {
      var n := |entries| - 1;
      var init := entries[..n];
      var last := entries[n];
      assert Healthy(init) by {
        forall i | 0 <= i < |init| ensures init[i] == entries[i] { }
      }
      ListedEntriesComplete(folder, init);
      if last.Dir? {
        ListedEntriesComplete(folder + [last.name], last.entries);
      }
      forall p | FileBelow(folder, entries, p)
        ensures p in ListedEntries(folder, entries).value
      {
        var i :| 0 <= i < |entries| && match entries[i]
          case File(name) => p == folder + [name]
          case Dir(name, _, children) => FileBelow(folder + [name], children, p)
          case _ => false;
        assert !last.BadEntry?;
        assert ListedEntries(folder, entries) == Some(ListedEntries(folder, init).value + Contribution(folder, last));
        if i < n {
          assert init[i] == entries[i];
          assert FileBelow(folder, init, p);
        } else {
          assert p in Contribution(folder, last);
        }
      }
    }
  }
}
