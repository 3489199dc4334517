# checkstyle selection pipeline in Dafny

This project models how the `checkstyle` compliance scanner picks the files it
reports:

- the **tree walker** (`list_files_in_folder`, `all_files`) lists the regular
  files below a root directory. It skips symbolic links, recurses into
  directories and drops any directory that cannot be listed.
- the **include/exclude glob filter** comes in three variants:
  - a list of patterns matched against the bare file name (`files_matching_patterns`);
  - a list of patterns matched against the whole path (`matching_files`);
  - one optional pattern of each kind, fused with the header check (the
    `separate_regex_matching_files` of `main.rs`).
- the **header check** (`check_matching`, `nonmatching_files`) reads the
  specification file. It then reports every listed, readable file whose text the
  specification, compiled in multi-line mode with `(?m)`, does not match.
- the **trailing-newline rule** (`ends_with_empty_line`, `no_empty_line`)
  reports every file whose text is empty or does not end in `'\n'`.

The real inputs become values:

- The file system is a `Node` tree (`File`, `Symlink` with its target, `Dir`
  with a readable flag and ordered entries, `Other`, and `BadEntry` for an entry
  that the directory iterator fails to produce).
- Reading a file is a `map` from path to text. A path that is missing from the
  map cannot be read: it gave an I/O error or held invalid UTF-8.
- The glob crate and the regex crate are `GlobEngine` and `RegexEngine` values.
  Each holds a "compiles" predicate and a "matches" predicate, and both are left
  uninterpreted.

Panics of the source are preconditions:

- `Pattern::new(..).unwrap()` and `Regex::new(..).unwrap()`. These mirror the
  laziness of the code: `any` compiles patterns only up to the first match, and
  the regex is compiled only for readable files that reach the check.
- `file_name().unwrap()`: the path must not be empty.
- `read_file_content(..).unwrap()` in `empty_line.rs`: every file must be readable.

Several source files repeat the same code, and each such piece is modelled once:

- The walker appears in `separate.rs`, `main.rs` and `files_matching_glob_patterns.rs`.
- `check_matching` appears in four files.
- `nonmatching_files` / `nonmatching_files_from_list` appears in three files.

The rows below cite the copy whose lines state each property.

Modules: `FileTree` (inputs), `Sequences` (the iterator `filter` and
subsequence facts), `Walker`, `GlobFilter`, `HeaderCheck`, `Separate` (the
`separate.rs` pipeline), `SinglePattern` (the `main.rs` pipeline), `EmptyLine`.

## Model

| member | source | states |
|---|---|---|
| `Walker.ListFilesInFolder` | checkstyle/src/separate.rs:29-50 | The loop returns exactly `ListedFiles`. An unreadable folder gives `Err`. Entries are taken in order: links are skipped, files are pushed, and each subdirectory's listing is spliced in unless it failed. An entry error aborts the listing. |
| `Walker.AllFiles` | checkstyle/src/files_matching_glob_patterns.rs:28-30 | A failed listing becomes `[]`, so an unreadable root or a root that is not a directory yields `[]`. |
| `Walker.ListedEntriesAppend` | checkstyle/src/main.rs:74-91 | Listing entries `a + b` gives the listing of `a` followed by the listing of `b`, and fails if either fails: output follows entry order. |
| `Walker.SymlinkContributesNothing` | checkstyle/src/separate.rs:36-38 | A symbolic link between any entries adds nothing, whatever its target (file, directory, anything). |
| `Walker.FailedSubdirContributesNothing` | checkstyle/src/separate.rs:43-45 | A subdirectory whose listing fails adds nothing. The entries before and after it are still listed. |
| `Walker.BadEntryFailsListing` | checkstyle/src/separate.rs:32-33 | One entry that `read_dir` fails to produce makes the whole directory's listing fail, including files already collected. |
| `Walker.ListedEntriesSound` | checkstyle/src/separate.rs:40-46 | Every emitted path is the path of a `File` entry, reached only through real (non-link) directories. No link, directory or other kind of entry is ever emitted. |
| `Walker.ListedEntriesComplete` | checkstyle/src/main.rs:78-87 | When every directory is readable and every entry can be produced, the listing succeeds and contains every regular file of the tree. Only links and failing directories are dropped. |
| `Sequences.Filter` | checkstyle/src/regex_nonmatch_checking.rs:37-46 | `filter(..).collect()` keeps an element iff it is in the input and passes the closure. The result is an order-preserving subsequence of the input. |
| `Sequences.FilterCounts` | checkstyle/src/regex_nonmatch_checking.rs:37-46 | `filter(..).collect()` keeps every occurrence of an element that passes the closure and none of one that fails: the result is the input's multiset restricted to the kept elements. |
| `GlobFilter.AnyMatch` | checkstyle/src/glob_patterns.rs:16-19 | `any` over the patterns is true iff some pattern matches the target. Over an empty list it is false. |
| `GlobFilter.SelectByFileName` | checkstyle/src/separate.rs:56-82 | A file is kept iff some include glob matches its bare name and no exclude glob does. `None` lists resolve to `["**/*"]` and `[]`. The result is an order-preserving subsequence of the walk. |
| `GlobFilter.MatchingFiles` | checkstyle/src/glob_patterns.rs:5-29 | A path is kept iff some include glob matches the full path text and no exclude glob does, with the same defaults. The result is an order-preserving subsequence of the input. |
| `GlobFilter.NameFilterDefaultsKeepEverything` | checkstyle/src/files_matching_glob_patterns.rs:38-39 | With both lists `None`, and an engine where `**/*` matches the name of every walked file, every walked file is kept in walk order. |
| `GlobFilter.NameFilterEmptyIncludeKeepsNothing` | checkstyle/src/separate.rs:62-79 | An explicit `Some([])` include keeps no file, whatever the excludes. Only `None` takes the default. |
| `GlobFilter.NameFilterNoExcludeKeepsIncluded` | checkstyle/src/files_matching_glob_patterns.rs:39-55 | A `None` exclude removes nothing: the result is the include-only filter. |
| `GlobFilter.PathFilterDefaultsKeepEverything` | checkstyle/src/glob_patterns.rs:11-12 | With both lists `None`, every path that `**/*` matches is kept. If that is every path, the result is the input. |
| `GlobFilter.PathFilterEmptyIncludeKeepsNothing` | checkstyle/src/glob_patterns.rs:11-19 | An explicit empty include list keeps no path. |
| `GlobFilter.ExcludeOnlyShrinks` | checkstyle/src/glob_patterns.rs:21-26 | Adding exclude patterns gives an order-preserving subsequence of the previous result. |
| `GlobFilter.IncludeOnlyGrows` | checkstyle/src/glob_patterns.rs:16-19 | Adding include patterns keeps everything kept before, in the same order. |
| `HeaderCheck.NonmatchingFiles` | checkstyle/src/regex_nonmatch_checking.rs:28-47 | An unreadable specification gives `[]`. Otherwise a listed path is reported iff it is readable and its text does not match `(?m)` + specification. Unreadable files are never reported. The output is an order-preserving subsequence of the input. |
| `HeaderCheck.ReportedIffCheckFails` | checkstyle/src/regex_nonmatch.rs:23-46 | A path is reported iff the specification can be read, the path is listed and readable, and `check_matching` (the specification compiled with `(?m)` prepended) is false on its text. A file that holds the header is never reported, and a readable listed file that lacks it always is. |
| `HeaderCheck.EmptySpecReportsNothing` | checkstyle/src/separate.rs:24-27 | An empty specification compiles to `(?m)`. With an engine that matches it everywhere, no file is reported. |
| `Separate.FilesMatchingPatterns` | checkstyle/src/files_matching_glob_patterns.rs:32-58 | The result is the name filter applied to `all_files`, and a failed walk gives `[]`. |
| `Separate.SeparateRegexMatchingFiles` | checkstyle/src/separate.rs:84-110 | A file is reported iff it is walked, passes the name globs, is readable and fails the specification. An unreadable specification gives `[]`. The output is an order-preserving subsequence of the walk. |
| `SinglePattern.SelectNonCompliant` | checkstyle/src/main.rs:98-134 | An unreadable specification gives `[]` whatever the tree. Otherwise a file is reported iff its name matches the include (default `**/*`), does not match the exclude (default `""`), it is readable, and its text fails the specification. The output is an order-preserving subsequence. |
| `SinglePattern.ReportedIffCheckFails` | checkstyle/src/main.rs:120-133 | A file is reported iff the specification can be read, the file was walked, its name matches the include and not the exclude, it is readable, and `check_matching` is false on its text. |
| `SinglePattern.SeparateRegexMatchingFiles` | checkstyle/src/main.rs:98-108 | The result is the fused filter applied to `all_files` of the target. An unreadable specification gives `[]`. |
| `SinglePattern.DefaultExcludeRemovesNothing` | checkstyle/src/main.rs:115-118 | If the empty glob matches only the empty text, the default exclude removes no file, since file names are never empty. |
| `SinglePattern.FusedAgreesWithSeparate` | checkstyle/src/main.rs:120-133 | With an exclude given, the fused single-pattern filter reports exactly what the `separate.rs` pipeline reports for the one-element pattern lists, in the same order. |
| `EmptyLine.EndsWithEmptyLine` | checkstyle/src/empty_line.rs:4-15 | True iff the text is some text followed by `"\n"`. Empty text is false. |
| `EmptyLine.NoEmptyLine` | checkstyle/src/empty_line.rs:17-22 | Requires every file to be readable. Reports exactly the files whose text is empty or whose last char is not `'\n'`. The output is an order-preserving subsequence of the input. |
| `EmptyLine.AppendingNewlinePasses` | checkstyle/src/empty_line.rs:11-14 | For any text `s`, `s + "\n"` ends with an empty line. |
| `EmptyLine.TrailingNewlineExamples` | checkstyle/src/empty_line.rs:7-14 | `""` fails, `"line1\nline2\n"` passes and `"line1\nline2"` fails. |

## Behaviour worth knowing

- Trailing newline: a file passes only if its last char is `'\n'`
  (checkstyle/src/empty_line.rs:7-14). Trailing spaces or a blank last line
  that ends in other whitespace are not looked at.
- Empty specification: the pattern compiled is `(?m)`, which matches any text,
  so no file is reported (checkstyle/src/separate.rs:24-27,
  `EmptySpecReportsNothing`).
- An invalid regex or glob makes `unwrap` panic
  (checkstyle/src/separate.rs:25, checkstyle/src/separate.rs:70-75,
  checkstyle/src/main.rs:110-118). The model makes validity a precondition.
- Only an absent include list takes the `**/*` default
  (checkstyle/src/separate.rs:62, checkstyle/src/glob_patterns.rs:11). An
  explicit `Some([])` keeps nothing (`NameFilterEmptyIncludeKeepsNothing`).
- An unreadable specification returns an empty report rather than an error
  (checkstyle/src/regex_nonmatch.rs:32-35, checkstyle/src/main.rs:105-108).
- `separate.rs`, `files_matching_glob_patterns.rs` and `main.rs` match globs
  against the bare file name (checkstyle/src/separate.rs:67,
  checkstyle/src/main.rs:123). Only `glob_patterns.rs` matches the whole path.

## Left out

- `main`, the clap `Args` struct, the `println!` report and `process::exit(1)`: command-line glue.
- Real file-system access (`fs::read_dir`, `fs::read_to_string`, `is_symlink`/`is_file`/`is_dir`) and every `eprintln!` diagnostic. They are replaced by the `Node` tree and the content map.
  - A metadata error in `is_file`/`is_dir` is an `Other` entry.
  - A dangling link is a `Symlink` whose target is `Other`.
  - Changes to the tree during a walk are not modelled.
- The regex crate: regex syntax and multi-line anchoring are not modelled. `RegexEngine.isMatch` is uninterpreted.
- The glob crate: glob syntax is not modelled. `GlobEngine.matches` is uninterpreted. Facts such as "`**/*` matches every name" and "the empty glob matches only the empty text" appear only as lemma hypotheses.
- `SelectByFileName`: does not model the panic of `to_str().unwrap()` on a file name that is not valid UTF-8, because names are Dafny strings.
- `PathText`: joins components with `/`. It does not model how Rust renders absolute roots, trailing separators or `.` components.
- `crate::utils::all_files`, used by `glob_patterns.rs`, is not part of this model. `MatchingFiles` takes its output as an input sequence.
- The tests read real files (`Syncer.kt`, `checkstyle-file-agpl-header.txt`, `test_folder`). They serve only as evidence for the abstract properties above. Their concrete outcomes depend on the engines and are not restated.
- `EndsWithEmptyLine` takes the file's text. The read and its `unwrap` belong to `NoEmptyLine`, which requires every file to be readable.
