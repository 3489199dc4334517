/**
 The inputs of the scanner that the real program obtains from the operating
 system or from foreign crates: the directory tree, the text of files, and the
 glob and regular-expression engines.
 */
module FileTree {

  datatype Option<+T> = None | Some(value: T) {
    /** `unwrap_or(default)` / `unwrap_or_default()` */
    function GetOr(default: T): T {
      match this
      case Some(v) => v
      case None => default
    }
  }

  /** A path is the sequence of its components; `join` appends one. */
  type Path = seq<string>

  /** A path that names an entry, so that `file_name()` exists. */
  type FilePath = p: Path | |p| > 0 witness [""]

  /**
   `file_name()`: the last component. The empty path has none (`file_name()`
   is `None` and the source's `unwrap` panics); callers exclude it.
   */
  function FileName(p: Path): string {
    if p == [] then "" else p[|p| - 1]
  }

  /** The text a path converts to (`to_str()`): its components joined by '/'. */
  function PathText(p: Path): string {
    if |p| == 0 then ""
    else if |p| == 1 then p[0]
    else PathText(p[..|p| - 1]) + "/" + p[|p| - 1]
  }

  /**
   What `fs::read_dir` and the file-type queries see at one path.
   `Symlink` is a link whatever it points to; `Other` is an entry that is neither
   a regular file nor a directory (a socket, a fifo, a device); `BadEntry` is an
   entry that the directory iterator fails to produce (an `Err` item).
   */
  datatype Node =
    | File(name: string)
    | Symlink(name: string, target: Node)
    | Dir(name: string, readable: bool, entries: seq<Node>)
    | Other(name: string)
    | BadEntry

  /**
   The text of the files that `fs::read_to_string` can read. A path that is
   missing from the map fails to read, whether for an I/O error or because its
   bytes are not valid UTF-8: both make `read_file_content` return `None`.
   */
  type FileSystem = map<Path, string>

  /** `read_file_content` */
  function ReadFileContent(fs: FileSystem, p: Path): Option<string> {
    if p in fs then Some(fs[p]) else None
  }

  /**
   The glob crate: `valid(g)` says that `Pattern::new(g)` succeeds, and
   `matches(g, t)` that the compiled pattern matches the text `t`.
   */
  datatype GlobEngine = GlobEngine(valid: string -> bool, matches: (string, string) -> bool)

  /**
   The regex crate: `compiles(r)` says that `Regex::new(r)` succeeds, and
   `isMatch(r, t)` that the compiled expression finds a match somewhere in `t`.
   */
  datatype RegexEngine = RegexEngine(compiles: string -> bool, isMatch: (string, string) -> bool)
}
