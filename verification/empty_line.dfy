/** The trailing-newline rule of empty_line.rs: `ends_with_empty_line` and `no_empty_line`. */
module EmptyLine {
  import opened FileTree
  import opened Sequences

  /** `ends_with_empty_line`, given the text of the file. */
  function EndsWithEmptyLine(content: string): (r: bool)
    ensures r <==> exists body :: body + "\n" == content
  {
    if content == [] then false
    else
      assert content[|content| - 1] == '\n' ==> content[..|content| - 1] + "\n" == content;
      content[|content| - 1] == '\n'
  }

  function LacksEmptyLine(fs: FileSystem): Path -> bool {
    p => p in fs && !EndsWithEmptyLine(fs[p])
  }

  /** `no_empty_line`: every file must be readable, or the `unwrap` in `ends_with_empty_line` panics. */
  function NoEmptyLine(paths: seq<Path>, fs: FileSystem): (r: seq<Path>)
    requires forall p :: p in paths ==> p in fs
    ensures forall p :: p in r <==> p in paths && (fs[p] == "" || fs[p][|fs[p]| - 1] != '\n')
    ensures IsSubsequence(r, paths)
  {
    Filter(paths, LacksEmptyLine(fs))
  }

  /** Whatever a file holds, appending a newline makes it pass the rule. */
  lemma AppendingNewlinePasses(content: string)
    ensures EndsWithEmptyLine(content + "\n")
  {
  }

  lemma TrailingNewlineExamples()
    ensures !EndsWithEmptyLine("")
    ensures EndsWithEmptyLine("line1\nline2\n")
    ensures !EndsWithEmptyLine("line1\nline2")
  {
  }
}
