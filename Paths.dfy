/**
 * The three path operations the processor uses to rebuild a file's output
 * path: directory name, file name and combine, with '/' as the separator.
 */
module Paths {

  const Separator: char := '/'

  /** Index of the last separator in `p`, or -1 when there is none. */
  function LastSeparator(p: string): (i: int)
    ensures -1 <= i < |p|
    ensures 0 <= i ==> p[i] == Separator
    ensures forall j :: i < j < |p| ==> p[j] != Separator
  {
    if p == [] then -1
    else if p[|p| - 1] == Separator then |p| - 1
    else LastSeparator(p[..|p| - 1])
  }

  /** Text before the last separator; the root when that separator comes first. */
  function DirectoryName(p: string): string {
    var i := LastSeparator(p);
    if i < 0 then "" else if i == 0 then [Separator] else p[..i]
  }

  /** Text after the last separator. */
  function FileName(p: string): (name: string)
    ensures Separator !in name
  {
    p[LastSeparator(p) + 1..]
  }

  /** Appends `name` to `dir`, adding a separator unless `dir` is empty or ends in one. */
  function Combine(dir: string, name: string): string {
    if dir == [] then name
    else if dir[|dir| - 1] == Separator then dir + name
    else dir + [Separator] + name
  }

  /** Where the processor writes the output for input file `p`. */
  function OutputPath(p: string): string {
    Combine(DirectoryName(p), FileName(p))
  }

  /**
   * `p` has no separator doubled in front of its file name. This is a
   * condition on this model's strings only. .NET's `Path.GetDirectoryName`
   * also collapses runs of separators elsewhere in the directory part, which
   * this model does not do.
   */
  predicate Plain(p: string) {
    var i := LastSeparator(p);
    i <= 0 || p[i - 1] != Separator
  }

  /** The output of a plainly spelled input path is written over the input itself. */
  lemma OutputPathIsInput(p: string)
    requires Plain(p)
    ensures OutputPath(p) == p
  {
    var i := LastSeparator(p);
    if i < 0 {
      assert FileName(p) == p;
    } else if i == 0 {
      assert [Separator] + p[1..] == p;
    } else {
      assert p[..i] + [Separator] + p[i + 1..] == p;
    }
  }
}
