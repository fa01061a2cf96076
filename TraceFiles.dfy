/**
 * What a run does to the file system, as functions on a map from path to
 * lines. These are the specifications the imperative processor is proved
 * against: reading one file, the batch loop, and the loop over path
 * specifications.
 */
module TraceFiles {
  import opened Wrappers
  import opened Paths
  import opened TraceTransform

  /** Contents of every file, one string per line. */
  type FileMap = map<string, seq<string>>

  /** The reader collaborator: parses a path of the current file system into rows, or fails. */
  type Reader = (FileMap, string) -> Option<seq<Row>>

  /** Directory enumeration: the files of a directory that match a search pattern, in enumeration order. */
  type Enumerator = (FileMap, string, string) -> seq<string>

  /** The processor's fixed configuration. */
  datatype Settings = Settings(reader: Reader, numColumns: int, delta: seq<real>)

  /** Writing a path twice leaves only the second contents. */
  lemma UpdateTwice(m: FileMap, k: string, a: seq<string>, b: seq<string>)
    ensures m[k := a][k := b] == m[k := b]
  {
  }

  /** The file system after the transform of `rows` is written for input `file`. */
  function WriteFile(s: Settings, fsm: FileMap, file: string, rows: seq<Row>): FileMap {
    fsm[OutputPath(file) := OutputLines(s.delta, s.numColumns, rows)]
  }

  /** For a path with no doubled separator the output file is the input file itself, now holding the transform. */
  lemma OutputReplacesInput(s: Settings, fsm: FileMap, file: string, rows: seq<Row>)
    requires Plain(file)
    ensures file in WriteFile(s, fsm, file, rows)
    ensures WriteFile(s, fsm, file, rows)[file] == OutputLines(s.delta, s.numColumns, rows)
  {
    OutputPathIsInput(file);
  }

  /** Read one file and, when the read succeeds, write its transform. */
  function ReadOne(s: Settings, fsm: FileMap, file: string): FileMap {
    match s.reader(fsm, file)
    case None => fsm
    case Some(rows) => WriteFile(s, fsm, file, rows)
  }

  /** The batch loop: every file in order, each read seeing the writes before it. */
  function ReadAll(s: Settings, fsm: FileMap, files: seq<string>): FileMap
    decreases |files|
  {
    if files == [] then fsm
    else ReadOne(s, ReadAll(s, fsm, files[..|files| - 1]), files[|files| - 1])
  }

  /** One path specification: an existing file is read directly, anything else is enumerated. */
  function ProcessOne(s: Settings, enumerate: Enumerator, fsm: FileMap, spec: string): FileMap {
    if spec in fsm then ReadOne(s, fsm, spec)
    else ReadAll(s, fsm, enumerate(fsm, DirectoryName(spec), FileName(spec)))
  }

  /** The loop over path specifications, in order. */
  function ProcessAll(s: Settings, enumerate: Enumerator, fsm: FileMap, specs: seq<string>): FileMap
    decreases |specs|
  {
    if specs == [] then fsm
    else ProcessOne(s, enumerate, ProcessAll(s, enumerate, fsm, specs[..|specs| - 1]), specs[|specs| - 1])
  }

  /** Running a batch in two parts is running it whole: files are handled strictly in order. */
  lemma {:induction false} ReadAllAppend(s: Settings, fsm: FileMap, a: seq<string>, b: seq<string>)
    ensures ReadAll(s, fsm, a + b) == ReadAll(s, ReadAll(s, fsm, a), b)
    decreases |b|
  {
    if b == [] {
      assert a + b == a;
    } else {
      var b' := b[..|b| - 1];
      assert (a + b)[..|a + b| - 1] == a + b';
      assert (a + b)[|a + b| - 1] == b[|b| - 1];
      ReadAllAppend(s, fsm, a, b');
    }
  }

  /** A file whose read fails is skipped and the rest of the batch runs as if it were absent. */
  lemma FailedReadSkipped(s: Settings, fsm: FileMap, a: seq<string>, f: string, b: seq<string>)
    requires s.reader(ReadAll(s, fsm, a), f).None?
    ensures ReadAll(s, fsm, a + [f] + b) == ReadAll(s, fsm, a + b)
  {
    ReadAllAppend(s, fsm, a + [f], b);
    ReadAllAppend(s, fsm, a, [f]);
    ReadAllAppend(s, fsm, a, b);
    assert [f][..0] == [];
  }

  /** A batch in which every read fails leaves the file system as it was. */
  lemma {:induction false} AllReadsFail(s: Settings, fsm: FileMap, files: seq<string>)
    requires forall i :: 0 <= i < |files| ==> s.reader(fsm, files[i]).None?
    ensures ReadAll(s, fsm, files) == fsm
    decreases |files|
  {
    if files != [] {
      AllReadsFail(s, fsm, files[..|files| - 1]);
    }
  }

  /** Only the output paths of the batch's files can change; every other path keeps its contents. */
  lemma {:induction false} ReadAllFrame(s: Settings, fsm: FileMap, files: seq<string>, p: string)
    requires forall f :: f in files ==> OutputPath(f) != p
    ensures p in ReadAll(s, fsm, files) <==> p in fsm
    ensures p in fsm ==> ReadAll(s, fsm, files)[p] == fsm[p]
    decreases |files|
  {
    if files != [] {
      var prefix, last := files[..|files| - 1], files[|files| - 1];
      assert files == prefix + [last];
      ReadAllFrame(s, fsm, prefix, p);
      ReadOneFrame(s, ReadAll(s, fsm, prefix), last, p);
    }
  }

  /** Reading one file changes at most its own output path. */
  lemma ReadOneFrame(s: Settings, fsm: FileMap, file: string, p: string)
    requires OutputPath(file) != p
    ensures p in ReadOne(s, fsm, file) <==> p in fsm
    ensures p in fsm ==> ReadOne(s, fsm, file)[p] == fsm[p]
  {
  }

  /** The last file of a batch that reads successfully leaves its transform at its output path. */
  lemma LastSuccessfulWriteWins(s: Settings, fsm: FileMap, files: seq<string>, rows: seq<Row>)
    requires files != []
    requires s.reader(ReadAll(s, fsm, files[..|files| - 1]), files[|files| - 1]) == Some(rows)
    ensures OutputPath(files[|files| - 1]) in ReadAll(s, fsm, files)
    ensures ReadAll(s, fsm, files)[OutputPath(files[|files| - 1])] == OutputLines(s.delta, s.numColumns, rows)
  {
  }

  /** One more file at the end of the batch. */
  lemma ReadAllSnoc(s: Settings, fsm: FileMap, files: seq<string>, i: nat)
    requires i < |files|
    ensures ReadAll(s, fsm, files[..i + 1]) == ReadOne(s, ReadAll(s, fsm, files[..i]), files[i])
  {
    var longer := files[..i + 1];
    assert longer[..|longer| - 1] == files[..i];
    assert longer[|longer| - 1] == files[i];
  }

  /** One more path specification at the end of the list. */
  lemma ProcessAllSnoc(s: Settings, enumerate: Enumerator, fsm: FileMap, specs: seq<string>, i: nat)
    requires i < |specs|
    ensures ProcessAll(s, enumerate, fsm, specs[..i + 1]) == ProcessOne(s, enumerate, ProcessAll(s, enumerate, fsm, specs[..i]), specs[i])
  {
    var longer := specs[..i + 1];
    assert longer[..|longer| - 1] == specs[..i];
    assert longer[|longer| - 1] == specs[i];
  }

  /** Path specifications, like files, are handled strictly in order. */
  lemma {:induction false} ProcessAllAppend(s: Settings, enumerate: Enumerator, fsm: FileMap, a: seq<string>, b: seq<string>)
    ensures ProcessAll(s, enumerate, fsm, a + b) == ProcessAll(s, enumerate, ProcessAll(s, enumerate, fsm, a), b)
    decreases |b|
  {
    if b == [] {
      assert a + b == a;
    } else {
      var b' := b[..|b| - 1];
      assert (a + b)[..|a + b| - 1] == a + b';
      assert (a + b)[|a + b| - 1] == b[|b| - 1];
      ProcessAllAppend(s, enumerate, fsm, a, b');
    }
  }

  /** A path specification naming an existing file handles that file alone. */
  lemma ExistingFileIsReadAlone(s: Settings, enumerate: Enumerator, fsm: FileMap, spec: string)
    requires spec in fsm
    ensures ProcessOne(s, enumerate, fsm, spec) == ReadAll(s, fsm, [spec])
  {
    assert [spec][..0] == [];
  }
}
