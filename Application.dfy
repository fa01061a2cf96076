/**
 * The trace processor itself: a class holding the reader, the column count
 * and the multipliers, whose methods rewrite files of a file-system object.
 * Each method is proved against the functions of module TraceFiles.
 */
module Application {
  import opened Wrappers
  import opened Paths
  import opened CsvLine
  import opened TraceTransform
  import opened TraceFiles

  /** The file system the processor reads and writes. */
  class FileSystem {
    var files: FileMap
    var directories: set<string>
    /** Directory enumeration by search pattern, as the operating system performs it. */
    const enumerateFiles: Enumerator

    constructor (files: FileMap, directories: set<string>, enumerateFiles: Enumerator)
      ensures this.files == files && this.directories == directories
      ensures this.enumerateFiles == enumerateFiles
    {
      this.files := files;
      this.directories := directories;
      this.enumerateFiles := enumerateFiles;
    }
  }

  /** How a call ends: normally, turned away by the configuration check, or with an argument error. */
  datatype Status = Completed | ConfigurationRejected | ArgumentNull(parameter: string)

  class ProcessTraceFile {
    const reader: Reader
    const numColumns: int
    const delta: seq<real>

    constructor (reader: Reader, numColumns: int, delta: seq<real>)
      ensures this.reader == reader && this.numColumns == numColumns && this.delta == delta
    {
      this.reader := reader;
      this.numColumns := numColumns;
      this.delta := delta;
    }

    function Config(): Settings {
      Settings(reader, numColumns, delta)
    }

    /**
     * Runs the configuration check, then every path specification in order.
     * A null list of specifications is `None`.
     */
    method Process(fs: FileSystem, outputFolder: string, specs: Option<seq<string>>) returns (status: Status)
      modifies fs
      ensures |delta| < numColumns ==> status == ConfigurationRejected
      ensures |delta| >= numColumns && specs.None? ==> status == ArgumentNull("directoryAndSearchPatterns")
      ensures status != Completed ==> fs.files == old(fs.files) && fs.directories == old(fs.directories)
      ensures |delta| >= numColumns && specs.Some? ==>
        status == Completed
        && fs.files == ProcessAll(Config(), fs.enumerateFiles, old(fs.files), specs.value)
        && fs.directories == old(fs.directories) + {outputFolder}
    {
      if |delta| < numColumns {
        return ConfigurationRejected;
      }
      if specs.None? {
        return ArgumentNull("directoryAndSearchPatterns");
      }
      if outputFolder !in fs.directories {
        fs.directories := fs.directories + {outputFolder};
      }
      var all := specs.value;
      for i := 0 to |all|
        invariant fs.files == ProcessAll(Config(), fs.enumerateFiles, old(fs.files), all[..i])
        invariant fs.directories == old(fs.directories) + {outputFolder}
      {
        ProcessAllSnoc(Config(), fs.enumerateFiles, old(fs.files), all, i);
        ProcessSpecification(fs, all[i]);
      }
      assert all[..|all|] == all;
      return Completed;
    }

    /** The body of the loop over path specifications: one file, or every file a search pattern matches. */
    method ProcessSpecification(fs: FileSystem, spec: string)
      modifies fs`files
      ensures fs.files == ProcessOne(Config(), fs.enumerateFiles, old(fs.files), spec)
    {
      if spec in fs.files {
        // the specification names an existing file
        var input := reader(fs.files, spec);
        if input.Some? {
          WriteTraceOutput(fs, spec, input.value);
        }
      } else {
        var path := DirectoryName(spec);
        var searchPattern := FileName(spec);
        var files := fs.enumerateFiles(fs.files, path, searchPattern);
        var _ := ReadFiles(fs, Some(files));
      }
    }

    /** The batch loop. A null list of files is `None`. */
    method ReadFiles(fs: FileSystem, files: Option<seq<string>>) returns (status: Status)
      modifies fs`files
      ensures files.None? ==> status == ArgumentNull("files") && fs.files == old(fs.files)
      ensures files.Some? ==> status == Completed && fs.files == ReadAll(Config(), old(fs.files), files.value)
    {
      if files.None? {
        return ArgumentNull("files");
      }
      var all := files.value;
      for i := 0 to |all|
        invariant fs.files == ReadAll(Config(), old(fs.files), all[..i])
      {
        var file := all[i];
        ReadAllSnoc(Config(), old(fs.files), all, i);
        var input := reader(fs.files, file);
        if input.Some? {
          WriteTraceOutput(fs, file, input.value);
        }
      }
      assert all[..|all|] == all;
      return Completed;
    }

    /**
     * Creates (or truncates) the output file, then writes one line per row
     * until the rows run out or a row has fewer than `numColumns` entries.
     */
    method WriteTraceOutput(fs: FileSystem, inputFile: string, inputData: seq<Row>)
      modifies fs`files
      ensures fs.files == WriteFile(Config(), old(fs.files), inputFile, inputData)
    {
      var folder := DirectoryName(inputFile);
      var filename := FileName(inputFile);
      var outputFile := Combine(folder, filename);
      // the writer truncates the file when it is opened; each WriteLine extends it
      var written: seq<string> := [];
      fs.files := fs.files[outputFile := written];
      assert inputData[..0] == [];
      var i := 0;
      while i < |inputData|
        invariant 0 <= i <= |inputData|
        invariant forall j :: 0 <= j < i ==> |inputData[j]| >= numColumns
        invariant written == OutputLines(delta, numColumns, inputData[..i])
        invariant fs.files == old(fs.files)[outputFile := written]
      {
        var row := inputData[i];
        if |row| < numColumns {
          EarlyAbortPrefix(delta, numColumns, inputData, i);
          return;
        }
        var adjusted := AdjustRow(delta, numColumns, row);
        OutputLinesSnoc(delta, numColumns, inputData, i);
        UpdateTwice(old(fs.files), outputFile, written, written + [JoinInts(adjusted)]);
        written := written + [JoinInts(adjusted)];
        fs.files := fs.files[outputFile := written];
        i := i + 1;
      }
      EarlyAbortPrefix(delta, numColumns, inputData, i);
    }
  }
}
