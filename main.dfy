/** The main-process request handlers of electron/main.ts that hold logic:
    copy-file, cut-file, paste-file and delete-file over the filesystem,
    and the result shaping of execute-command, select-directory and
    read-directory. A handler that fails answers `Err` with the filesystem
    error that made it throw. */
module Main {
  import opened Common
  import opened Types
  import opened Base64
  import opened Paths
  import opened Fs

  // ---------------------------------------------------------------------
  // read-directory, select-directory, execute-command

  /** The entry that read-directory reports for `name` inside `dirPath`,
      whose path is `path.join(dirPath, name)`: the name as last segment,
      and, for a directory path in normal form, that directory as parent. */
  function EntryOf(dirPath: string, name: string, isDirectory: bool, size: nat): (item: FileItem)
    requires IsSegment(name)
    ensures item.name == name && item.isDirectory == isDirectory && item.size == size
    ensures BaseName(item.path) == name
    ensures IsDirectoryPath(dirPath) ==> ParentPath(item.path) == dirPath
  {
    JoinPathBaseName(dirPath, name);
    if IsDirectoryPath(dirPath) then
      ParentOfEntry(dirPath, name);
      FileItem(name, JoinPath(dirPath, name), isDirectory, size)
    else
      FileItem(name, JoinPath(dirPath, name), isDirectory, size)
  }

  /** select-directory: the first chosen path, or null when the dialog was
      cancelled or nothing was chosen. */
  function SelectDirectory(canceled: bool, filePaths: seq<string>): (r: Option<string>)
    ensures r.Some? <==> !canceled && |filePaths| > 0
    ensures r.Some? ==> r.value == filePaths[0]
  {
    if !canceled && |filePaths| > 0 then Some(filePaths[0]) else None
  }

  /** What `exec` settles with: its output, or a rejection carrying whatever
      output it had and a message. */
  datatype ExecOutcome =
    | Completed(stdout: string, stderr: string)
    | Rejected(partialStdout: Option<string>, partialStderr: Option<string>, message: string)

  /** `cwd || process.cwd()` */
  function WorkingDirectory(cwd: Option<string>, processCwd: string): (d: string)
    ensures Truthy(cwd) ==> d == cwd.value
    ensures !Truthy(cwd) ==> d == processCwd
  {
    if Truthy(cwd) then cwd.value else processCwd
  }

  /** execute-command never rejects: a completed run answers its output with
      a null error, a rejected one answers its output (or "") with the
      rejection's message as the error. */
  function ExecuteCommand(outcome: ExecOutcome): (r: CommandResult)
    ensures r.error.None? <==> outcome.Completed?
    ensures outcome.Completed? ==> r.stdout == outcome.stdout && r.stderr == outcome.stderr
    ensures outcome.Rejected? ==> r.error == Some(outcome.message)
    ensures outcome.Rejected? ==> r.stdout == if Truthy(outcome.partialStdout) then outcome.partialStdout.value else ""
    ensures outcome.Rejected? ==> r.stderr == if Truthy(outcome.partialStderr) then outcome.partialStderr.value else ""
  {
    match outcome
    case Completed(out, err) => CommandResult(out, err, None)
    case Rejected(out, err, msg) =>
      CommandResult(
        if Truthy(out) then out.value else "",
        if Truthy(err) then err.value else "",
        Some(msg))
  }

  // ---------------------------------------------------------------------
  // copy-file and cut-file

  /** The answer of copy-file (`isCut` absent) or cut-file (`isCut` true):
      the file's bytes as base64 text. */
  function ReadForClipboard(st: FsState, sourcePath: string, cut: bool): (r: Result<FileOperationResult, FsError>)
    requires WellFormed(st)
    ensures r.Ok? <==> sourcePath in st.files
    ensures r.Ok? ==> r.value.success && r.value.path == Some(sourcePath)
    ensures r.Ok? ==> r.value.content.Some? && Decode(r.value.content.value) == st.files[sourcePath]
    ensures r.Ok? ==> r.value.isCut == if cut then Some(true) else None
  {
    match ReadSpec(st, sourcePath)
    case Ok(bytes) =>
      DecodeEncode(bytes);
      Ok(FileOperationResult(true, Some(sourcePath), Some(Encode(bytes)), if cut then Some(true) else None))
    case Err(e) => Err(e)
  }

  /** copy-file: reads, never writes. */
  method CopyFile(fs: FileSystem, sourcePath: string) returns (r: Result<FileOperationResult, FsError>)
    requires WellFormed(fs.Contents())
    ensures r == ReadForClipboard(fs.Contents(), sourcePath, false)
  {
    var read := fs.ReadFile(sourcePath);
    match read {
      case Ok(bytes) =>
        r := Ok(FileOperationResult(true, Some(sourcePath), Some(Encode(bytes)), None));
      case Err(e) =>
        r := Err(e);
    }
  }

  /** cut-file: the same read as copy-file; the source stays in place until
      a paste. */
  method CutFile(fs: FileSystem, sourcePath: string) returns (r: Result<FileOperationResult, FsError>)
    requires WellFormed(fs.Contents())
    ensures r == ReadForClipboard(fs.Contents(), sourcePath, true)
  {
    var read := fs.ReadFile(sourcePath);
    match read {
      case Ok(bytes) =>
        r := Ok(FileOperationResult(true, Some(sourcePath), Some(Encode(bytes)), Some(true)));
      case Err(e) =>
        r := Err(e);
    }
  }

  /** copy-file and cut-file give the same answer but for the cut flag. */
  lemma CopyAndCutDifferOnlyInFlag(st: FsState, sourcePath: string)
    requires WellFormed(st)
    ensures ReadForClipboard(st, sourcePath, false).Ok? == ReadForClipboard(st, sourcePath, true).Ok?
    ensures ReadForClipboard(st, sourcePath, false).Ok? ==>
      ReadForClipboard(st, sourcePath, true).value
        == ReadForClipboard(st, sourcePath, false).value.(isCut := Some(true))
  {
  }

  // ---------------------------------------------------------------------
  // paste-file

  /** paste-file, as a function of the filesystem before it: the answer and
      the filesystem after it. The bytes are written first; only when that
      succeeds, and the record was a cut naming a source, is the source
      unlinked. A failed unlink still leaves the written copy in place. */
  function PasteSpec(st: FsState, destinationDir: string, fileName: string, content: string,
                     isCut: bool, sourcePath: Option<string>): (r: (FsState, Result<FileOperationResult, FsError>))
    ensures r.1.Ok? ==> r.1.value == FileOperationResult(true, Some(JoinPath(destinationDir, fileName)), None, None)
    ensures r.1.Err? && r.0 != st ==> isCut && Truthy(sourcePath)
  {
    var destinationPath := JoinPath(destinationDir, fileName);
    match WriteSpec(st, destinationPath, Decode(content))
    case Err(e) => (st, Err(e))
    case Ok(written) =>
      if isCut && Truthy(sourcePath) then
        match UnlinkSpec(written, sourcePath.value)
        case Err(e) => (written, Err(e))
        case Ok(moved) => (moved, Ok(FileOperationResult(true, Some(destinationPath), None, None)))
      else (written, Ok(FileOperationResult(true, Some(destinationPath), None, None)))
  }

  method PasteFile(fs: FileSystem, destinationDir: string, fileName: string, content: string,
                   isCut: bool, sourcePath: Option<string>) returns (r: Result<FileOperationResult, FsError>)
    modifies fs
    ensures (fs.Contents(), r) == PasteSpec(old(fs.Contents()), destinationDir, fileName, content, isCut, sourcePath)
  {
    var destinationPath := JoinPath(destinationDir, fileName);
    var buffer := Decode(content);
    var written := fs.WriteFile(destinationPath, buffer);
    if written.Failed? {
      return Err(written.error);
    }
    if isCut && Truthy(sourcePath) {
      var unlinked := fs.Unlink(sourcePath.value);
      if unlinked.Failed? {
        return Err(unlinked.error);
      }
    }
    r := Ok(FileOperationResult(true, Some(destinationPath), None, None));
  }

  /** A paste whose write fails answers an error and leaves the filesystem
      as it was. */
  lemma PasteWriteFailureChangesNothing(st: FsState, destinationDir: string, fileName: string,
                                        content: string, isCut: bool, sourcePath: Option<string>)
    requires WriteSpec(st, JoinPath(destinationDir, fileName), Decode(content)).Err?
    ensures PasteSpec(st, destinationDir, fileName, content, isCut, sourcePath).0 == st
    ensures PasteSpec(st, destinationDir, fileName, content, isCut, sourcePath).1.Err?
  {
  }

  /** A paste changes no directory, and no file but the destination and, for
      a cut, the source. */
  lemma PasteFrame(st: FsState, destinationDir: string, fileName: string, content: string,
                   isCut: bool, sourcePath: Option<string>, q: string)
    requires q != JoinPath(destinationDir, fileName)
    requires isCut && Truthy(sourcePath) ==> q != sourcePath.value
    ensures var after := PasteSpec(st, destinationDir, fileName, content, isCut, sourcePath).0;
      after.dirs == st.dirs
      && (q in after.files <==> q in st.files)
      && (q in st.files ==> after.files[q] == st.files[q])
  {
  }

  /** A successful paste leaves the decoded bytes at the destination, unless
      it was a cut whose source is the destination itself: then the file is
      gone. */
  lemma PasteResult(st: FsState, destinationDir: string, fileName: string, content: string,
                    isCut: bool, sourcePath: Option<string>)
    requires PasteSpec(st, destinationDir, fileName, content, isCut, sourcePath).1.Ok?
    ensures var dest := JoinPath(destinationDir, fileName);
      var after := PasteSpec(st, destinationDir, fileName, content, isCut, sourcePath).0;
      if isCut && sourcePath == Some(dest) then dest !in after.files
      else dest in after.files && after.files[dest] == Decode(content)
  {
  }

  /** A cut paste whose unlink fails (the source vanished) still answers an
      error, though the copy has been written. */
  lemma PasteUnlinkFailureKeepsCopy(st: FsState, destinationDir: string, fileName: string,
                                    content: string, sourcePath: string)
    requires sourcePath != ""
    requires WriteSpec(st, JoinPath(destinationDir, fileName), Decode(content)).Ok?
    requires sourcePath !in st.files && sourcePath != JoinPath(destinationDir, fileName)
    ensures var (after, r) := PasteSpec(st, destinationDir, fileName, content, true, Some(sourcePath));
      r.Err? && after.files == st.files[JoinPath(destinationDir, fileName) := Decode(content)]
  {
  }

  /** Copy then paste into another place: the source keeps its bytes and the
      destination receives the same bytes. */
  lemma CopyThenPaste(st: FsState, sourcePath: string, destinationDir: string)
    requires WellFormed(st)
    requires sourcePath in st.files
    requires var dest := JoinPath(destinationDir, BaseName(sourcePath));
      dest != sourcePath && dest !in st.dirs && ParentPath(dest) in st.dirs
    ensures var copied := ReadForClipboard(st, sourcePath, false).value;
      var dest := JoinPath(destinationDir, BaseName(sourcePath));
      var (after, r) := PasteSpec(st, destinationDir, BaseName(sourcePath), copied.content.value, false, Some(sourcePath));
      r.Ok? && after.files[sourcePath] == st.files[sourcePath] && after.files[dest] == st.files[sourcePath]
  {
  }

  /** Cut then paste into another place: the source is gone and the
      destination holds its former bytes. */
  lemma CutThenPaste(st: FsState, sourcePath: string, destinationDir: string)
    requires WellFormed(st)
    requires sourcePath in st.files && sourcePath != ""
    requires var dest := JoinPath(destinationDir, BaseName(sourcePath));
      dest != sourcePath && dest !in st.dirs && ParentPath(dest) in st.dirs
    ensures var cut := ReadForClipboard(st, sourcePath, true).value;
      var dest := JoinPath(destinationDir, BaseName(sourcePath));
      var (after, r) := PasteSpec(st, destinationDir, BaseName(sourcePath), cut.content.value, true, Some(sourcePath));
      r.Ok? && sourcePath !in after.files && after.files[dest] == st.files[sourcePath]
  {
    var dest := JoinPath(destinationDir, BaseName(sourcePath));
    var bytes := st.files[sourcePath];
    var cut := ReadForClipboard(st, sourcePath, true).value;
    assert Decode(cut.content.value) == bytes;
    var written := WriteSpec(st, dest, bytes);
    assert written.Ok? && written.value.files == st.files[dest := bytes];
    var moved := UnlinkSpec(written.value, sourcePath);
    assert moved.Ok? && moved.value.files == written.value.files - {sourcePath};
    assert PasteSpec(st, destinationDir, BaseName(sourcePath), cut.content.value, true, Some(sourcePath)).0
      == moved.value;
  }

  /** Pasting a copy record a second time succeeds again and changes
      nothing more: the record stays usable and the paste is idempotent. */
  lemma PasteCopyTwice(st: FsState, destinationDir: string, fileName: string, content: string,
                       sourcePath: Option<string>)
    requires PasteSpec(st, destinationDir, fileName, content, false, sourcePath).1.Ok?
    ensures var (once, r) := PasteSpec(st, destinationDir, fileName, content, false, sourcePath);
      PasteSpec(once, destinationDir, fileName, content, false, sourcePath) == (once, r)
  {
    var dest := JoinPath(destinationDir, fileName);
    var once := PasteSpec(st, destinationDir, fileName, content, false, sourcePath).0;
    assert once.files == st.files[dest := Decode(content)];
    assert once.files[dest := Decode(content)] == once.files;
  }

  /** Pasting keeps files and directories apart. */
  lemma PasteKeepsWellFormed(st: FsState, destinationDir: string, fileName: string, content: string,
                             isCut: bool, sourcePath: Option<string>)
    requires WellFormed(st)
    ensures WellFormed(PasteSpec(st, destinationDir, fileName, content, isCut, sourcePath).0)
  {
  }

  // ---------------------------------------------------------------------
  // delete-file

  /** delete-file, as a function of the filesystem before it: a stat, then a
      recursive remove for a directory or an unlink for a file. */
  function DeleteSpec(st: FsState, filePath: string): (r: (FsState, Result<FileOperationResult, FsError>))
    ensures r.1.Ok? <==> filePath in st.files || filePath in st.dirs
    ensures r.1.Err? ==> r.0 == st
  {
    match StatSpec(st, filePath)
    case Err(e) => (st, Err(e))
    case Ok(Directory) =>
      var r := RemoveTreeSpec(st, filePath);
      (After(r, st), DeleteAnswer(OutcomeOf(r)))
    case Ok(File) =>
      var r := UnlinkSpec(st, filePath);
      (After(r, st), DeleteAnswer(OutcomeOf(r)))
  }

  /** `{ success: true }`, or the error the removal threw. */
  function DeleteAnswer(o: Outcome): Result<FileOperationResult, FsError>
  {
    match o
    case Done => Ok(FileOperationResult(true, None, None, None))
    case Failed(e) => Err(e)
  }

  method DeleteFile(fs: FileSystem, filePath: string) returns (r: Result<FileOperationResult, FsError>)
    modifies fs
    ensures (fs.Contents(), r) == DeleteSpec(old(fs.Contents()), filePath)
  {
    var stats := fs.Stat(filePath);
    match stats {
      case Err(e) =>
        return Err(e);
      case Ok(kind) =>
        var removed;
        if kind == Directory {
          removed := fs.RemoveTree(filePath);
        } else {
          removed := fs.Unlink(filePath);
        }
        r := DeleteAnswer(removed);
    }
  }

  /** Deleting a missing path fails and changes nothing. */
  lemma DeleteMissing(st: FsState, filePath: string)
    requires filePath !in st.files && filePath !in st.dirs
    ensures DeleteSpec(st, filePath) == (st, Err(NotFound))
  {
  }

  /** Deleting a directory removes it and every path beneath it, and nothing
      else. */
  lemma DeleteDirectory(st: FsState, filePath: string)
    requires filePath in st.dirs
    ensures var (after, r) := DeleteSpec(st, filePath);
      r.Ok?
      && filePath !in after.dirs
      && (forall q :: q in after.files <==> q in st.files && q != filePath && !Beneath(q, filePath))
      && (forall q :: q in after.dirs <==> q in st.dirs && q != filePath && !Beneath(q, filePath))
      && (forall q :: q in after.files ==> after.files[q] == st.files[q])
  {
  }

  /** Deleting the root removes every other absolute path. */
  lemma DeleteRootRemovesAbsolutePaths(st: FsState, q: string)
    requires "/" in st.dirs
    requires |q| > 1 && q[0] == '/'
    ensures var after := DeleteSpec(st, "/").0;
      q !in after.files && q !in after.dirs
  {
    BeneathRoot(q);
  }

  /** Deleting keeps files and directories apart. */
  lemma DeleteKeepsWellFormed(st: FsState, filePath: string)
    requires WellFormed(st)
    ensures WellFormed(DeleteSpec(st, filePath).0)
  {
  }

  /** Deleting a file removes exactly that file. */
  lemma DeleteFileOnly(st: FsState, filePath: string)
    requires WellFormed(st)
    requires filePath in st.files
    ensures var (after, r) := DeleteSpec(st, filePath);
      r.Ok? && after.files == st.files - {filePath} && after.dirs == st.dirs
  {
  }
}
