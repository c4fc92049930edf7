/** The file toolbar (src/components/FileToolbar.tsx): a single clipboard
    slot filled by copy and cut and consumed by a successful paste of a cut,
    plus the guarded delete, rename and open-in-editor actions. Every action
    on the selected file first checks that there is one. The main-process
    handlers are called on the abstract filesystem; the confirmation and
    prompt dialogs and the rename and open outcomes are parameters. */
module Toolbar {
  import opened Common
  import opened Types
  import opened Base64
  import opened Strings
  import opened Paths
  import opened Fs
  import Main

  /** The clipboard record: the file's bytes as base64 text, its name, its
      path and whether it was cut. */
  datatype ClipboardData = ClipboardData(content: string, fileName: string, sourcePath: string, isCut: bool)

  /** The status line. The text of a caught error is not modelled. */
  datatype Message =
    | NoMessage
    | NoFileSelected
    | Copied(fileName: string)
    | CopyFailed
    | CutDone(fileName: string)
    | CutFailed
    | ClipboardEmpty
    | Pasted(fileName: string)
    | PasteFailed
    | Deleted(fileName: string)
    | DeleteFailed
    | RenamedTo(newName: string)
    | RenameFailed
    | OpeningInEditor
    | OpenFailed

  /** `result.content || ''` */
  function ContentOr(content: Option<string>): string
  {
    if content.Some? then content.value else ""
  }

  /** The record a copy (`cut` false) or cut of `sourcePath` stores, or None
      when the main process throws. */
  function ClipRecord(st: FsState, sourcePath: string, cut: bool): (c: Option<ClipboardData>)
    requires WellFormed(st)
    ensures c.Some? <==> sourcePath in st.files
    ensures c.Some? ==> c.value.fileName == BaseName(sourcePath) && c.value.sourcePath == sourcePath
    ensures c.Some? ==> c.value.isCut == cut
    ensures c.Some? ==> Decode(c.value.content) == st.files[sourcePath]
  {
    match Main.ReadForClipboard(st, sourcePath, cut)
    case Ok(result) => Some(ClipboardData(ContentOr(result.content), BaseName(sourcePath), sourcePath, cut))
    case Err(_) => None
  }

  /** The clipboard after a paste that did not throw: a cut record is used
      up, a copy record stays. */
  function AfterPaste(clip: ClipboardData): (c: Option<ClipboardData>)
    ensures c.None? <==> clip.isCut
    ensures c.Some? ==> c.value == clip
  {
    if clip.isCut then None else Some(clip)
  }

  /** Copying a file and pasting the record into another directory leaves
      the source as it was and gives the destination the source's bytes. */
  lemma CopyRecordPastes(st: FsState, sourcePath: string, destinationDir: string)
    requires WellFormed(st)
    requires sourcePath in st.files
    requires var dest := JoinPath(destinationDir, BaseName(sourcePath));
      dest != sourcePath && dest !in st.dirs && ParentPath(dest) in st.dirs
    ensures var c := ClipRecord(st, sourcePath, false).value;
      var dest := JoinPath(destinationDir, BaseName(sourcePath));
      var (after, r) := Main.PasteSpec(st, destinationDir, c.fileName, c.content, c.isCut, Some(c.sourcePath));
      r.Ok? && after.files[sourcePath] == st.files[sourcePath] && after.files[dest] == st.files[sourcePath]
      && AfterPaste(c) == Some(c)
  {
    Main.CopyThenPaste(st, sourcePath, destinationDir);
  }

  /** Cutting a file and pasting the record into another directory moves the
      bytes, and the record is used up. */
  lemma CutRecordPastes(st: FsState, sourcePath: string, destinationDir: string)
    requires WellFormed(st)
    requires sourcePath in st.files && sourcePath != ""
    requires var dest := JoinPath(destinationDir, BaseName(sourcePath));
      dest != sourcePath && dest !in st.dirs && ParentPath(dest) in st.dirs
    ensures var c := ClipRecord(st, sourcePath, true).value;
      var dest := JoinPath(destinationDir, BaseName(sourcePath));
      var (after, r) := Main.PasteSpec(st, destinationDir, c.fileName, c.content, c.isCut, Some(c.sourcePath));
      r.Ok? && sourcePath !in after.files && after.files[dest] == st.files[sourcePath]
      && AfterPaste(c) == None
  {
    Main.CutThenPaste(st, sourcePath, destinationDir);
  }

  /** `d + "/" + name` splits back into `d` and `name` at its last '/'. */
  lemma SlashJoinSplits(d: string, name: string)
    requires IsSegment(name)
    ensures BaseName(d + "/" + name) == name
    ensures DirName(d + "/" + name) == d
  {
    var p := d + "/" + name;
    assert p[|d|] == '/';
    assert forall j :: |d| < j < |p| ==> p[j] == name[j - |d| - 1];
    assert LastIndexOf(p, '/') == |d|;
    assert p[|d| + 1..] == name;
  }

  /** `` `${directory}/${newName}` `` with the directory taken by
      `substring(0, lastIndexOf('/'))`. A new name without '/' keeps the
      file in its directory (a file directly under the root stays under the
      root) and the target ends in that name. */
  function RenameTarget(selected: string, newName: string): (target: string)
    ensures IsSegment(newName) ==> BaseName(target) == newName && DirName(target) == DirName(selected)
  {
    if IsSegment(newName) then
      SlashJoinSplits(DirName(selected), newName);
      DirName(selected) + "/" + newName
    else
      DirName(selected) + "/" + newName
  }

  /** The new name a rename proceeds with: the prompt's answer when it is
      non-empty and differs from the old name. */
  function RenameChoice(selected: string, answer: Option<string>): (r: Option<string>)
    ensures r.Some? <==> Truthy(answer) && answer.value != BaseName(selected)
    ensures r.Some? ==> r.value == answer.value && r.value != ""
  {
    if !Truthy(answer) || answer.value == BaseName(selected) then None else answer
  }

  class FileToolbar {
    var clipboard: Option<ClipboardData>
    var message: Message

    constructor ()
      ensures clipboard == None && message == NoMessage
    {
      clipboard := None;
      message := NoMessage;
    }

    /** The Paste button is enabled only with a record (the Copy, Cut,
        Rename, Delete and Edit buttons only with a selection, that is,
        when `Truthy(selectedFile)`). */
    predicate PasteEnabled()
      reads this
    {
      clipboard.Some?
    }

    /** `handleCopy` (`cut` false) and `handleCut` (`cut` true): with a
        selection, the record read from the main process replaces the
        clipboard; a failed read leaves the clipboard as it was. The
        filesystem is only read. */
    method CopyOrCut(fs: FileSystem, selectedFile: Option<string>, cut: bool)
      requires WellFormed(fs.Contents())
      modifies this
      ensures !Truthy(selectedFile) ==> clipboard == old(clipboard) && message == NoFileSelected
      ensures Truthy(selectedFile) ==>
        var record := ClipRecord(fs.Contents(), selectedFile.value, cut);
        var name := BaseName(selectedFile.value);
        && clipboard == (if record.Some? then record else old(clipboard))
        && message == (if record.None? then (if cut then CutFailed else CopyFailed)
                       else if cut then CutDone(name) else Copied(name))
    {
      if !Truthy(selectedFile) {
        message := NoFileSelected;
        return;
      }
      var path := selectedFile.value;
      var result;
      if cut {
        result := Main.CutFile(fs, path);
      } else {
        result := Main.CopyFile(fs, path);
      }
      match result {
        case Ok(answer) =>
          var fileName := BaseName(path);
          clipboard := Some(ClipboardData(ContentOr(answer.content), fileName, path, cut));
          message := if cut then CutDone(fileName) else Copied(fileName);
        case Err(_) =>
          message := if cut then CutFailed else CopyFailed;
      }
    }

    /** `handlePaste` into `currentPath`: with a record, paste-file runs; if
        it succeeds the message names the file, a cut record is used up and
        the listing is refreshed; if it fails the record stays. With an
        empty clipboard nothing is called. */
    method Paste(fs: FileSystem, currentPath: string) returns (refresh: bool)
      requires WellFormed(fs.Contents())
      modifies this, fs
      ensures WellFormed(fs.Contents())
      ensures !old(PasteEnabled()) ==>
        clipboard == None && message == ClipboardEmpty && !refresh && fs.Contents() == old(fs.Contents())
      ensures old(clipboard).Some? ==>
        var c := old(clipboard).value;
        var (after, r) := Main.PasteSpec(old(fs.Contents()), currentPath, c.fileName, c.content, c.isCut, Some(c.sourcePath));
        && fs.Contents() == after
        && refresh == r.Ok?
        && clipboard == (if r.Ok? then AfterPaste(c) else Some(c))
        && message == (if r.Ok? then Pasted(c.fileName) else PasteFailed)
    {
      if clipboard.None? {
        message := ClipboardEmpty;
        return false;
      }
      var c := clipboard.value;
      Main.PasteKeepsWellFormed(fs.Contents(), currentPath, c.fileName, c.content, c.isCut, Some(c.sourcePath));
      var result := Main.PasteFile(fs, currentPath, c.fileName, c.content, c.isCut, Some(c.sourcePath));
      if result.Ok? {
        message := Pasted(c.fileName);
        if c.isCut {
          clipboard := None;
        }
        refresh := true;
      } else {
        message := PasteFailed;
        refresh := false;
      }
    }

    /** `handleDelete`, given the confirmation answer: only a confirmed
        delete of a selected path calls delete-file; success refreshes. */
    method Delete(fs: FileSystem, selectedFile: Option<string>, confirmed: bool) returns (refresh: bool)
      requires WellFormed(fs.Contents())
      modifies this, fs
      ensures WellFormed(fs.Contents())
      ensures clipboard == old(clipboard)
      ensures !Truthy(selectedFile) ==>
        message == NoFileSelected && !refresh && fs.Contents() == old(fs.Contents())
      ensures Truthy(selectedFile) && !confirmed ==>
        message == old(message) && !refresh && fs.Contents() == old(fs.Contents())
      ensures Truthy(selectedFile) && confirmed ==>
        var (after, r) := Main.DeleteSpec(old(fs.Contents()), selectedFile.value);
        && fs.Contents() == after
        && refresh == r.Ok?
        && message == (if r.Ok? then Deleted(BaseName(selectedFile.value)) else DeleteFailed)
    {
      if !Truthy(selectedFile) {
        message := NoFileSelected;
        return false;
      }
      var path := selectedFile.value;
      var fileName := BaseName(path);
      if !confirmed {
        return false;
      }
      Main.DeleteKeepsWellFormed(fs.Contents(), path);
      var result := Main.DeleteFile(fs, path);
      if result.Ok? {
        message := Deleted(fileName);
        refresh := true;
      } else {
        message := DeleteFailed;
        refresh := false;
      }
    }

    /** `handleRename`, given the prompt's answer and whether rename-file
        succeeds: an empty, cancelled or unchanged name does nothing;
        otherwise the file is renamed to the path in the same directory,
        returned as `target`. */
    method Rename(selectedFile: Option<string>, answer: Option<string>, renamed: bool)
      returns (target: Option<string>, refresh: bool)
      modifies this
      ensures clipboard == old(clipboard)
      ensures !Truthy(selectedFile) ==> target == None && !refresh && message == NoFileSelected
      ensures Truthy(selectedFile) && RenameChoice(selectedFile.value, answer).None? ==>
        target == None && !refresh && message == old(message)
      ensures Truthy(selectedFile) && RenameChoice(selectedFile.value, answer).Some? ==>
        var newName := RenameChoice(selectedFile.value, answer).value;
        && target == Some(RenameTarget(selectedFile.value, newName))
        && refresh == renamed
        && message == (if renamed then RenamedTo(newName) else RenameFailed)
    {
      target := None;
      refresh := false;
      if !Truthy(selectedFile) {
        message := NoFileSelected;
        return;
      }
      var path := selectedFile.value;
      var oldName := BaseName(path);
      if !Truthy(answer) || answer.value == oldName {
        return;
      }
      var newName := answer.value;
      var directory := DirName(path);
      target := Some(directory + "/" + newName);
      if renamed {
        message := RenamedTo(newName);
        refresh := true;
      } else {
        message := RenameFailed;
      }
    }

    /** `handleEdit`, given whether open-in-editor succeeds. */
    method Edit(selectedFile: Option<string>, launched: bool)
      modifies this
      ensures clipboard == old(clipboard)
      ensures !Truthy(selectedFile) ==> message == NoFileSelected
      ensures Truthy(selectedFile) ==> message == if launched then OpeningInEditor else OpenFailed
    {
      if !Truthy(selectedFile) {
        message := NoFileSelected;
        return;
      }
      message := if launched then OpeningInEditor else OpenFailed;
    }
  }
}
