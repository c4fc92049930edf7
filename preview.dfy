/** The preview dispatcher (src/components/FilePreview.tsx): when the
    selected path changes it takes the path's extension key and asks for the
    file's size; a file over 10 MiB is shown only if the user confirms; then
    exactly one renderer is chosen by the extension key. */
module Preview {
  import opened Common
  import opened Strings
  import opened Paths

  /** `LARGE_FILE_THRESHOLD`: 10 MiB. */
  const LargeFileThreshold: nat := 10 * 1024 * 1024

  /** A size strictly over the threshold asks for confirmation. */
  predicate NeedsConfirmation(size: nat)
  {
    size > LargeFileThreshold
  }

  /** A file of exactly 10 MiB loads without a prompt; one byte more asks. */
  lemma ConfirmationBoundary()
    ensures !NeedsConfirmation(10485760)
    ensures NeedsConfirmation(10485761)
    ensures forall size: nat :: NeedsConfirmation(size) <==> size >= 10485761
  {
  }

  /** The renderers of `renderPreview`. */
  datatype Renderer = Markdown | Word | Spreadsheet | Pdf | Image | Code | Text | Unsupported

  /** `switch (fileType)` of `renderPreview`; a null key (no check has run)
      falls to the default branch. Only a present key of one to eight
      characters has a renderer. */
  function Dispatch(key: Option<string>): (r: Renderer)
    ensures key.None? ==> r == Unsupported
    ensures r != Unsupported ==> key.Some? && 1 <= |key.value| <= 8
  {
    match key
    case None => Unsupported
    case Some(k) =>
      match k
      case "md" | "markdown" => Markdown
      case "docx" | "doc" => Word
      case "xlsx" | "xls" | "csv" => Spreadsheet
      case "pdf" => Pdf
      case "png" | "jpg" | "jpeg" | "gif" | "bmp" | "webp" | "svg" => Image
      case "js" | "ts" | "jsx" | "tsx" | "json" | "html" | "css" | "scss" | "xml"
        | "yaml" | "yml" | "py" | "java" | "c" | "cpp" | "cs" | "go" | "rs" | "rb"
        | "php" | "swift" | "kt" | "h" | "sh" | "bash" | "sql" => Code
      case "txt" | "log" | "conf" | "ini" | "cfg" => Text
      case _ => Unsupported
  }

  predicate IsLowerLetter(c: char)
  {
    'a' <= c <= 'z'
  }

  /** Every key with a renderer is a non-empty run of lower-case letters. */
  lemma SupportedKeyIsLower(k: string)
    requires Dispatch(Some(k)) != Unsupported
    ensures k != ""
    ensures forall i :: 0 <= i < |k| ==> IsLowerLetter(k[i])
  {
  }

  /** The key `checkFileSize` records is `Extension(path)` (the `|| ''`
      changes nothing, as the extension is already a string). It is taken
      from the whole path, so a path whose only '.' is in a directory name
      yields a key containing '/', and such a key has no renderer. */
  lemma DirectoryDotUnsupported(path: string)
    requires '/' in path[LastIndexOf(path, '.') + 1..]
    ensures Dispatch(Some(Extension(path))) == Unsupported
  {
    var key := Extension(path);
    var tail := path[LastIndexOf(path, '.') + 1..];
    var j :| 0 <= j < |tail| && tail[j] == '/';
    assert key[j] == '/';
    if Dispatch(Some(key)) != Unsupported {
      SupportedKeyIsLower(key);
      assert false;
    }
  }

  /** The renderer chosen for a path does not depend on letter case. */
  lemma DispatchIgnoresCase(a: string, b: string)
    requires ToLower(a) == ToLower(b)
    ensures Dispatch(Some(Extension(a))) == Dispatch(Some(Extension(b)))
  {
    ExtensionIgnoresCase(a, b);
  }

  /** A path ending in `.<key>` for a key with a renderer has that key. */
  lemma {:induction false} ExtensionOfSuffix(stem: string, key: string)
    requires Dispatch(Some(key)) != Unsupported
    ensures Extension(stem + "." + key) == key
  {
    SupportedKeyIsLower(key);
    var p := stem + "." + key;
    assert p[|stem|] == '.';
    assert forall j :: |stem| < j < |p| ==> p[j] == key[j - |stem| - 1];
    assert LastIndexOf(p, '.') == |stem|;
    assert p[|stem| + 1..] == key;
  }

  /** A Markdown report and a CSV sheet go to their renderers. */
  lemma DispatchExamples()
    ensures Dispatch(Some(Extension("report.md"))) == Markdown
    ensures Dispatch(Some(Extension("data.csv"))) == Spreadsheet
  {
    ExtensionOfSuffix("report", "md");
    assert "report" + "." + "md" == "report.md";
    ExtensionOfSuffix("data", "csv");
    assert "data" + "." + "csv" == "data.csv";
  }

  /** The extension is the lower-cased text after a '.' that has no '.'
      after it. */
  lemma ExtensionAfterLastDot(p: string, k: nat)
    requires k < |p| && p[k] == '.'
    requires forall j :: k < j < |p| ==> p[j] != '.'
    ensures Extension(p) == ToLower(p[k + 1..])
  {
    assert LastIndexOf(p, '.') == k;
  }

  /** An upper-case Markdown name goes to the Markdown renderer. */
  lemma DispatchUpperCaseExample()
    ensures Dispatch(Some(Extension("README.MD"))) == Markdown
  {
    var p := "README.MD";
    ExtensionAfterLastDot(p, 6);
    assert p[7..] == "MD";
    assert ToLower("MD") == "md";
  }

  /** No key with a renderer is longer than "markdown". */
  lemma LongKeyUnsupported(k: string)
    requires |k| > 8
    ensures Dispatch(Some(k)) == Unsupported
  {
  }

  /** An unknown extension is unsupported. */
  lemma DispatchUnknownExample()
    ensures Dispatch(Some(Extension("photo.unknownext"))) == Unsupported
  {
    var p := "photo.unknownext";
    assert forall j :: 5 < j < |p| ==> p[j] != '.';
    ExtensionAfterLastDot(p, 5);
    LongKeyUnsupported(Extension(p));
  }

  /** What the component shows. */
  datatype Screen =
    | SelectPrompt                               // no file selected
    | CheckingSize                               // the size query is in flight
    | Cancelled(fileSize: nat)                   // a large file the user declined
    | Showing(fileName: string, renderer: Renderer)

  class FilePreview {
    var filePath: Option<string>
    var fileType: Option<string>
    var fileSize: nat
    var canPreview: bool
    var loading: bool

    constructor ()
      ensures filePath == None && fileType == None && fileSize == 0
      ensures canPreview && !loading
    {
      filePath := None;
      fileType := None;
      fileSize := 0;
      canPreview := true;
      loading := false;
    }

    /** The effect on a new `filePath`: a non-empty path starts the size
        check with its extension key recorded; no path resets the preview
        state. Passing the path already held runs nothing. */
    method SetFilePath(p: Option<string>) returns (started: bool)
      modifies this
      ensures filePath == p
      ensures started == (p != old(filePath) && Truthy(p))
      ensures started ==> loading && fileType == Some(Extension(p.value))
      ensures started ==> fileSize == old(fileSize) && canPreview == old(canPreview)
      ensures p != old(filePath) && !Truthy(p) ==>
        fileType == None && fileSize == 0 && canPreview && loading == old(loading)
      ensures p == old(filePath) ==>
        fileType == old(fileType) && fileSize == old(fileSize) &&
        canPreview == old(canPreview) && loading == old(loading)
    {
      started := false;
      if p != filePath {
        filePath := p;
        if Truthy(p) {
          loading := true;
          fileType := Some(Extension(p.value));
          started := true;
        } else {
          fileType := None;
          fileSize := 0;
          canPreview := true;
        }
      }
    }

    /** The rest of `checkFileSize`, given the size query's answer and what
        the confirmation dialog would answer: a small file, a confirmed
        large file, or a failed query allows the preview; a declined large
        file does not. A failed query leaves the old size. */
    method FinishCheck(info: Result<nat, Thrown>, proceed: bool)
      modifies this
      ensures !loading
      ensures info.Ok? ==> fileSize == info.value
      ensures info.Ok? ==> canPreview == (!NeedsConfirmation(info.value) || proceed)
      ensures info.Err? ==> fileSize == old(fileSize) && canPreview
      ensures filePath == old(filePath) && fileType == old(fileType)
      ensures Truthy(filePath) ==>
        View() == if info.Ok? && NeedsConfirmation(info.value) && !proceed then Cancelled(info.value)
                  else Showing(BaseName(filePath.value), Dispatch(fileType))
    {
      match info {
        case Ok(size) =>
          fileSize := size;
          if NeedsConfirmation(size) {
            canPreview := proceed;
          } else {
            canPreview := true;
          }
        case Err(_) =>
          canPreview := true;
      }
      loading := false;
    }

    /** The rendered screen: the prompt without a path, the spinner while
        checking, the cancelled notice, or the file name over the chosen
        renderer. */
    function View(): (s: Screen)
      reads this
      ensures s == SelectPrompt <==> !Truthy(filePath)
      ensures s.Showing? ==> s.fileName == BaseName(filePath.value) && '/' !in s.fileName
    {
      if !Truthy(filePath) then SelectPrompt
      else if loading then CheckingSize
      else if !canPreview then Cancelled(fileSize)
      else Showing(BaseName(filePath.value), Dispatch(fileType))
    }
  }
}
