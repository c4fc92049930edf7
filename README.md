# FilePreview core, modelled in Dafny

FilePreview is a desktop file browser built on Electron and React. A window
shows a directory listing with a preview pane and a command panel. A main
process answers the window's requests against the operating system. This
project models the decision logic of the window components and of the main
process's file handlers, and proves properties of it:

- **Directory listing controller** (`browser.dfy`, module `Browser`, for
  `src/components/FileBrowser.tsx`):
  - The hidden-entry filter and the directories-first sort of a listing.
  - Navigation by clicking an entry, the parent row, or the directory dialog.
  - The parent path, and the icon of an entry.
  - The parent row is shown only when the listing is shown and the path is
    not the root (`FileBrowser.ParentRowVisible`).
- **Preview dispatcher** (`preview.dfy`, `Preview`, for
  `src/components/FilePreview.tsx`):
  - The extension key of the selected path.
  - The 10 MiB confirmation threshold, and the reset when no file is selected.
  - The closed table that picks exactly one renderer.
- **Toolbar and clipboard** (`toolbar.dfy`, `Toolbar`, for
  `src/components/FileToolbar.tsx`):
  - The single clipboard slot that copy and cut fill, and that a successful
    paste of a cut empties.
  - The guards on delete, rename and edit, and the path a rename targets.
- **Command panel** (`commands.dfy`, `Commands`, for
  `src/components/CommandPanel.tsx`):
  - The append-only log and the exact lines each execution appends.
  - Clearing the log, and which lines are drawn as commands.
- **Code preview** (`code.dfy`, `Code`, for
  `src/components/previews/CodePreview.tsx`):
  - The extension-to-language table and the line count.
  - The language label, and the fallback to raw text.
- **PDF pager** (`pdf.dfy`, `Pdf`, for
  `src/components/previews/PdfPreview.tsx`):
  - The page counter and the zoom.
  - The zoom is held in quarter steps: 2..12 quarters is 0.5..3, and 6
    quarters is the initial 1.5. Every scale the component can reach is a
    multiple of 0.25, so this is exact.
- **Main-process handlers** (`main.dfy`, `Main`, for `electron/main.ts`):
  - copy-file, cut-file, paste-file and delete-file over an abstract
    filesystem (`fs.dfy`, `Fs`): a map from file path to bytes plus a set of
    directory paths, updated in place by a `FileSystem` object.
  - The result shaping of execute-command and select-directory, and the
    entry path that read-directory builds.

Supporting modules:

- `Common`: `Option`, `Result`, what a `catch` receives, and JavaScript
  truthiness of a nullable string (`null` and `""` are falsy).
- `Strings`: `split`, `join`, `lastIndexOf`, ASCII `toLowerCase` and `trim`.
- `Paths`: base name, parent path, `path.join` of a directory and one
  segment, and the extension key.
- `Base64`: the `'base64'` encoding of section 4 of RFC 4648. The decoder
  follows Node's lenient one: it skips characters outside the alphabet,
  accepts `-` and `_` as 62 and 63, and stops at the first `=`.
- `Types`: the records of `src/types.ts`.

**Parameters.** Every call whose answer comes from outside the window's code
is a parameter:

- the directory read and the size query;
- the dialogs (`confirm`, `prompt` and the directory picker);
- the outcome of a shell command;
- the outcome of rename-file and open-in-editor;
- the page count of a parsed PDF;
- the highlighter's output.

An `async` handler whose busy flag is visible is split in two methods: one
that issues the call, and one that applies its answer. These are
`FileBrowser.Refresh`/`FinishLoad`, `FilePreview.SetFilePath`/`FinishCheck`,
`CommandPanel.Submit`/`Complete`, `CodePreview.StartLoad`/`FinishLoad` and
`PdfPreview.StartLoad`/`FinishLoad`. The order of names that `localeCompare`
gives is a parameter `le`. The listing's ordering properties hold when `le` is
total and transitive.

Three behaviours of the code are easy to miss:

- **Typing in the path box keeps the selection.** Typing a path
  (`FileBrowser.TypePath`) changes the current path but does not clear the
  selected file. Clicking a directory, "..", or a browsed directory clears
  it.
- **A failed unlink after a cut paste is an error.** The paste answers an
  error and the toolbar says "Paste failed", although the copy has already
  been written (`Main.PasteUnlinkFailureKeepsCopy`).
- **Rename is left to the operating system.** Whether rename-file refuses or
  overwrites an existing target is decided there. The toolbar takes
  rename-file's outcome as a parameter, and the model claims neither
  behaviour.

Each navigation handler of the browser changes the current path, and the
effect that watches it then starts a reload when the path differs from the
old one and is not empty. `FileBrowser.PathEffect` models that effect, and
every navigation method reports in `started` whether it ran a load.

## Model

| member | source | states |
|---|---|---|
| Paths.BaseName | src/components/FileToolbar.tsx:35 | the last segment is exactly the text after the last '/', and contains no '/' |
| Paths.ParentPath | src/components/FileBrowser.tsx:60 | the parent is the text before the last '/', or "/" when that is empty; never empty |
| Paths.ParentOfRoot | src/components/FileBrowser.tsx:60 | the parent of "/" is "/" |
| Paths.ParentShortens | src/components/FileBrowser.tsx:60 | below the root level, the parent is the prefix up to the last '/', strictly shorter |
| Paths.JoinPathSplits | electron/main.ts:54 | an entry path built from a directory and a name ends in that name, and the text before its last '/' is the directory ("" for the root) |
| Paths.JoinPathBaseName | electron/main.ts:54 | the entry path built from any directory and a one-segment name has that name as its last segment |
| Paths.ParentFixedOnlyAtRoot | src/components/FileBrowser.tsx:60 | going up leaves the path unchanged exactly at the root "/" |
| Paths.ParentOfEntry | src/components/FileBrowser.tsx:59-63 | entering a listed directory and clicking the parent row comes back to the directory listed |
| Paths.Extension | src/components/FilePreview.tsx:39 | the key is the lower-cased text after the last '.', the whole text when there is no '.', and contains no '.' |
| Paths.ExtensionIgnoresCase | src/components/FileBrowser.tsx:83 | two names equal up to letter case have the same key |
| Strings.Trim | src/components/CommandPanel.tsx:17 | the trimmed text is an infix with whitespace only around it and no whitespace at either end |
| Strings.TrimEmptyIffBlank | src/components/CommandPanel.tsx:14 | the trimmed text is empty exactly when every character is whitespace |
| Strings.TrimTrimmed | src/components/CommandPanel.tsx:17 | text with non-whitespace ends is its own trim, so trimming is idempotent |
| Strings.SplitCount | src/components/previews/CodePreview.tsx:176 | splitting yields one more part than there are separators |
| Strings.JoinSplit | src/components/FileBrowser.tsx:60 | joining the parts of a split with the same separator gives back the text |
| Base64.DecodeEncode | electron/main.ts:160 | decoding the base64 text of any bytes gives back those bytes |
| Base64.EncodeLength | electron/main.ts:142 | the text has 4 characters per started group of 3 bytes |
| Base64.SextetCount | electron/main.ts:142 | every whole group of 3 bytes gives 4 sextets and a final 1 or 2 bytes give 2 or 3 |
| Base64.EncodeShortVectors | electron/main.ts:142 | the RFC 4648 section 10 vectors for "", "f" and "fo" |
| Base64.EncodeLongVectors | electron/main.ts:142 | the RFC 4648 section 10 vectors for "foo" and "foob" |
| Fs.StatSpec | electron/main.ts:175 | stat succeeds exactly for an existing path and reports a directory exactly for a directory |
| Fs.ReadSpec | electron/main.ts:141 | a read succeeds exactly for a file and yields its bytes |
| Fs.WriteSpec | electron/main.ts:161 | a write succeeds exactly when the path is not a directory and its parent is one; it then sets that file alone, overwriting |
| Fs.UnlinkSpec | electron/main.ts:164 | an unlink succeeds exactly for a file and removes that file alone |
| Fs.BeneathRoot | electron/main.ts:178 | every other absolute path lies inside the root, so removing the root removes it |
| Fs.RemoveTreeSpec | electron/main.ts:178 | a recursive remove succeeds for any existing path and removes it with everything beneath it, keeping the rest byte for byte |
| Main.EntryOf | electron/main.ts:54-60 | the reported entry keeps the name, kind and size, and its path has that name as last segment; for a directory path in normal form, that directory is the entry's parent |
| Main.SelectDirectory | electron/main.ts:104-112 | a path is answered exactly when the dialog was not cancelled and chose one, and it is the first chosen |
| Main.WorkingDirectory | electron/main.ts:116 | the command runs in the given directory when it is non-empty, else in the process's directory |
| Main.ExecuteCommand | electron/main.ts:114-125 | never throws: error is null exactly on completion; a failure carries its message, with absent or empty streams as "" |
| Main.ReadForClipboard | electron/main.ts:139-155 | the answer succeeds exactly for a file; its content decodes to the file's bytes; isCut is true for cut-file and absent for copy-file |
| Main.CopyFile | electron/main.ts:139-146 | copy-file answers the read of the source and changes nothing |
| Main.CutFile | electron/main.ts:148-155 | cut-file answers the read of the source and changes nothing |
| Main.CopyAndCutDifferOnlyInFlag | electron/main.ts:139-155 | copy-file and cut-file succeed together and differ only in isCut |
| Main.PasteFile | electron/main.ts:157-171 | the filesystem and answer after paste-file are those of the write-then-unlink specification |
| Main.PasteWriteFailureChangesNothing | electron/main.ts:159-161 | a paste whose write fails answers an error and changes nothing |
| Main.PasteFrame | electron/main.ts:159-165 | a paste changes no directory and no file but the destination and, for a cut, the source |
| Main.PasteResult | electron/main.ts:159-165 | after a successful paste the destination holds the decoded bytes, except a cut onto its own source, which deletes the file |
| Main.PasteUnlinkFailureKeepsCopy | electron/main.ts:163-168 | a cut paste whose unlink fails answers an error while the copy stays written |
| Main.CopyThenPaste | electron/main.ts:141-161 | copy then paste elsewhere keeps the source and gives the destination the same bytes |
| Main.CutThenPaste | electron/main.ts:150-165 | cut then paste elsewhere removes the source and gives the destination its bytes |
| Main.PasteCopyTwice | electron/main.ts:157-171 | pasting a copy record again succeeds and changes nothing more |
| Main.PasteKeepsWellFormed | electron/main.ts:157-171 | after a paste no path is both a file and a directory |
| Main.PasteSpec | electron/main.ts:157-171 | a successful paste answers success with the destination path; a failed paste leaves the filesystem as it was unless it was a cut whose unlink failed |
| Main.DeleteSpec | electron/main.ts:173-185 | delete-file succeeds exactly for an existing path, and a failed delete changes nothing |
| Main.DeleteFile | electron/main.ts:173-185 | the filesystem and answer after delete-file are those of the stat-then-remove specification |
| Main.DeleteMissing | electron/main.ts:173-185 | deleting a missing path fails and changes nothing |
| Main.DeleteDirectory | electron/main.ts:176-178 | deleting a directory removes it and every path beneath it and nothing else |
| Main.DeleteRootRemovesAbsolutePaths | electron/main.ts:176-178 | deleting the root "/" removes every other absolute file and directory path |
| Main.DeleteKeepsWellFormed | electron/main.ts:173-185 | after a delete still no path is both a file and a directory |
| Main.DeleteFileOnly | electron/main.ts:179-181 | deleting a file removes exactly that file |
| Browser.RemoveHidden | src/components/FileBrowser.tsx:34 | no kept entry starts with '.', and every other entry is kept as often as it occurs |
| Browser.EntryLeIsPreorder | src/components/FileBrowser.tsx:36-40 | the comparator is total and transitive when the name order is |
| Browser.InsertSorted | src/components/FileBrowser.tsx:36-40 | inserting into a sorted listing keeps it sorted |
| Browser.SortEntries | src/components/FileBrowser.tsx:36-40 | the sorted listing is a permutation of its input, and when the name order is a total preorder every entry may precede every later one |
| Browser.Listing | src/components/FileBrowser.tsx:32-40 | the listing shows only entries that were read, none more often than read, in the comparator's order when the comparator is a total preorder |
| Browser.ListingHidesDotEntries | src/components/FileBrowser.tsx:32-34 | with hidden entries off, no listed name starts with '.', and every other entry read is listed as often as read |
| Browser.ListingShowsAll | src/components/FileBrowser.tsx:32-33 | with hidden entries on, the listing is a permutation of all entries read |
| Browser.ListingDirectoriesFirst | src/components/FileBrowser.tsx:37-38 | every directory is listed before every file |
| Browser.ListingNamesOrdered | src/components/FileBrowser.tsx:39 | within directories and within files, names are in name order |
| Browser.KeyIcon | src/components/FileBrowser.tsx:84-127 | a key in the table gets its icon, any other key the page, and no key the folder |
| Browser.FileIcon | src/components/FileBrowser.tsx:81-83 | the folder is given exactly to directories; a file gets the icon of its extension key |
| Browser.FileIconIgnoresCase | src/components/FileBrowser.tsx:83 | the icon of a file does not depend on letter case |
| Browser.FileBrowser.Refresh | src/components/FileBrowser.tsx:131-135 | a load starts exactly when there is a current path, raising the busy flag and clearing the error; nothing else changes |
| Browser.FileBrowser.FinishLoad | src/components/FileBrowser.tsx:28-47 | a read shows the filtered, sorted listing; a failure shows no entries and the error message; the busy flag drops |
| Browser.FileBrowser.SetShowHidden | src/components/FileBrowser.tsx:19-23 | changing the hidden-entries setting reloads the current path |
| Browser.FileBrowser.PathEffect | src/components/FileBrowser.tsx:19-23 | a load starts exactly when the current path differs from the previous one and is not empty, raising the loading flag and clearing the error; otherwise nothing changes |
| Browser.FileBrowser.ItemClick | src/components/FileBrowser.tsx:50-57 | a directory becomes the current path and clears the selection; a file becomes the selection, the path unchanged; a changed, non-empty path starts a load |
| Browser.FileBrowser.ParentClick | src/components/FileBrowser.tsx:59-63 | the path becomes its parent and the selection is cleared; a changed path starts a load |
| Browser.FileBrowser.BrowseClick | src/components/FileBrowser.tsx:65-71 | a chosen directory becomes the current path and clears the selection; a cancelled dialog changes nothing; a changed, non-empty path starts a load |
| Browser.FileBrowser.TypePath | src/components/FileBrowser.tsx:149 | the typed text becomes the current path and the selection stays; a changed, non-empty text starts a load |
| Browser.FileBrowser.ParentRowVisible | src/components/FileBrowser.tsx:170-172 | the ".." row is shown exactly when the listing is shown and going up would change the path |
| Preview.ConfirmationBoundary | src/components/FilePreview.tsx:45 | confirmation is asked exactly above 10485760 bytes: not at 10 MiB, at one byte more |
| Preview.Dispatch | src/components/FilePreview.tsx:99-166 | no key (a null type) gets no renderer, and only a key of one to eight characters gets one |
| Preview.SupportedKeyIsLower | src/components/FilePreview.tsx:100-166 | every key with a renderer is a non-empty run of lower-case letters |
| Preview.LongKeyUnsupported | src/components/FilePreview.tsx:154-165 | a key longer than "markdown" has no renderer |
| Preview.DirectoryDotUnsupported | src/components/FilePreview.tsx:39 | when the last '.' of a path is in a directory name, the key contains '/' and has no renderer |
| Preview.DispatchIgnoresCase | src/components/FilePreview.tsx:39 | the renderer chosen for a path does not depend on letter case |
| Preview.ExtensionOfSuffix | src/components/FilePreview.tsx:39 | a path ending in '.' and a key with a renderer has that key |
| Preview.DispatchExamples | src/components/FilePreview.tsx:99-112 | report.md goes to Markdown and data.csv to the spreadsheet renderer |
| Preview.DispatchUpperCaseExample | src/components/FilePreview.tsx:39 | README.MD goes to Markdown |
| Preview.DispatchUnknownExample | src/components/FilePreview.tsx:154-165 | photo.unknownext is unsupported |
| Preview.FilePreview.SetFilePath | src/components/FilePreview.tsx:24-40 | a new non-empty path starts the size check with its key recorded; no path resets type, size and permission; the same path runs nothing |
| Preview.FilePreview.FinishCheck | src/components/FilePreview.tsx:42-60 | a small file, a confirmed large file or a failed query allows the preview, a declined large file shows "cancelled"; a failed query keeps the old size |
| Preview.FilePreview.View | src/components/FilePreview.tsx:63-186 | the prompt shows exactly without a path; a shown preview is headed by the path's last segment |
| Toolbar.ClipRecord | src/components/FileToolbar.tsx:34-41 | a record is made exactly for a file; it names the file's last segment and path, carries the cut flag, and its content decodes to the file's bytes |
| Toolbar.AfterPaste | src/components/FileToolbar.tsx:89-92 | a successful paste uses up a cut record and keeps a copy record unchanged |
| Toolbar.CopyRecordPastes | src/components/FileToolbar.tsx:82-92 | a copied record pasted elsewhere duplicates the bytes and stays on the clipboard |
| Toolbar.CutRecordPastes | src/components/FileToolbar.tsx:82-92 | a cut record pasted elsewhere moves the bytes and leaves the clipboard empty |
| Toolbar.RenameChoice | src/components/FileToolbar.tsx:130-133 | a rename proceeds exactly for a non-empty answer that differs from the old name |
| Toolbar.RenameTarget | src/components/FileToolbar.tsx:135-136 | for a name without '/', the target is in the same directory and ends in the new name |
| Toolbar.FileToolbar.CopyOrCut | src/components/FileToolbar.tsx:26-72 | without a selection only the message changes; a successful read replaces the clipboard with the record; a failed one keeps it |
| Toolbar.FileToolbar.Paste | src/components/FileToolbar.tsx:74-99 | an empty clipboard calls nothing; otherwise paste-file runs, and on success the cut record is used up and the listing refreshed; on failure the record stays |
| Toolbar.FileToolbar.Delete | src/components/FileToolbar.tsx:101-122 | delete-file runs only for a selected, confirmed path; success refreshes; the clipboard is untouched |
| Toolbar.FileToolbar.Rename | src/components/FileToolbar.tsx:124-148 | an empty, cancelled or unchanged name does nothing; otherwise the target is the same directory with the new name, and success refreshes |
| Toolbar.FileToolbar.Edit | src/components/FileToolbar.tsx:150-162 | without a selection only the guard message is shown |
| Commands.EchoLine | src/components/CommandPanel.tsx:18 | the echo is drawn as a command line and carries the command text unchanged after the prompt |
| Commands.ResultLines | src/components/CommandPanel.tsx:24-36 | an answer appends one or two lines, none of them empty |
| Commands.ReplyLines | src/components/CommandPanel.tsx:21-41 | a reply, answered or thrown, appends one or two lines, none of them empty |
| Commands.ErrorLineOnly | src/components/CommandPanel.tsx:24-25 | an answer with a truthy error appends exactly one error line |
| Commands.SuccessLines | src/components/CommandPanel.tsx:27-35 | otherwise stdout comes first if any, stderr last if any, one line per non-empty stream, the marker alone when both are empty |
| Commands.ReplyLineCount | src/components/CommandPanel.tsx:18-41 | every reply appends one or two lines after the echo |
| Commands.LineClassification | src/components/CommandPanel.tsx:75 | the echo is drawn as a command; error, stderr and marker lines never are; a stdout line is when it starts with '$' |
| Commands.ExecutionLines | electron/main.ts:114-125 | a command that could not run appends one error line and no stdout; a completed one appends its stdout, or the marker |
| Commands.EchoHelloExample | src/components/CommandPanel.tsx:27-29 | "hello\n" on stdout appends that one line |
| Commands.CommandPanel.ExecuteDisabled | src/components/CommandPanel.tsx:98 | when not running, the Execute button is disabled exactly when the input is all whitespace |
| Commands.CommandPanel.Submit | src/components/CommandPanel.tsx:13-19 | a blank command changes nothing; otherwise the trimmed text is echoed after the old log and sent, the input cleared, the panel busy |
| Commands.CommandPanel.Complete | src/components/CommandPanel.tsx:21-44 | the reply's lines are appended, one or two, the earlier log unchanged, and the panel is idle |
| Commands.CommandPanel.Clear | src/components/CommandPanel.tsx:54-56 | the log is emptied |
| Commands.CommandPanel.TypeCommand | src/components/CommandPanel.tsx:93 | the input takes the typed text |
| Code.GetLanguage | src/components/previews/CodePreview.tsx:15-46 | the language is never empty, and every key with a language is one the dispatcher sends to the code preview |
| Code.CodeKeysAreOwnKeys | src/components/previews/CodePreview.tsx:45 | no key that reaches the code preview names a member inherited from Object.prototype |
| Code.LanguageLabel | src/components/previews/CodePreview.tsx:183 | the label is never "none": a language is shown as itself and no language as "plain text" |
| Code.LanguageAliases | src/components/previews/CodePreview.tsx:16-45 | js/jsx, ts/tsx, sh/bash and yaml/yml name one language each; txt and h have none |
| Code.CodeKeysHaveLanguage | src/components/previews/CodePreview.tsx:15-46 | of the keys dispatched to the code preview, exactly h has no language |
| Code.UnknownKeyHasNoLanguage | src/components/previews/CodePreview.tsx:45 | a key with no renderer has no language |
| Code.LineCount | src/components/previews/CodePreview.tsx:176 | there is at least one line |
| Code.LineCountIsNewlinesPlusOne | src/components/previews/CodePreview.tsx:176 | the line count is the number of newlines plus one: 1 for empty content, one more per trailing newline |
| Code.CodePreview.StartLoad | src/components/previews/CodePreview.tsx:154-156 | a load raises the loading flag and clears the error, keeping the content and the highlighted markup |
| Code.CodePreview.FinishLoad | src/components/previews/CodePreview.tsx:154-165 | the text read replaces the content, or the error is set with the content kept; highlighting follows only for new, non-empty content |
| Code.CodePreview.ApplyHighlight | src/components/previews/CodePreview.tsx:58-152 | with no language the markup is empty; otherwise it is the highlighter's output, or empty when that fails |
| Code.CodePreview.View | src/components/previews/CodePreview.tsx:167-199 | the header counts newlines plus one and labels a missing language "plain text"; without markup the raw content is shown |
| Pdf.ZoomStep | src/components/previews/PdfPreview.tsx:94-100 | from a scale in range, one zoom click stays in range and moves by at most one quarter, in the clicked direction |
| Pdf.PageStep | src/components/previews/PdfPreview.tsx:82-92 | from a page in the document, one page click stays in the document and moves by at most one page, in the clicked direction |
| Pdf.ZoomPercent | src/components/previews/PdfPreview.tsx:128 | the percentage stays within 50..300 and starts at 150 |
| Pdf.ScaleAlwaysInRange | src/components/previews/PdfPreview.tsx:94-100 | any run of zoom clicks from 1.5 keeps the scale within [0.5, 3] |
| Pdf.ZoomRuns | src/components/previews/PdfPreview.tsx:94-100 | k clicks out from 1.5 give max(1.5 - k/4, 0.5), k clicks in give min(1.5 + k/4, 3) |
| Pdf.PageAlwaysInRange | src/components/previews/PdfPreview.tsx:82-92 | in a document with pages, any run of page clicks after loading stays within the document |
| Pdf.PdfPreview.StartLoad | src/components/previews/PdfPreview.tsx:35-37 | a load raises the loading flag and clears the error, keeping the page, the page count and the zoom |
| Pdf.PdfPreview.FinishLoad | src/components/previews/PdfPreview.tsx:45-53 | a loaded document sets the page count and returns to page 1; a failure sets the error |
| Pdf.PdfPreview.PrevDisabled | src/components/previews/PdfPreview.tsx:114 | on a page in the document, "Previous" is disabled exactly when a click would not move |
| Pdf.PdfPreview.NextDisabled | src/components/previews/PdfPreview.tsx:120 | on a page in the document, "Next" is disabled exactly when a click would not move |
| Pdf.PdfPreview.ZoomOutDisabled | src/components/previews/PdfPreview.tsx:125 | at a scale in range, zoom-out is disabled exactly when a click would not change the scale |
| Pdf.PdfPreview.ZoomInDisabled | src/components/previews/PdfPreview.tsx:129 | at a scale in range, zoom-in is disabled exactly when a click would not change the scale |
| Pdf.PdfPreview.PrevPage | src/components/previews/PdfPreview.tsx:82-86 | one page back unless on page 1; keeps the page in range; does nothing exactly when its button is disabled |
| Pdf.PdfPreview.NextPage | src/components/previews/PdfPreview.tsx:88-92 | one page on unless on the last; keeps the page in range; does nothing exactly when its button is disabled |
| Pdf.PdfPreview.ZoomIn | src/components/previews/PdfPreview.tsx:94-96 | one quarter up, capped at 3; keeps the scale in range; does nothing exactly when its button is disabled |
| Pdf.PdfPreview.ZoomOut | src/components/previews/PdfPreview.tsx:98-100 | one quarter down, floored at 0.5; keeps the scale in range; does nothing exactly when its button is disabled |

## Left out

- Renderer internals are not modelled. This covers Markdown, Word, spreadsheet, image and text previews, PDF canvas drawing and Prism highlighting. They wrap libraries whose code is not visible; the highlighter's output is a parameter.
- `formatSize` is not modelled: it uses floating-point logarithms and rounding.
- Percentages are modelled as exact integers. The file-size text in "Preview cancelled" is not.
- electron/preload.ts, src/App.tsx and vite.config.ts are wiring and build configuration, and are not part of this model.
- The main process's other handlers are not modelled: read-file, read-file-buffer, get-file-info, open-in-editor, show-item-in-folder, open-external and get-home-directory. Their answers enter the model as parameters.
- rename-file's effect on the filesystem is not modelled. Whether it overwrites or refuses is decided by the operating system.
- The directory read's order, sizes and timestamps are not modelled; the listing read is a parameter.
- Permissions, links, devices and error kinds other than a missing path, a directory where a file is expected, and a missing parent are not modelled.
- The texts of caught errors (`${error}`) are not modelled. The toolbar's status message is a datatype without them.
- The three-second clearing of the status message, the cursor style and the empty-log hint are not modelled.
- Out-of-order async answers are not modelled: each answer is applied in the order of its own two-step handler.
- Paths.JoinPath: covers `path.join` only for a directory in normal form and one segment; `path.join`'s normalisation of `.`, `..` and repeated '/' is not modelled.
- Strings.ToLower: covers ASCII letters only; other Unicode case mappings are not modelled.
- Strings and their positions are sequences of characters; UTF-16 surrogate pairs are not treated specially.
- Base64.Decode: decodes like Node only for input it would accept. Node's handling of a lone trailing character or of data after padding is approximated by skipping and stopping.
- Code.GetLanguage: answers "none" for every key outside the table. The source's lookup on an object literal would find an inherited member for a key such as `constructor` or `__proto__` (the names in `Code.PrototypeMembers`). Only keys the dispatcher sends to the code preview reach it, and none of them is such a name (`Code.CodeKeysAreOwnKeys`).
- Code.UnknownKeyHasNoLanguage: holds for the model's table lookup; for the inherited names above, the source would yield a non-string value instead.
- Browser.SortEntries: does not state that entries the comparator ties keep their input order, although the engine's sort is stable.
- Main.CutThenPaste: requires a non-empty source path. An empty `sourcePath` is falsy, so the handler would skip the unlink.
- `localeCompare` is a parameter. The ordering properties are proved for any total preorder; the locale's collation itself is not modelled.
