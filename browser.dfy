/** The directory listing controller (src/components/FileBrowser.tsx): the
    hidden-entry filter and the directories-first sort of a listing, the
    click handlers that navigate or select, the parent row, and the icon of
    an entry. `localeCompare` is an abstract total preorder `le` on names. */
module Browser {
  import opened Common
  import opened Types
  import opened Strings
  import opened Paths

  /** What `localeCompare` is assumed to be: every two names comparable, and
      the order transitive. */
  ghost predicate TotalPreorder(le: (string, string) -> bool)
  {
    && (forall a, b :: le(a, b) || le(b, a))
    && (forall a, b, c :: le(a, b) && le(b, c) ==> le(a, c))
  }

  // ---------------------------------------------------------------------
  // Filtering

  /** `item.name.startsWith('.')` */
  predicate IsHidden(item: FileItem)
  {
    StartsWith(item.name, ".")
  }

  /** `items.filter(item => !item.name.startsWith('.'))`: the entries whose
      name does not start with '.', each as often as in the input. */
  function RemoveHidden(items: seq<FileItem>): (r: seq<FileItem>)
    ensures forall i :: 0 <= i < |r| ==> !IsHidden(r[i])
    ensures forall x :: multiset(r)[x] == if IsHidden(x) then 0 else multiset(items)[x]
  {
    if |items| == 0 then []
    else
      var rest := RemoveHidden(items[1..]);
      assert multiset(items) == multiset{items[0]} + multiset(items[1..]) by {
        assert items == [items[0]] + items[1..];
      }
      if IsHidden(items[0]) then rest
      else
        var r := [items[0]] + rest;
        assert multiset(r) == multiset{items[0]} + multiset(rest);
        assert forall i :: 0 < i < |r| ==> r[i] == rest[i - 1];
        r
  }

  /** The entries shown for the `showHidden` setting. */
  function VisibleEntries(items: seq<FileItem>, showHidden: bool): seq<FileItem>
  {
    if showHidden then items else RemoveHidden(items)
  }

  // ---------------------------------------------------------------------
  // Sorting

  /** The comparator of the sort, as "may come first": a directory before a
      file, and within a kind by name. */
  predicate EntryLe(le: (string, string) -> bool, a: FileItem, b: FileItem)
  {
    if a.isDirectory != b.isDirectory then a.isDirectory else le(a.name, b.name)
  }

  predicate SortedEntries(le: (string, string) -> bool, s: seq<FileItem>)
  {
    forall i, j :: 0 <= i < j < |s| ==> EntryLe(le, s[i], s[j])
  }

  /** The comparator is total and transitive when the name order is. */
  lemma EntryLeIsPreorder(le: (string, string) -> bool)
    requires TotalPreorder(le)
    ensures forall a, b :: EntryLe(le, a, b) || EntryLe(le, b, a)
    ensures forall a, b, c :: EntryLe(le, a, b) && EntryLe(le, b, c) ==> EntryLe(le, a, c)
  {
  }

  /** Places `x` before the first entry it may precede. */
  function Insert(le: (string, string) -> bool, x: FileItem, s: seq<FileItem>): (r: seq<FileItem>)
    ensures multiset(r) == multiset(s) + multiset{x}
  {
    if |s| == 0 then [x]
    else if EntryLe(le, x, s[0]) then [x] + s
    else
      assert s == [s[0]] + s[1..];
      [s[0]] + Insert(le, x, s[1..])
  }

  /** A sorted listing stays sorted without its first entry. */
  lemma SortedTail(le: (string, string) -> bool, s: seq<FileItem>)
    requires |s| >= 1 && SortedEntries(le, s)
    ensures SortedEntries(le, s[1..])
  {
    forall i, j | 0 <= i < j < |s[1..]|
      ensures EntryLe(le, s[1..][i], s[1..][j])
    {
      assert s[1..][i] == s[i + 1] && s[1..][j] == s[j + 1];
    }
  }

  /** An entry that may precede every entry of a sorted listing can lead
      it. */
  lemma SortedCons(le: (string, string) -> bool, x: FileItem, s: seq<FileItem>)
    requires SortedEntries(le, s)
    requires forall k :: 0 <= k < |s| ==> EntryLe(le, x, s[k])
    ensures SortedEntries(le, [x] + s)
  {
    var r := [x] + s;
    forall i, j | 0 <= i < j < |r|
      ensures EntryLe(le, r[i], r[j])
    {
      assert r[j] == s[j - 1];
      if i > 0 {
        assert r[i] == s[i - 1];
      }
    }
  }

  /** Inserting into a sorted listing keeps it sorted. */
  lemma {:induction false} InsertSorted(le: (string, string) -> bool, x: FileItem, s: seq<FileItem>)
    requires TotalPreorder(le)
    requires SortedEntries(le, s)
    ensures SortedEntries(le, Insert(le, x, s))
  {
    EntryLeIsPreorder(le);
    if |s| == 0 {
    } else if EntryLe(le, x, s[0]) {
      forall k | 0 <= k < |s|
        ensures EntryLe(le, x, s[k])
      {
        if k > 0 {
          assert EntryLe(le, s[0], s[k]);
        }
      }
      SortedCons(le, x, s);
    } else {
      var rest := Insert(le, x, s[1..]);
      SortedTail(le, s);
      InsertSorted(le, x, s[1..]);
      assert EntryLe(le, s[0], x);
      forall k | 0 <= k < |rest|
        ensures EntryLe(le, s[0], rest[k])
      {
        assert rest[k] in multiset(rest);
        if rest[k] != x {
          assert rest[k] in multiset(s[1..]);
          var m :| 0 <= m < |s[1..]| && s[1..][m] == rest[k];
          assert s[1..][m] == s[m + 1];
        }
      }
      SortedCons(le, s[0], rest);
    }
  }

  /** Either way round, inserting keeps a sorted listing sorted when the
      name order is a total preorder. */
  lemma InsertKeepsSorted(le: (string, string) -> bool, x: FileItem, s: seq<FileItem>)
    ensures TotalPreorder(le) && SortedEntries(le, s) ==> SortedEntries(le, Insert(le, x, s))
  {
    if TotalPreorder(le) && SortedEntries(le, s) {
      InsertSorted(le, x, s);
    }
  }

  /** `filtered.sort(comparator)`: a reordering of the entries, nothing
      added or dropped, in which every entry may precede every later one
      whenever the name order is a total preorder. The engine's sort
      algorithm is not visible; this is the result it must give up to the
      order of entries the comparator ties. */
  function SortEntries(le: (string, string) -> bool, s: seq<FileItem>): (r: seq<FileItem>)
    ensures TotalPreorder(le) ==> SortedEntries(le, r)
    ensures multiset(r) == multiset(s)
  {
    if |s| == 0 then []
    else
      assert s == [s[0]] + s[1..];
      var sorted := SortEntries(le, s[1..]);
      InsertKeepsSorted(le, s[0], sorted);
      Insert(le, s[0], sorted)
  }

  /** The `files` a successful load shows: entries of the directory, none
      more often than it was read, in the comparator's order. */
  function Listing(le: (string, string) -> bool, items: seq<FileItem>, showHidden: bool): (listing: seq<FileItem>)
    ensures multiset(listing) <= multiset(items)
    ensures TotalPreorder(le) ==> SortedEntries(le, listing)
  {
    var visible := VisibleEntries(items, showHidden);
    assert forall x :: multiset(visible)[x] <= multiset(items)[x];
    SortEntries(le, visible)
  }

  /** With hidden entries off, no listed name starts with '.', and every
      other entry of the directory is listed as often as it was read. */
  lemma ListingHidesDotEntries(le: (string, string) -> bool, items: seq<FileItem>)
    requires TotalPreorder(le)
    ensures forall i :: 0 <= i < |Listing(le, items, false)| ==> !IsHidden(Listing(le, items, false)[i])
    ensures forall x :: !IsHidden(x) ==> multiset(Listing(le, items, false))[x] == multiset(items)[x]
  {
    var r := Listing(le, items, false);
    forall i | 0 <= i < |r|
      ensures !IsHidden(r[i])
    {
      assert r[i] in multiset(r);
    }
  }

  /** With hidden entries on, the listing is a reordering of everything the
      directory read returned. */
  lemma ListingShowsAll(le: (string, string) -> bool, items: seq<FileItem>)
    requires TotalPreorder(le)
    ensures multiset(Listing(le, items, true)) == multiset(items)
  {
  }

  /** Every directory is listed before every file. */
  lemma ListingDirectoriesFirst(le: (string, string) -> bool, items: seq<FileItem>, showHidden: bool, i: int, j: int)
    requires TotalPreorder(le)
    requires 0 <= i < j < |Listing(le, items, showHidden)|
    requires Listing(le, items, showHidden)[j].isDirectory
    ensures Listing(le, items, showHidden)[i].isDirectory
  {
  }

  /** Within directories and within files, names come in `le` order. */
  lemma ListingNamesOrdered(le: (string, string) -> bool, items: seq<FileItem>, showHidden: bool, i: int, j: int)
    requires TotalPreorder(le)
    requires 0 <= i < j < |Listing(le, items, showHidden)|
    requires Listing(le, items, showHidden)[i].isDirectory == Listing(le, items, showHidden)[j].isDirectory
    ensures le(Listing(le, items, showHidden)[i].name, Listing(le, items, showHidden)[j].name)
  {
  }

  // ---------------------------------------------------------------------
  // Icons

  datatype Icon =
    | Folder | Memo | Page | RedBook | BlueBook | GreenBook | Picture
    | YellowSquare | BlueDiamond | Snake | Coffee | Gear | BlueCircle | Hamster
    | Crab | Gem | Elephant | Eagle | PurpleCircle | ClipboardIcon | Globe
    | Palette | FileCabinet | Laptop

  /** The `switch` of `getFileIcon`, by extension key. */
  const IconTable: map<string, Icon> := map[
    "md" := Memo, "txt" := Page, "log" := Page, "pdf" := RedBook,
    "docx" := BlueBook, "doc" := BlueBook,
    "xlsx" := GreenBook, "xls" := GreenBook, "csv" := GreenBook,
    "png" := Picture, "jpg" := Picture, "jpeg" := Picture, "gif" := Picture,
    "bmp" := Picture, "webp" := Picture, "svg" := Picture,
    "js" := YellowSquare, "jsx" := YellowSquare, "ts" := BlueDiamond, "tsx" := BlueDiamond,
    "py" := Snake, "java" := Coffee, "c" := Gear, "cpp" := Gear, "h" := Gear,
    "cs" := BlueCircle, "go" := Hamster, "rs" := Crab, "rb" := Gem, "php" := Elephant,
    "swift" := Eagle, "kt" := PurpleCircle, "json" := ClipboardIcon,
    "html" := Globe, "xml" := Globe, "css" := Palette, "scss" := Palette,
    "yaml" := Gear, "yml" := Gear, "sql" := FileCabinet, "sh" := Laptop, "bash" := Laptop]

  /** The icon of a file's extension key: its entry in the table, the page
      for an unknown key, never the folder. */
  function KeyIcon(key: string): (icon: Icon)
    ensures icon != Folder
    ensures key !in IconTable ==> icon == Page
    ensures key in IconTable ==> icon == IconTable[key]
  {
    assert Folder !in IconTable.Values;
    if key in IconTable then IconTable[key] else Page
  }

  /** `getFileIcon`: the folder for any directory, otherwise the icon of the
      name's extension key. */
  function FileIcon(item: FileItem): (icon: Icon)
    ensures icon == Folder <==> item.isDirectory
    ensures !item.isDirectory ==> icon == KeyIcon(Extension(item.name))
  {
    if item.isDirectory then Folder else KeyIcon(Extension(item.name))
  }

  /** The icon of a file does not depend on the case of its name. */
  lemma {:induction false} FileIconIgnoresCase(a: FileItem, b: FileItem)
    requires a.isDirectory == b.isDirectory
    requires ToLower(a.name) == ToLower(b.name)
    ensures FileIcon(a) == FileIcon(b)
  {
    ExtensionIgnoresCase(a.name, b.name);
  }

  // ---------------------------------------------------------------------
  // The component

  /** The browser's state: `currentPath` and `selectedFile` belong to the
      application and are written through `onPathChange` and `onFileSelect`;
      the rest is the component's own. */
  class FileBrowser {
    var currentPath: string
    var selectedFile: Option<string>
    var files: seq<FileItem>
    var loading: bool
    var error: Option<string>
    var showHidden: bool

    constructor ()
      ensures currentPath == "" && selectedFile == None
      ensures files == [] && !loading && error == None && !showHidden
    {
      currentPath := "";
      selectedFile := None;
      files := [];
      loading := false;
      error := None;
      showHidden := false;
    }

    /** `handleRefresh`, and the body of the effect that watches the current
        path and the hidden-entries setting: when there is a current path, a
        directory read starts, with the loading flag up and the error
        cleared. */
    method Refresh() returns (started: bool)
      modifies this
      ensures started == (old(currentPath) != "")
      ensures started ==> loading && error == None
      ensures !started ==> loading == old(loading) && error == old(error)
      ensures currentPath == old(currentPath) && selectedFile == old(selectedFile)
      ensures files == old(files) && showHidden == old(showHidden)
    {
      started := currentPath != "";
      if started {
        loading := true;
        error := None;
      }
    }

    /** The rest of `loadDirectory` once the read settles: the filtered and
        sorted listing, or no entries and the error message. */
    method FinishLoad(le: (string, string) -> bool, answer: Result<seq<FileItem>, Thrown>)
      modifies this
      ensures !loading
      ensures answer.Ok? ==> files == Listing(le, answer.value, showHidden) && error == old(error)
      ensures answer.Err? ==> files == [] && error == Some(MessageOr(answer.error, "Failed to load directory"))
      ensures currentPath == old(currentPath) && selectedFile == old(selectedFile)
      ensures showHidden == old(showHidden)
    {
      match answer {
        case Ok(items) =>
          var listing := Listing(le, items, showHidden);
          files := listing;
          loading := false;
        case Err(thrown) =>
          error := Some(MessageOr(thrown, "Failed to load directory"));
          files := [];
          loading := false;
      }
    }

    /** The effect as it follows a navigation handler: it runs only when the
        current path differs from `previous`, and then reloads when that
        path is not empty. */
    method PathEffect(previous: string) returns (started: bool)
      modifies this
      ensures started == (currentPath != previous && currentPath != "")
      ensures started ==> loading && error == None
      ensures !started ==> loading == old(loading) && error == old(error)
      ensures currentPath == old(currentPath) && selectedFile == old(selectedFile)
      ensures files == old(files) && showHidden == old(showHidden)
    {
      started := false;
      if currentPath != previous {
        started := Refresh();
      }
    }

    /** The hidden-entries checkbox: a change of setting reloads. */
    method SetShowHidden(checked: bool) returns (started: bool)
      modifies this
      ensures showHidden == checked
      ensures started == (checked != old(showHidden) && old(currentPath) != "")
      ensures started ==> loading && error == None
      ensures !started ==> loading == old(loading) && error == old(error)
      ensures currentPath == old(currentPath) && selectedFile == old(selectedFile) && files == old(files)
    {
      started := false;
      if checked != showHidden {
        showHidden := checked;
        started := Refresh();
      }
    }

    /** `handleItemClick`: a directory becomes the current path and clears
        the selection; a file becomes the selection and the path stays. A
        new path then reloads through the effect. */
    method ItemClick(item: FileItem) returns (started: bool)
      modifies this
      ensures item.isDirectory ==> currentPath == item.path && selectedFile == None
      ensures !item.isDirectory ==> currentPath == old(currentPath) && selectedFile == Some(item.path)
      ensures started == (currentPath != old(currentPath) && currentPath != "")
      ensures started ==> loading && error == None
      ensures !started ==> loading == old(loading) && error == old(error)
      ensures files == old(files) && showHidden == old(showHidden)
    {
      var previous := currentPath;
      if item.isDirectory {
        currentPath := item.path;
        selectedFile := None;
      } else {
        selectedFile := Some(item.path);
      }
      started := PathEffect(previous);
    }

    /** `handleParentClick`: the path loses its last segment (the root
        stays the root) and the selection is cleared; a new path reloads. */
    method ParentClick() returns (started: bool)
      modifies this
      ensures currentPath == ParentPath(old(currentPath))
      ensures currentPath == if DirName(old(currentPath)) == "" then "/" else DirName(old(currentPath))
      ensures selectedFile == None
      ensures started == (currentPath != old(currentPath) && currentPath != "")
      ensures started ==> loading && error == None
      ensures !started ==> loading == old(loading) && error == old(error)
      ensures files == old(files) && showHidden == old(showHidden)
    {
      var previous := currentPath;
      currentPath := ParentPath(currentPath);
      selectedFile := None;
      started := PathEffect(previous);
    }

    /** `handleBrowseClick`, given what the directory dialog answered: a
        chosen path becomes current and clears the selection; a cancelled
        (or empty) answer changes nothing. A new path reloads. */
    method BrowseClick(chosen: Option<string>) returns (started: bool)
      modifies this
      ensures Truthy(chosen) ==> currentPath == chosen.value && selectedFile == None
      ensures !Truthy(chosen) ==> currentPath == old(currentPath) && selectedFile == old(selectedFile)
      ensures started == (currentPath != old(currentPath) && currentPath != "")
      ensures started ==> loading && error == None
      ensures !started ==> loading == old(loading) && error == old(error)
      ensures files == old(files) && showHidden == old(showHidden)
    {
      var previous := currentPath;
      if Truthy(chosen) {
        currentPath := chosen.value;
        selectedFile := None;
      }
      started := PathEffect(previous);
    }

    /** Typing in the path box sets the path as typed; it does not clear the
        selection. A changed, non-empty text reloads. */
    method TypePath(text: string) returns (started: bool)
      modifies this
      ensures currentPath == text && selectedFile == old(selectedFile)
      ensures started == (currentPath != old(currentPath) && currentPath != "")
      ensures started ==> loading && error == None
      ensures !started ==> loading == old(loading) && error == old(error)
      ensures files == old(files) && showHidden == old(showHidden)
    {
      var previous := currentPath;
      currentPath := text;
      started := PathEffect(previous);
    }

    /** The ".." row is shown when the listing is shown (not loading, no
        error) and the path is not the root, that is, exactly when going up
        would change the path. */
    predicate ParentRowVisible()
      reads this
      ensures ParentRowVisible() <==> ListingVisible() && ParentPath(currentPath) != currentPath
    {
      ParentFixedOnlyAtRoot(currentPath);
      !loading && !Truthy(error) && currentPath != "/"
    }

    /** The entries are shown when neither loading nor in error. */
    predicate ListingVisible()
      reads this
    {
      !loading && !Truthy(error)
    }
  }
}
