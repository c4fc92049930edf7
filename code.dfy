/** The source-code preview (src/components/previews/CodePreview.tsx): the
    extension-to-language table, the line count and language label of the
    header, and the choice between highlighted markup and the raw text. The
    highlighter itself is not modelled: its output is a parameter. */
module Code {
  import opened Common
  import opened Strings
  import Preview

  /** `languageMap[ext] || 'none'`: every key of the table is one the
      dispatcher sends to this preview. */
  function GetLanguage(ext: string): (language: string)
    ensures language != ""
    ensures language != "none" ==> Preview.Dispatch(Some(ext)) == Preview.Code
  {
    match ext
    case "js" | "jsx" => "javascript"
    case "ts" | "tsx" => "typescript"
    case "py" => "python"
    case "java" => "java"
    case "c" => "c"
    case "cpp" => "cpp"
    case "cs" => "csharp"
    case "go" => "go"
    case "rs" => "rust"
    case "rb" => "ruby"
    case "php" => "php"
    case "swift" => "swift"
    case "kt" => "kotlin"
    case "sh" | "bash" => "bash"
    case "json" => "json"
    case "yaml" | "yml" => "yaml"
    case "sql" => "sql"
    case "css" => "css"
    case "scss" => "scss"
    case "html" => "html"
    case "xml" => "xml"
    case "txt" => "none"
    case _ => "none"
  }

  /** The aliases of the table name one language each. */
  lemma LanguageAliases()
    ensures GetLanguage("js") == GetLanguage("jsx") == "javascript"
    ensures GetLanguage("ts") == GetLanguage("tsx") == "typescript"
    ensures GetLanguage("sh") == GetLanguage("bash") == "bash"
    ensures GetLanguage("yaml") == GetLanguage("yml") == "yaml"
    ensures GetLanguage("txt") == GetLanguage("h") == "none"
  {
  }

  /** Of the extensions the dispatcher sends to this preview, all but `h`
      have a language; `h` is shown as plain text. */
  lemma CodeKeysHaveLanguage(ext: string)
    requires Preview.Dispatch(Some(ext)) == Preview.Code
    ensures GetLanguage(ext) != "none" <==> ext != "h"
  {
  }

  /** The names an object literal inherits from `Object.prototype`; looking
      one of them up in the table finds the inherited member. */
  const PrototypeMembers: set<string> := {
    "constructor", "__proto__", "hasOwnProperty", "isPrototypeOf",
    "propertyIsEnumerable", "toLocaleString", "toString", "valueOf",
    "__defineGetter__", "__defineSetter__", "__lookupGetter__", "__lookupSetter__"
  }

  /** No key the dispatcher sends to this preview names an inherited member,
      so the lookup only ever finds the table's own entries. */
  lemma CodeKeysAreOwnKeys(ext: string)
    requires Preview.Dispatch(Some(ext)) == Preview.Code
    ensures ext !in PrototypeMembers
  {
  }

  /** A key outside the table, such as any key with no renderer, has no
      language. */
  lemma UnknownKeyHasNoLanguage(ext: string)
    requires Preview.Dispatch(Some(ext)) == Preview.Unsupported
    ensures GetLanguage(ext) == "none"
  {
  }

  /** `content.split('\n').length` */
  function LineCount(content: string): (n: nat)
    ensures n >= 1
  {
    |Split(content, '\n')|
  }

  /** The line count is the number of newline characters plus one, so empty
      content counts as one line and a trailing newline adds a line. */
  lemma LineCountIsNewlinesPlusOne(content: string)
    ensures LineCount(content) == multiset(content)['\n'] + 1
    ensures LineCount("") == 1
    ensures LineCount(content + "\n") == LineCount(content) + 1
  {
    SplitCount(content, '\n');
    SplitCount("", '\n');
    SplitCount(content + "\n", '\n');
    assert multiset(content + "\n") == multiset(content) + multiset{'\n'};
  }

  /** `language !== 'none' ? language : 'plain text'` */
  function LanguageLabel(language: string): (shown: string)
    ensures shown != "none"
    ensures language != "none" ==> shown == language
  {
    if language != "none" then language else "plain text"
  }

  /** The code area: highlighted markup when there is some, else the raw
      text. */
  datatype Body = Highlighted(markup: string) | Raw(text: string)

  datatype Screen =
    | Loading
    | Failed(message: string)
    | Shown(fileType: string, languageLabel: string, lineCount: nat, body: Body)

  class CodePreview {
    const filePath: string
    const fileType: string
    var content: string
    var loading: bool
    var error: Option<string>
    var highlightedCode: string

    constructor (path: string, ext: string)
      ensures filePath == path && fileType == ext
      ensures content == "" && loading && error == None && highlightedCode == ""
    {
      filePath := path;
      fileType := ext;
      content := "";
      loading := true;
      error := None;
      highlightedCode := "";
    }

    /** The start of `loadFile`. */
    method StartLoad()
      modifies this
      ensures loading && error == None
      ensures content == old(content) && highlightedCode == old(highlightedCode)
    {
      loading := true;
      error := None;
    }

    /** The rest of `loadFile`: the text read, or the error message with the
        old content kept. Answers whether the highlighting effect runs next:
        only for new, non-empty content. */
    method FinishLoad(answer: Result<string, Thrown>) returns (highlight: bool)
      modifies this
      ensures !loading && highlightedCode == old(highlightedCode)
      ensures answer.Ok? ==> content == answer.value && error == old(error)
      ensures answer.Err? ==> content == old(content) && error == Some(MessageOr(answer.error, "Failed to load file"))
      ensures highlight <==> content != old(content) && content != ""
    {
      var previous := content;
      match answer {
        case Ok(text) =>
          content := text;
        case Err(thrown) =>
          error := Some(MessageOr(thrown, "Failed to load file"));
      }
      loading := false;
      highlight := content != previous && content != "";
    }

    /** `loadPrismAndHighlight`, given what the highlighter would produce
        for the file's language (None when loading Prism or the grammar
        fails): with no language the markup is always empty. */
    method ApplyHighlight(output: Option<string>)
      modifies this
      ensures GetLanguage(fileType) == "none" ==> highlightedCode == ""
      ensures GetLanguage(fileType) != "none" ==> highlightedCode == if output.Some? then output.value else ""
      ensures content == old(content) && loading == old(loading) && error == old(error)
    {
      var language := GetLanguage(fileType);
      if language != "none" && output.Some? {
        highlightedCode := output.value;
      } else {
        highlightedCode := "";
      }
    }

    /** What is rendered. */
    function View(): (s: Screen)
      reads this
      ensures s.Shown? ==> s.lineCount == multiset(content)['\n'] + 1
      ensures s.Shown? ==> s.languageLabel == if GetLanguage(fileType) == "none" then "plain text" else GetLanguage(fileType)
      ensures s.Shown? && highlightedCode == "" ==> s.body == Raw(content)
    {
      LineCountIsNewlinesPlusOne(content);
      if loading then Loading
      else if Truthy(error) then Failed(error.value)
      else
        var language := GetLanguage(fileType);
        Shown(fileType, LanguageLabel(language), LineCount(content),
              if highlightedCode != "" then Highlighted(highlightedCode) else Raw(content))
    }
  }
}
