/** The command panel (src/components/CommandPanel.tsx): an input line, a
    busy flag and an append-only log. Executing a non-blank command echoes
    it, clears the input, and when the main process answers appends the
    lines that describe the answer. */
module Commands {
  import opened Common
  import opened Types
  import opened Strings
  import Main

  const NoOutputMarker: string := "(command completed with no output)"

  /** What the execute-command call gave back: an answer, or a throw. */
  datatype Reply = Returned(result: CommandResult) | Threw(thrown: Thrown)

  /** The echo line of a command: drawn as a command, and the command text
      follows the prompt unchanged. */
  function EchoLine(commandText: string): (line: string)
    ensures IsCommandLine(line)
    ensures |line| == |commandText| + 2 && line[2..] == commandText
  {
    "$ " + commandText
  }

  /** The lines appended for an answer: one error line when `error` is
      truthy; otherwise stdout if non-empty, then stderr if non-empty, and
      the marker when both are empty. */
  function ResultLines(r: CommandResult): (lines: seq<string>)
    ensures 1 <= |lines| <= 2
    ensures forall i :: 0 <= i < |lines| ==> lines[i] != ""
  {
    if Truthy(r.error) then ["Error: " + r.error.value]
    else
      (if r.stdout != "" then [r.stdout] else [])
      + (if r.stderr != "" then ["stderr: " + r.stderr] else [])
      + (if r.stdout == "" && r.stderr == "" then [NoOutputMarker] else [])
  }

  /** The lines appended when the call returns or throws. */
  function ReplyLines(reply: Reply): (lines: seq<string>)
    ensures 1 <= |lines| <= 2
    ensures forall i :: 0 <= i < |lines| ==> lines[i] != ""
  {
    match reply
    case Returned(r) => ResultLines(r)
    case Threw(e) => ["Error: " + MessageOr(e, "Unknown error")]
  }

  /** An answer with a truthy error gives exactly its error line, and no
      stdout or stderr line. */
  lemma ErrorLineOnly(r: CommandResult)
    requires Truthy(r.error)
    ensures ResultLines(r) == ["Error: " + r.error.value]
    ensures |ResultLines(r)| == 1
  {
  }

  /** An answer without error gives stdout first when there is some, stderr
      last when there is some, one line per non-empty stream, and the marker
      alone when both are empty. */
  lemma SuccessLines(r: CommandResult)
    requires !Truthy(r.error)
    ensures r.stdout == "" && r.stderr == "" ==> ResultLines(r) == [NoOutputMarker]
    ensures r.stdout != "" || r.stderr != "" ==>
      |ResultLines(r)| == (if r.stdout != "" then 1 else 0) + (if r.stderr != "" then 1 else 0)
    ensures r.stdout != "" ==> ResultLines(r)[0] == r.stdout
    ensures r.stderr != "" ==> ResultLines(r)[|ResultLines(r)| - 1] == "stderr: " + r.stderr
  {
  }

  /** Every execution appends two or three lines in all: its echo, and one or
      two lines for the reply. */
  lemma ReplyLineCount(reply: Reply)
    ensures 1 <= |ReplyLines(reply)| <= 2
  {
  }

  /** `line.startsWith('$')`: the lines drawn as commands. */
  predicate IsCommandLine(line: string)
  {
    StartsWith(line, "$")
  }

  /** The echo is drawn as a command; error, stderr and marker lines are
      not; a stdout line is drawn as a command exactly when its text begins
      with '$'. */
  lemma LineClassification(commandText: string, r: CommandResult, e: Thrown)
    ensures IsCommandLine(EchoLine(commandText))
    ensures forall k :: 0 <= k < |ReplyLines(Threw(e))| ==> !IsCommandLine(ReplyLines(Threw(e))[k])
    ensures forall k :: 0 <= k < |ResultLines(r)| ==>
      (IsCommandLine(ResultLines(r)[k]) <==> !Truthy(r.error) && k == 0 && r.stdout != "" && r.stdout[0] == '$')
  {
    var lines := ResultLines(r);
    forall k | 0 <= k < |lines|
      ensures IsCommandLine(lines[k]) <==> !Truthy(r.error) && k == 0 && r.stdout != "" && r.stdout[0] == '$'
    {
      if Truthy(r.error) {
        assert lines[k] == "Error: " + r.error.value;
        assert lines[k][0] == 'E';
      } else if r.stdout != "" && k == 0 {
        assert lines[k] == r.stdout;
      } else if r.stderr != "" && k == |lines| - 1 {
        assert lines[k] == "stderr: " + r.stderr;
        assert lines[k][0] == 's';
      } else {
        assert lines[k] == NoOutputMarker;
        assert lines[k][0] == '(';
      }
    }
    var line := "Error: " + MessageOr(e, "Unknown error");
    assert line[0] == 'E';
  }

  /** A command the main process could not run (its error message is
      non-empty) appends an error line and never a stdout line; one that
      completed appends its output exactly as the stream rules say. */
  lemma ExecutionLines(outcome: Main.ExecOutcome)
    ensures outcome.Rejected? && outcome.message != "" ==>
      ReplyLines(Returned(Main.ExecuteCommand(outcome))) == ["Error: " + outcome.message]
    ensures outcome.Completed? && outcome.stdout != "" ==>
      ReplyLines(Returned(Main.ExecuteCommand(outcome)))[0] == outcome.stdout
    ensures outcome.Completed? && outcome.stdout == "" && outcome.stderr == "" ==>
      ReplyLines(Returned(Main.ExecuteCommand(outcome))) == [NoOutputMarker]
  {
  }

  /** `echo hello` answering "hello\n" appends that one line. */
  lemma EchoHelloExample()
    ensures ReplyLines(Returned(Main.ExecuteCommand(Main.Completed("hello\n", "")))) == ["hello\n"]
  {
  }

  class CommandPanel {
    var command: string
    var output: seq<string>
    var loading: bool

    constructor ()
      ensures command == "" && output == [] && !loading
    {
      command := "";
      output := [];
      loading := false;
    }

    /** The input's `onChange`. */
    method TypeCommand(text: string)
      modifies this
      ensures command == text && output == old(output) && loading == old(loading)
    {
      command := text;
    }

    /** The Execute button is disabled while running and for blank input. */
    predicate ExecuteDisabled()
      reads this
      ensures !loading ==> (ExecuteDisabled() <==> AllWhitespace(command))
    {
      TrimEmptyIffBlank(command);
      loading || Trim(command) == ""
    }

    /** The first half of `executeCommand`: a blank command changes nothing
        and sends nothing; otherwise the trimmed text is echoed, the input is
        cleared, the panel is busy, and the text is what is sent. */
    method Submit() returns (sent: Option<string>)
      modifies this
      ensures AllWhitespace(old(command)) ==>
        sent == None && command == old(command) && output == old(output) && loading == old(loading)
      ensures !AllWhitespace(old(command)) ==>
        && sent == Some(Trim(old(command)))
        && sent.value != ""
        && output == old(output) + [EchoLine(sent.value)]
        && command == "" && loading
    {
      TrimEmptyIffBlank(command);
      var commandText := Trim(command);
      if commandText == "" {
        return None;
      }
      loading := true;
      output := output + [EchoLine(commandText)];
      command := "";
      sent := Some(commandText);
    }

    /** The second half: the reply's lines are appended after everything
        already logged, and the panel is idle again. */
    method Complete(reply: Reply)
      modifies this
      ensures output == old(output) + ReplyLines(reply)
      ensures |output| - |old(output)| in {1, 2}
      ensures output[..|old(output)|] == old(output)
      ensures command == old(command) && !loading
    {
      ReplyLineCount(reply);
      match reply {
        case Threw(e) =>
          output := output + ["Error: " + MessageOr(e, "Unknown error")];
        case Returned(r) =>
          if Truthy(r.error) {
            output := output + ["Error: " + r.error.value];
          } else {
            if r.stdout != "" {
              output := output + [r.stdout];
            }
            if r.stderr != "" {
              output := output + ["stderr: " + r.stderr];
            }
            if r.stdout == "" && r.stderr == "" {
              output := output + [NoOutputMarker];
            }
          }
      }
      loading := false;
    }

    /** `clearOutput` */
    method Clear()
      modifies this
      ensures output == [] && command == old(command) && loading == old(loading)
    {
      output := [];
    }
  }
}
