/**
 * One completion round trip with the gocode daemon (`gocodeRun`), and the
 * document-type check that guards it. Starting, stopping and talking to the
 * process are external; the request the plugin builds and the way it reads
 * the daemon's standard output are modelled.
 */
module Gocode {
  import opened Wrappers
  import opened Text
  import opened Scintilla

  /**
   * Only documents whose path ends in ".go", in any letter case, are
   * completed: the check reads the last three characters, '.', then 'g' or
   * 'G', then 'o' or 'O'.
   */
  predicate IsGoDocument(path: string): (b: bool)
    ensures b <==>
            |path| >= 3 && path[|path| - 3] == '.'
            && (path[|path| - 2] == 'g' || path[|path| - 2] == 'G')
            && (path[|path| - 1] == 'o' || path[|path| - 1] == 'O')
  {
    EndsWith(ToLower(path), ".go")
  }

  const ArgumentsPrefix := "-f csv autocomplete "

  /**
   * The arguments of the query: CSV output, autocomplete at the caret
   * offset. The daemon reads the offset back from what follows the prefix.
   */
  function AutocompleteArguments(cursorPosition: int): (args: string)
    ensures ArgumentsPrefix <= args
    ensures cursorPosition >= 0 ==>
              var offset := args[|ArgumentsPrefix|..];
              AllDigits(offset) && DecimalValue(offset) == cursorPosition
    ensures cursorPosition < 0 ==>
              var offset := args[|ArgumentsPrefix|..];
              |offset| >= 2 && offset[0] == '-' && AllDigits(offset[1..]) && DecimalValue(offset[1..]) == -cursorPosition
  {
    var args := ArgumentsPrefix + IntToString(cursorPosition);
    assert args[|ArgumentsPrefix|..] == IntToString(cursorPosition);
    args
  }

  /** The end-of-input marker written after the text (Ctrl-Z, 0x1A). */
  const EndOfInput: char := 26 as char

  /**
   * What is written to the daemon's standard input: the text, the writer's
   * line terminator (`WriteLine`), then the end-of-input marker.
   */
  function StdinPayload(text: string, newLine: string): (payload: string)
    ensures |payload| == |text| + |newLine| + 1
    ensures payload[..|text|] == text && payload[|text|..|payload| - 1] == newLine
    ensures payload[|payload| - 1] == EndOfInput
  {
    text + newLine + [EndOfInput]
  }

  /**
   * The daemon gets the buffer `gocodeRun` copied out of the editor with its
   * trailing NULs removed and every other character kept, interior NULs
   * included.
   */
  lemma PayloadCarriesDocument(document: string, newLine: string)
    requires EndOfInput !in newLine
    ensures var text := TrimEnd(document, '\0');
            var payload := StdinPayload(text, newLine);
            text <= document
            && payload[..|payload| - |newLine| - 1] == text
            && EndOfInput !in payload[|text|..|payload| - 1]
            && (forall i :: 0 <= i < |text| ==> payload[i] == document[i])
  {
  }

  /** A request as the plugin sends it: the process arguments and the standard-input text. */
  datatype Request = Request(arguments: string, stdin: string)

  /** One read of `StreamReader.ReadLine`: the next line, or null at the end of the stream. */
  function ReadLine(pending: seq<string>): (line: Option<string>)
    ensures line.None? <==> pending == []
  {
    if pending == [] then None else Some(pending[0])
  }

  /**
   * The lines `gocodeRun` collects: each pass of its loop reads one line in
   * the loop condition and discards it, then reads another and keeps it,
   * so only every second line survives, and a null is kept when the
   * condition read the last line.
   */
  function CollectedLines(lines: seq<string>): (output: seq<Option<string>>)
    ensures |output| == (|lines| + 1) / 2
  {
    if lines == [] then []
    else if |lines| == 1 then [None]
    else [Some(lines[1])] + CollectedLines(lines[2..])
  }

  /**
   * For n output lines the result has ceil(n/2) entries; entry i is line
   * 2i+1, or null when that line does not exist (only the last entry, when
   * n is odd).
   */
  lemma {:induction false} CollectedLinesShape(lines: seq<string>)
    ensures |CollectedLines(lines)| == (|lines| + 1) / 2
    ensures forall i :: 0 <= i < |CollectedLines(lines)| ==>
              CollectedLines(lines)[i] == if 2 * i + 1 < |lines| then Some(lines[2 * i + 1]) else None
  {
    if |lines| >= 2 {
      var rest := CollectedLines(lines[2..]);
      CollectedLinesShape(lines[2..]);
      forall i | 1 <= i < |CollectedLines(lines)|
        ensures CollectedLines(lines)[i] == if 2 * i + 1 < |lines| then Some(lines[2 * i + 1]) else None
      {
        assert CollectedLines(lines)[i] == rest[i - 1];
        if 2 * i + 1 < |lines| { assert lines[2..][2 * (i - 1) + 1] == lines[2 * i + 1]; }
      }
    }
  }

  /**
   * The text `gocodeRun` sends for a buffer: SCI_GETTEXT is asked for
   * SCI_GETTEXTLENGTH characters, so its terminating NUL takes the place of
   * the last character, and `TrimEnd('\0')` then removes that NUL. The
   * daemon never sees the buffer's last character.
   */
  lemma {:induction false} SentTextDropsLastCharacter(text: string)
    requires text != []
    ensures TrimEnd(GetText(text, |text|), '\0') == TrimEnd(text[..|text| - 1], '\0')
    ensures |TrimEnd(GetText(text, |text|), '\0')| < |text|
    ensures |text| == 1 || text[|text| - 2] != '\0' ==> TrimEnd(GetText(text, |text|), '\0') == text[..|text| - 1]
  {
    var buffer := GetText(text, |text|);
    assert buffer[..|buffer| - 1] == text[..|text| - 1];
    if |text| >= 2 && text[|text| - 2] != '\0' {
      TrimEndUnique(text[..|text| - 1], '\0', text[..|text| - 1]);
    }
  }

  /**
   * `gocodeRun`: copies the buffer out of the editor (SCI_GETTEXTLENGTH,
   * SCI_GETTEXT), builds the request from that text and the caret offset,
   * and collects the daemon's standard output (`stdout`, its lines) with
   * the double-read loop.
   */
  method GocodeRun(editor: Editor, newLine: string, stdout: seq<string>)
    returns (request: Request, output: seq<Option<string>>)
    requires editor.Valid()
    ensures request.arguments == AutocompleteArguments(editor.caret)
    ensures request.stdin == StdinPayload(TrimEnd(GetText(editor.text, |editor.text|), '\0'), newLine)
    ensures output == CollectedLines(stdout)
  {
    var documentLength := |editor.text|;
    var document := GetText(editor.text, documentLength);
    var cursorPosition := editor.caret;
    var documentText := TrimEnd(document, '\0');
    request := Request(AutocompleteArguments(cursorPosition), StdinPayload(documentText, newLine));
    output := [];
    var pending := stdout;
    while ReadLine(pending).Some?
      invariant output + CollectedLines(pending) == CollectedLines(stdout)
      decreases |pending|
    {
      pending := pending[1..];           // the line read by the loop condition is dropped
      var line := ReadLine(pending);
      output := output + [line];
      if pending != [] {
        pending := pending[1..];
      }
    }
  }
}
