/**
 * Turning the daemon's CSV lines into list-box items and back: the field
 * extraction and item formatting of `autocompleteGolang`, and the tab split
 * the popup applies to the highlighted item.
 */
module Suggestions {
  import opened Wrappers
  import opened Text

  /** The three fields kept from a CSV line; fields 1 and 3 are dropped. */
  datatype Fields = Fields(kind: string, text: string, description: string)

  /**
   * Token `i` of a split line when it exists and is non-empty, otherwise "".
   * The non-empty test changes nothing: the field is the token whenever it
   * exists.
   */
  function FieldOrEmpty(tokens: seq<string>, i: nat): (f: string)
    ensures f == (if i < |tokens| then tokens[i] else "")
  {
    if |tokens| > i && tokens[i] != "" then tokens[i] else ""
  }

  /**
   * The fields of one output line: kind is comma-field 0, text field 2 and
   * description field 4. A null or empty line, and any field the line does
   * not reach, gives "". No line is an error.
   */
  function ParseLine(line: Option<string>): (f: Fields)
    ensures line.None? || line == Some("") ==> f == Fields("", "", "")
    ensures ',' !in f.kind && ',' !in f.text && ',' !in f.description
    ensures line.Some? && Count(line.value, ',') < 2 ==> f.text == ""
    ensures line.Some? && Count(line.value, ',') < 4 ==> f.description == ""
  {
    if line.None? || line.value == "" then Fields("", "", "")
    else
      var tokens := Split(line.value, ',');
      Fields(FieldOrEmpty(tokens, 0), FieldOrEmpty(tokens, 2), FieldOrEmpty(tokens, 4))
  }

  /**
   * The list-box item for one output line: kind, text and description
   * separated by tabs, ending in a newline. Split on tabs, it gives the kind
   * and the text back as its first two tokens when neither contains a tab.
   */
  function FormatItem(line: Option<string>): (item: string)
    ensures var f := ParseLine(line);
            '\t' !in f.kind && '\t' !in f.text ==>
              |Split(item, '\t')| >= 2 && Split(item, '\t')[0] == f.kind && Split(item, '\t')[1] == f.text
  {
    var f := ParseLine(line);
    var item := f.kind + "\t" + f.text + "\t" + f.description + "\n";
    assert '\t' !in f.kind && '\t' !in f.text ==>
              |Split(item, '\t')| >= 2 && Split(item, '\t')[0] == f.kind && Split(item, '\t')[1] == f.text by {
      if '\t' !in f.kind && '\t' !in f.text {
        ItemTokens(f.kind, f.text, f.description);
      }
    }
    item
  }

  /** The items for all output lines: one per line, null and empty lines included, in the daemon's order. */
  function Items(output: seq<Option<string>>): (items: seq<string>)
    ensures |items| == |output|
    ensures forall i :: 0 <= i < |output| ==> items[i] == FormatItem(output[i])
  {
    if output == [] then [] else [FormatItem(output[0])] + Items(output[1..])
  }

  /** Formatting one more entry appends one more item. */
  lemma {:induction false} ItemsAppend(output: seq<Option<string>>, line: Option<string>)
    ensures Items(output + [line]) == Items(output) + [FormatItem(line)]
  {
    if output != [] {
      assert (output + [line])[1..] == output[1..] + [line];
      ItemsAppend(output[1..], line);
    }
  }

  /** The items of the first i + 1 entries are those of the first i, then the item of entry i. */
  lemma ItemsPrefix(output: seq<Option<string>>, i: nat)
    requires i < |output|
    ensures Items(output[..i + 1]) == Items(output[..i]) + [FormatItem(output[i])]
  {
    assert output[..i + 1] == output[..i] + [output[i]];
    ItemsAppend(output[..i], output[i]);
  }

  /**
   * What the popup inserts for a highlighted item: token 1 of the item split
   * on tabs, when there are at least two tokens and token 1 is non-empty.
   */
  function PreviewText(item: string): (s: Option<string>)
    ensures s.Some? ==> s.value != "" && '\t' !in s.value
  {
    var tokens := Split(item, '\t');
    if |tokens| >= 2 && tokens[1] != "" then Some(tokens[1]) else None
  }

  /** The item of a blank or missing line is two tabs and a newline, and it offers nothing to insert. */
  lemma BlankLineItem(line: Option<string>)
    requires line.None? || line == Some("")
    ensures FormatItem(line) == "\t\t\n"
    ensures PreviewText(FormatItem(line)) == None
  {
    assert FormatItem(line) == "" + "\t" + "" + "\t" + "" + "\n";
    SplitAfterPiece("", "\t\n", '\t');
    SplitAfterPiece("", "\n", '\t');
    SplitWithoutSeparator("\n", '\t');
  }

  /** Splitting an item on tabs gives back kind and text when neither holds a tab. */
  lemma {:induction false} ItemTokens(kind: string, text: string, description: string)
    requires '\t' !in kind && '\t' !in text
    ensures Split(kind + "\t" + text + "\t" + description + "\n", '\t')
         == [kind, text] + Split(description + "\n", '\t')
  {
    var tail := description + "\n";
    assert kind + "\t" + text + "\t" + description + "\n" == kind + ['\t'] + (text + ['\t'] + tail);
    SplitAfterPiece(kind, text + ['\t'] + tail, '\t');
    SplitAfterPiece(text, tail, '\t');
  }

  /**
   * Tab round trip: when the parsed kind and text hold no tab, the popup's
   * token 1 of the item is exactly the parsed suggestion text (nothing when
   * that text is empty), and token 0 is the kind. Tabs in the ignored
   * fields or in the description do not matter.
   */
  lemma {:induction false} ItemRoundTrip(line: Option<string>)
    requires '\t' !in ParseLine(line).kind && '\t' !in ParseLine(line).text
    ensures var f := ParseLine(line);
            var tokens := Split(FormatItem(line), '\t');
            |tokens| >= 2 && tokens[0] == f.kind && tokens[1] == f.text
            && PreviewText(FormatItem(line)) == (if f.text == "" then None else Some(f.text))
  {
    var f := ParseLine(line);
    ItemTokens(f.kind, f.text, f.description);
  }

  /** A line without tabs gives fields without tabs, so the round trip above applies to it. */
  lemma {:induction false} TabFreeLineFields(line: Option<string>)
    requires line.None? || '\t' !in line.value
    ensures var f := ParseLine(line);
            '\t' !in f.kind && '\t' !in f.text && '\t' !in f.description
  {
    if line.Some? && line.value != "" {
      SplitKeepsAbsence(line.value, ',', '\t');
    }
  }

  /** Field `i` of a split line, or "" past its end. */
  function At(fields: seq<string>, i: nat): (f: string)
    ensures i >= |fields| ==> f == ""
  {
    if i < |fields| then fields[i] else ""
  }

  /**
   * CSV round trip: a non-empty line made by joining comma-free fields with
   * commas parses to fields 0, 2 and 4, each "" when the line has fewer
   * fields. Only the comma-free case round-trips: a description that itself
   * contains commas arrives as several fields, and only the first of them is
   * kept.
   */
  lemma {:induction false} ParseJoinedLine(fields: seq<string>)
    requires |fields| >= 1 && Join(fields, ',') != ""
    requires forall i :: 0 <= i < |fields| ==> ',' !in fields[i]
    ensures ParseLine(Some(Join(fields, ','))) == Fields(At(fields, 0), At(fields, 2), At(fields, 4))
  {
    SplitJoin(fields, ',');
  }

  /**
   * The daemon's line for `fmt.Println`, given as its comma-separated pieces:
   * the signature's result list holds a comma, so the description stops at
   * "(n int".
   */
  lemma PrintlnLine()
    ensures var line := Join(["func", "", "Println", "", "func Println(a ...interface{}) (n int", " err error)"], ',');
            ParseLine(Some(line)) == Fields("func", "Println", "func Println(a ...interface{}) (n int")
  {
    ParseJoinedLine(["func", "", "Println", "", "func Println(a ...interface{}) (n int", " err error)"]);
  }

  /** A variable with an empty description: "var,,x,," gives kind "var", text "x" and no description. */
  lemma VariableLine()
    ensures ParseLine(Some("var,,x,,")) == Fields("var", "x", "")
  {
    var fields := ["var", "", "x", "", ""];
    assert fields[1..][1..] == fields[2..];
    assert fields[2..][1..] == fields[3..];
    assert fields[3..][1..] == fields[4..];
    assert Join(fields, ',') == "var,,x,,";
    ParseJoinedLine(fields);
  }

  /** A line with a single field: kind only, text and description empty. */
  lemma {:induction false} ParseKindOnly(kind: string)
    requires ',' !in kind && kind != ""
    ensures ParseLine(Some(kind)) == Fields(kind, "", "")
  {
    SplitWithoutSeparator(kind, ',');
  }
}
