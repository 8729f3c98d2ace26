# GoAutocomplete — a Dafny model of the completion core

GoAutocomplete is a Notepad++ plugin that completes Go code with the `gocode`
daemon. On Alt-Space it checks that the current document is a `.go` file,
opens a popup, sends the in-memory buffer and caret offset to
`gocode -f csv autocomplete <offset>`, turns each CSV output line into a list
item `kind\ttext\tdescription\n`, and lets the user browse the items: each
highlight writes the suggestion over the word being typed, Escape puts the
original word back, Enter keeps what is there.

The model covers that core, all of it in `GoAutocomplete/Main.cs`:

- `text.dfy` (module `Text`): the .NET string operations the plugin relies on
  — `Split(char)`, `TrimEnd(char)`, `ToLower()`, `EndsWith`, `int.ToString()` —
  with their properties (split/join round trip, trim characterisation).
- `scintilla.dfy` (module `Scintilla`): the host editor as a class holding the
  buffer text, the caret and the selection anchor, with the Scintilla messages
  the plugin sends (word start, text range, set anchor, replace selection).
- `gocode.dfy` (module `Gocode`): `gocodeRun` — the `.go` check, the argument
  string, the standard-input payload, and the loop that collects the daemon's
  output lines.
- `suggestions.dfy` (module `Suggestions`): the per-line field extraction and
  item formatting of `autocompleteGolang`, and the tab split the popup applies
  to a highlighted item.
- `popup.dfy` (module `Popup`): `AutocompleteForm` as a class with its
  captured word start and original word, its selection and key handlers, and
  `autocompleteGolang` filling it.
- `wrappers.dfy` (module `Wrappers`): `Option`, standing for C#'s `null`.

Behaviours of the code that a reader might not expect are modelled as
written:

- Blank and null output lines are not skipped: the item is added after the
  `if` that guards the parsing, so such a line still gives the item `"\t\t\n"`
  (`Suggestions.BlankLineItem`).
- The output loop calls `ReadLine()` twice per pass and keeps only the second
  result, so for n lines only lines 1, 3, 5, … are collected, followed by a
  null when n is odd (`Gocode.CollectedLinesShape`).
- The buffer is fetched with SCI_GETTEXT for SCI_GETTEXTLENGTH characters.
  SCI_GETTEXT writes one character fewer than it is asked for, then a
  terminating NUL, and `TrimEnd('\0')` removes that NUL: the daemon never
  receives the buffer's last character (`Gocode.SentTextDropsLastCharacter`).
- `Split(',')` splits at every comma, so a description containing commas is
  cut at its first comma. For `fmt.Println` the description is
  `func Println(a ...interface{}) (n int` (`Suggestions.PrintlnLine`), not the
  full signature.
- Starting the daemon keeps no liveness flag, so there is no start-once
  behaviour to model; the daemon's lifecycle is left out (below).

The daemon's output is a parameter (`stdout`, its lines), as is the line
terminator the stream writer appends (`newLine`). The buffer is a sequence of
already-decoded characters, and positions are character offsets.

## Model

| member | source | states |
|---|---|---|
| `Text.Split` | GoAutocomplete/Main.cs:71 | `Split(',')` gives one piece more than there are separators, and no piece contains the separator |
| `Text.JoinSplit` | GoAutocomplete/Main.cs:71 | splitting loses nothing: joining the pieces with the separator gives the line back |
| `Text.SplitJoin` | GoAutocomplete/Main.cs:71 | splitting a join of separator-free pieces gives exactly those pieces |
| `Text.SplitAfterPiece` | GoAutocomplete/Main.cs:71 | a separator-free prefix followed by the separator becomes the first piece, the rest is split on its own |
| `Text.SplitWithoutSeparator` | GoAutocomplete/Main.cs:71 | a string without the separator is a single piece |
| `Text.SplitKeepsAbsence` | GoAutocomplete/Main.cs:71 | no piece contains a character the split string does not contain |
| `Text.TrimEnd` | GoAutocomplete/Main.cs:296 | `TrimEnd('\0')` yields a prefix of the text that does not end in NUL, and every removed character is NUL |
| `Text.TrimEndUnique` | GoAutocomplete/Main.cs:296 | those three properties determine the result, so NULs inside the text are kept |
| `Text.TrimEndIdempotent` | GoAutocomplete/Main.cs:296 | trimming twice gives the same text as trimming once |
| `Text.TrimEndPadding` | GoAutocomplete/Main.cs:296 | any amount of NUL padding after the text is removed and nothing else |
| `Text.ToLower` | GoAutocomplete/Main.cs:56 | lower-casing keeps the length and lower-cases each ASCII letter in place |
| `Text.NatToString` | GoAutocomplete/Main.cs:306 | the caret offset is written as decimal digits without a leading zero |
| `Text.NatToStringValue` | GoAutocomplete/Main.cs:306 | reading those digits back gives the offset |
| `Text.EndsWith` | GoAutocomplete/Main.cs:56 | a string ends with a suffix exactly when it is at least as long and its last characters are the suffix's, in order |
| `Text.IntToString` | GoAutocomplete/Main.cs:306 | a non-negative offset is written as digits that read back as the offset; a negative one as '-' followed by digits that read back as its magnitude |
| `Gocode.IsGoDocument` | GoAutocomplete/Main.cs:56 | a path is a Go document exactly when it ends in '.', 'g' or 'G', 'o' or 'O' |
| `Gocode.AutocompleteArguments` | GoAutocomplete/Main.cs:306 | the arguments are `-f csv autocomplete ` followed by the caret offset in a form that reads back as that offset, sign included |
| `Scintilla.GetText` | GoAutocomplete/Main.cs:286-294 | asking SCI_GETTEXT for n characters yields n characters: the first n-1 of the document, then a NUL |
| `Gocode.SentTextDropsLastCharacter` | GoAutocomplete/Main.cs:286-296 | for a non-empty buffer the text sent is the buffer without its last character, trailing NULs removed: always shorter than the buffer, and exactly the buffer minus its last character when the one before it is not NUL |
| `Gocode.StdinPayload` | GoAutocomplete/Main.cs:314-315 | standard input gets the text, then the line terminator, then the 0x1A end marker |
| `Gocode.PayloadCarriesDocument` | GoAutocomplete/Main.cs:296-315 | the daemon receives the copied buffer with trailing NULs removed and every other character kept, before the terminator and marker |
| `Gocode.ReadLine` | GoAutocomplete/Main.cs:320-322 | a read yields null exactly when the stream is exhausted |
| `Gocode.CollectedLines` | GoAutocomplete/Main.cs:319-323 | the double-read loop over n lines collects ceil(n/2) entries |
| `Gocode.CollectedLinesShape` | GoAutocomplete/Main.cs:319-323 | for n lines the loop collects ceil(n/2) entries; entry i is line 2i+1, or null (only at the end, n odd) |
| `Gocode.GocodeRun` | GoAutocomplete/Main.cs:283-325 | the request holds the argument string for the caret and the payload of the SCI_GETTEXT buffer with trailing NULs trimmed, and the loop's output is exactly the double-read collection |
| `Suggestions.FieldOrEmpty` | GoAutocomplete/Main.cs:74-85 | a field is the token at its index whenever that token exists (the non-empty test changes nothing), and "" past the end |
| `Suggestions.ParseLine` | GoAutocomplete/Main.cs:66-87 | null or empty lines give three empty fields, no field contains a comma, and a line with too few commas has empty text/description; no line fails |
| `Suggestions.FormatItem` | GoAutocomplete/Main.cs:88 | when the parsed kind and text hold no tab, splitting the item on tabs gives the kind as token 0 and the text as token 1 |
| `Suggestions.Items` | GoAutocomplete/Main.cs:64-89 | one item per collected entry, null and empty ones included, in the daemon's order |
| `Suggestions.ItemsAppend` | GoAutocomplete/Main.cs:64-89 | one more output entry adds exactly its item at the end of the list |
| `Suggestions.PreviewText` | GoAutocomplete/Main.cs:140-142 | what a highlight inserts is non-empty and tab-free |
| `Suggestions.BlankLineItem` | GoAutocomplete/Main.cs:69-88 | a null or empty line gives the item "\t\t\n", which offers nothing to insert |
| `Suggestions.ItemTokens` | GoAutocomplete/Main.cs:88 | splitting an item on tabs yields kind and text first when neither contains a tab |
| `Suggestions.ItemRoundTrip` | GoAutocomplete/Main.cs:141-142 | when the parsed kind and text hold no tab, tab token 0 of the item is the kind and token 1 is the suggestion text, which is what a highlight inserts (nothing if empty) |
| `Suggestions.TabFreeLineFields` | GoAutocomplete/Main.cs:71-88 | a line without tabs yields kind, text and description without tabs |
| `Suggestions.At` | GoAutocomplete/Main.cs:74-85 | a field index past the end of the split line gives "" |
| `Suggestions.ParseJoinedLine` | GoAutocomplete/Main.cs:71-86 | a non-empty line of any number of comma-free fields joined by commas parses to fields 0, 2 and 4, each "" when the line has fewer fields |
| `Suggestions.PrintlnLine` | GoAutocomplete/Main.cs:71-86 | the `fmt.Println` line keeps the description only up to the comma inside the signature |
| `Suggestions.VariableLine` | GoAutocomplete/Main.cs:71-86 | "var,,x,," parses to kind "var", text "x", empty description |
| `Suggestions.ParseKindOnly` | GoAutocomplete/Main.cs:74-85 | a line with no comma gives its kind and empty text and description |
| `Scintilla.WordStart` | GoAutocomplete/Main.cs:195 | the word start is at or before the caret, only word characters lie between them, and the character before it is not one |
| `Scintilla.ReplaceRange` | GoAutocomplete/Main.cs:144-145 | replacing [start, caret) keeps everything before start and from the old caret on, with the new text in between |
| `Scintilla.ReplaceRangeUndo` | GoAutocomplete/Main.cs:218-219 | writing the old contents of the range back over the inserted text restores the buffer |
| `Scintilla.ReplaceMiddle` | GoAutocomplete/Main.cs:144-145 | replacing the middle part of a buffer changes only that part |
| `Scintilla.Editor.TextRange` | GoAutocomplete/Main.cs:199-202 | the text range is the buffer's characters from start to end |
| `Scintilla.Editor.SetAnchor` | GoAutocomplete/Main.cs:144 | setting the anchor moves only the anchor |
| `Scintilla.Editor.ReplaceSel` | GoAutocomplete/Main.cs:145 | the selection between anchor and caret is replaced and the caret lands after the inserted text |
| `Popup.AutocompleteForm.constructor` | GoAutocomplete/Main.cs:194-203 | the form captures the word start and the word between it and the caret before any edit, with no items and nothing selected |
| `Popup.AutocompleteForm.AddItem` | GoAutocomplete/Main.cs:88 | an item is appended to the list box |
| `Popup.AutocompleteForm.ReplaceWord` | GoAutocomplete/Main.cs:144-145 | the text from the word start to the caret is replaced, the caret moves after the new text, and the form's invariant is kept |
| `Popup.AutocompleteForm.OnSelectedIndexChanged` | GoAutocomplete/Main.cs:136-152 | a highlight with a non-empty tab token 1 replaces exactly [word start, caret) with it; an empty token changes nothing; no selection reports an error |
| `Popup.AutocompleteForm.OnDoubleClick` | GoAutocomplete/Main.cs:153-156 | a double click closes the popup and writes nothing |
| `Popup.AutocompleteForm.ProcessCmdKey` | GoAutocomplete/Main.cs:211-238 | Escape restores buffer and caret to their values at construction, after any number of previews, and closes; Enter closes without writing; other keys are not handled |
| `Popup.AddSuggestions` | GoAutocomplete/Main.cs:64-89 | the list gets one item per collected entry appended in order, and nothing else about the popup or the buffer changes |
| `Popup.AutocompleteGolang` | GoAutocomplete/Main.cs:50-98 | only for a `.go` document: opens the popup, sends one request, and fills the list with one item per collected entry in order |

## Left out

- `gocodeStart`, `gocodeStop` and the process plumbing of `gocodeRun` (start, wait for exit, stream flush and close): external processes. The daemon's output enters the model as a parameter.
- A failure to start the daemon or to talk to it, and every `catch` block with its `MessageBox`: exceptions of external calls. The one failure the model keeps is a selection change with nothing selected, reported as `failed`.
- The Win32 `SendMessage` call that fetches the path, and the unsafe pointer copy: the path is a parameter, and the buffer handed to `gocodeRun` is what `Scintilla.GetText` (SCI_GETTEXT) yields for the `Scintilla.Editor` text.
- UTF-8 decoding of the buffer, and the difference between Scintilla's byte positions and character positions: the buffer is an already-decoded character sequence.
- Culture-sensitive `ToLower`, `EndsWith` and `int.ToString`: only ASCII case folding, ordinal comparison and a '-' sign are modelled.
- Popup.AutocompleteForm.constructor: does not model the 1024-character capacity of the `Sci_TextRange` buffer; the whole word is captured whatever its length.
- Popup.AutocompleteForm.ProcessCmdKey: for keys other than Escape and Enter the answer of the base form's `ProcessCmdKey` is not modelled; the model returns false (not handled here).
- Edits made outside the popup while it is open: the popup is modal, and the form's invariant assumes only its own handlers write the buffer.
- The modal `ShowDialog` loop and `Dispose`: the returned popup is driven by calls to its handlers.
- Popup placement (`GetWindowRect`, caret pixel position, line height), WinForms setup, menu registration and `about`: user interface.
- The commented-out `ProcessKeyPreview`: dead code.
