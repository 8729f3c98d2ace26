/**
 * The completion popup (`AutocompleteForm`) and the menu command that opens
 * it (`autocompleteGolang`). The popup remembers where the word under the
 * caret starts and what it was; highlighting a suggestion puts the
 * suggestion in the word's place, Escape puts the word back, Enter keeps
 * whatever is there.
 */
module Popup {
  import opened Wrappers
  import opened Text
  import opened Scintilla
  import opened Suggestions
  import opened Gocode

  /** The keys the popup intercepts; every other key goes to the base form. */
  datatype Key = Escape | Enter | OtherKey

  class AutocompleteForm {
    const editor: Editor
    var wordStartPosition: nat
    var originalWord: string
    /** The list box's items, in the order they were added. */
    var items: seq<string>
    /** The list box's selected index; -1 when nothing is selected. */
    var selectedIndex: int
    var closed: bool

    /** The buffer and caret when the popup was created. */
    ghost var initialText: string
    ghost var initialCaret: nat
    /** The text that currently occupies the word's place in the buffer. */
    ghost var inserted: string

    /**
     * The popup owns the range that starts at the word start: the buffer is
     * the one it found, with the original word replaced by `inserted`, and
     * the caret sits right after `inserted`.
     */
    ghost predicate Valid()
      reads this, editor
    {
      && editor.Valid()
      && wordStartPosition <= initialCaret <= |initialText|
      && originalWord == initialText[wordStartPosition..initialCaret]
      && editor.text == initialText[..wordStartPosition] + inserted + initialText[initialCaret..]
      && editor.caret == wordStartPosition + |inserted|
      && -1 <= selectedIndex < |items|
    }

    /** Captures the word start and the word between it and the caret, before anything is edited. */
    constructor (editor: Editor)
      requires editor.Valid()
      ensures Valid() && this.editor == editor
      ensures initialText == editor.text && initialCaret == editor.caret
      ensures wordStartPosition == WordStart(editor.text, editor.caret)
      ensures originalWord == editor.text[wordStartPosition..editor.caret] && inserted == originalWord
      ensures items == [] && selectedIndex == -1 && !closed
    {
      this.editor := editor;
      var cursorPosition := editor.caret;
      var wordStart := WordStart(editor.text, cursorPosition);
      var word := editor.TextRange(wordStart, cursorPosition);
      wordStartPosition := wordStart;
      originalWord := word;
      items := [];
      selectedIndex := -1;
      closed := false;
      initialText := editor.text;
      initialCaret := cursorPosition;
      inserted := word;
      new;
      assert word == editor.text[wordStart..cursorPosition];
      assert editor.text == editor.text[..wordStart] + word + editor.text[cursorPosition..];
    }

    /** `Suggestions.Items.Add`. */
    method AddItem(item: string)
      requires Valid()
      modifies this`items
      ensures Valid() && items == old(items) + [item]
    {
      items := items + [item];
    }

    /**
     * `_suggestions_SelectedIndexChanged`: previews the highlighted item. With
     * no selection the item is null, the handler fails and the error is
     * reported (`failed`). Otherwise, when the item's tab token 1 is
     * non-empty, the range from the word start to the caret is replaced by it
     * and the caret moves to its end; else nothing changes.
     */
    method OnSelectedIndexChanged(index: int) returns (failed: bool)
      requires Valid() && -1 <= index < |items|
      modifies this, editor
      ensures items == old(items) && closed == old(closed)
      ensures wordStartPosition == old(wordStartPosition) && originalWord == old(originalWord)
      ensures initialText == old(initialText) && initialCaret == old(initialCaret)
      ensures Valid() && selectedIndex == index
      ensures failed <==> index == -1
      ensures var preview := if index == -1 then None else PreviewText(items[index]);
              if preview.Some? then
                && inserted == preview.value
                && editor.text == ReplaceRange(old(editor.text), wordStartPosition, old(editor.caret), preview.value)
                && editor.caret == wordStartPosition + |preview.value|
              else
                inserted == old(inserted) && editor.text == old(editor.text) && editor.caret == old(editor.caret)
    {
      selectedIndex := index;
      if index == -1 {
        failed := true;
        return;
      }
      failed := false;
      var tokens := Split(items[index], '\t');
      if |tokens| >= 2 && tokens[1] != "" {
        ReplaceWord(tokens[1]);
      }
    }

    /**
     * SCI_SETANCHOR at the word start followed by SCI_REPLACESEL: the
     * selection is then [word start, caret), so `s` takes the place of
     * whatever the popup last put there.
     */
    method ReplaceWord(s: string)
      requires Valid()
      modifies this`inserted, editor
      ensures Valid() && inserted == s
      ensures editor.text == ReplaceRange(old(editor.text), wordStartPosition, old(editor.caret), s)
      ensures editor.caret == wordStartPosition + |s|
    {
      ReplaceMiddle(initialText[..wordStartPosition], inserted, initialText[initialCaret..], s);
      editor.SetAnchor(wordStartPosition);
      editor.ReplaceSel(s);
      inserted := s;
    }

    /** `_suggestions_DoubleClick`: closes the popup and keeps the preview. */
    method OnDoubleClick()
      requires Valid()
      modifies this`closed
      ensures Valid() && closed
    {
      closed := true;
    }

    /**
     * `ProcessCmdKey`. Escape writes the original word back over the range
     * and closes: buffer and caret are again what they were when the popup
     * was created, whatever was previewed in between. Enter closes without
     * writing. Other keys are not handled here.
     */
    method ProcessCmdKey(key: Key) returns (handled: bool)
      requires Valid()
      modifies this, editor
      ensures Valid()
      ensures handled <==> key != OtherKey
      ensures closed <==> old(closed) || key != OtherKey
      ensures key == Escape ==> editor.text == initialText && editor.caret == initialCaret && inserted == originalWord
      ensures key != Escape ==> editor.text == old(editor.text) && editor.caret == old(editor.caret) && inserted == old(inserted)
      ensures items == old(items) && selectedIndex == old(selectedIndex)
      ensures wordStartPosition == old(wordStartPosition) && originalWord == old(originalWord)
      ensures initialText == old(initialText) && initialCaret == old(initialCaret)
    {
      if key == Escape {
        ReplaceWord(originalWord);
        assert initialText == initialText[..wordStartPosition] + originalWord + initialText[initialCaret..];
        closed := true;
        handled := true;
      } else if key == Enter {
        closed := true;
        handled := true;
      } else {
        handled := false;
      }
    }
  }

  /**
   * The `foreach` of `autocompleteGolang`: one list-box item per collected
   * output entry, null and empty entries included, in order.
   */
  method AddSuggestions(popup: AutocompleteForm, output: seq<Option<string>>)
    requires popup.Valid()
    modifies popup`items
    ensures popup.Valid() && popup.items == old(popup.items) + Items(output)
    ensures popup.inserted == old(popup.inserted) && popup.initialText == old(popup.initialText)
    ensures popup.initialCaret == old(popup.initialCaret) && popup.originalWord == old(popup.originalWord)
    ensures popup.selectedIndex == old(popup.selectedIndex) && popup.closed == old(popup.closed)
    ensures popup.editor.text == old(popup.editor.text) && popup.editor.caret == old(popup.editor.caret)
  {
    var i := 0;
    while i < |output|
      invariant 0 <= i <= |output|
      invariant popup.Valid() && popup.items == old(popup.items) + Items(output[..i])
    {
      var item := FormatItem(output[i]);
      ItemsPrefix(output, i);
      AppendOne(old(popup.items), Items(output[..i]), item);
      popup.AddItem(item);
      i := i + 1;
    }
    assert output[..i] == output;
  }

  /** Appending to a concatenation appends to its second part. */
  lemma AppendOne<T>(a: seq<T>, b: seq<T>, x: T)
    ensures (a + b) + [x] == a + (b + [x])
  {
  }

  /**
   * `autocompleteGolang`: for a Go document, opens the popup on the editor,
   * runs one completion round trip and adds one item per collected output
   * entry, in order. For any other document nothing happens.
   */
  method AutocompleteGolang(path: string, editor: Editor, newLine: string, stdout: seq<string>)
    returns (popup: AutocompleteForm?, request: Option<Request>)
    requires editor.Valid()
    ensures popup != null <==> IsGoDocument(path)
    ensures request.Some? <==> IsGoDocument(path)
    ensures request.Some? ==>
              request.value == Request(AutocompleteArguments(editor.caret),
                                       StdinPayload(TrimEnd(GetText(editor.text, |editor.text|), '\0'), newLine))
    ensures popup != null ==>
              && fresh(popup) && popup.Valid() && popup.editor == editor
              && popup.items == Items(CollectedLines(stdout))
              && popup.initialText == editor.text && popup.initialCaret == editor.caret
              && popup.inserted == popup.originalWord && popup.selectedIndex == -1 && !popup.closed
  {
    popup := null;
    request := None;
    if IsGoDocument(path) {
      popup := new AutocompleteForm(editor);
      var sent, output := GocodeRun(editor, newLine, stdout);
      request := Some(sent);
      AddSuggestions(popup, output);
    }
  }
}
