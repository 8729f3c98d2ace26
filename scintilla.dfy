/**
 * The host editor as the plugin sees it through Scintilla messages: a
 * character buffer, the caret (current position) and the selection anchor.
 * Only the messages the plugin sends are modelled: SCI_GETTEXTLENGTH,
 * SCI_GETTEXT, SCI_GETCURRENTPOS, SCI_WORDSTARTPOSITION, SCI_GETTEXTRANGE,
 * SCI_SETANCHOR and SCI_REPLACESEL.
 */
module Scintilla {

  /** Scintilla's default word characters: ASCII letters and digits, '_' and every non-ASCII character. */
  predicate IsWordChar(c: char)
  {
    'a' <= c <= 'z' || 'A' <= c <= 'Z' || '0' <= c <= '9' || c == '_' || c as int >= 0x80
  }

  /**
   * SCI_WORDSTARTPOSITION(pos, onlyWordCharacters = true): the start of the
   * run of word characters that ends at `pos`.
   */
  function WordStart(text: string, pos: nat): (start: nat)
    requires pos <= |text|
    ensures start <= pos
    ensures forall i :: start <= i < pos ==> IsWordChar(text[i])
    ensures start == 0 || !IsWordChar(text[start - 1])
  {
    if pos > 0 && IsWordChar(text[pos - 1]) then WordStart(text, pos - 1) else pos
  }

  /**
   * SCI_GETTEXT(length, buffer) into a buffer of `length` characters: the
   * first length-1 characters of the document followed by a terminating
   * NUL; nothing is written when `length` is 0.
   */
  function GetText(text: string, length: nat): (buffer: string)
    requires length <= |text| + 1
    ensures |buffer| == length
    ensures length > 0 ==> buffer[..length - 1] == text[..length - 1] && buffer[length - 1] == '\0'
  {
    if length == 0 then [] else text[..length - 1] + ['\0']
  }

  /**
   * The buffer after the range [lo, hi) is replaced by `s`: everything before
   * `lo` and everything from `hi` on is kept, and `s` sits in between.
   */
  function ReplaceRange(text: string, lo: nat, hi: nat, s: string): (r: string)
    requires lo <= hi <= |text|
    ensures |r| == |text| - (hi - lo) + |s|
    ensures r[..lo] == text[..lo]
    ensures r[lo..lo + |s|] == s
    ensures r[lo + |s|..] == text[hi..]
  {
    text[..lo] + s + text[hi..]
  }

  /** Replacing [lo, hi) and then the inserted text by the old contents of [lo, hi) restores the buffer. */
  lemma ReplaceRangeUndo(text: string, lo: nat, hi: nat, s: string)
    requires lo <= hi <= |text|
    ensures ReplaceRange(ReplaceRange(text, lo, hi, s), lo, lo + |s|, text[lo..hi]) == text
  {
  }

  /** Replacing the middle part of a three-part buffer swaps that part and nothing else. */
  lemma ReplaceMiddle(prefix: string, middle: string, suffix: string, s: string)
    ensures ReplaceRange(prefix + middle + suffix, |prefix|, |prefix| + |middle|, s) == prefix + s + suffix
  {
  }

  class Editor {
    var text: string
    var caret: nat
    var anchor: nat

    ghost predicate Valid()
      reads this
    {
      caret <= |text| && anchor <= |text|
    }

    constructor (text: string, caret: nat)
      requires caret <= |text|
      ensures Valid()
      ensures this.text == text && this.caret == caret && anchor == caret
    {
      this.text := text;
      this.caret := caret;
      this.anchor := caret;
    }

    /** SCI_GETTEXTRANGE over [lo, hi). */
    function TextRange(lo: nat, hi: nat): (r: string)
      reads this
      requires lo <= hi <= |text|
      ensures |r| == hi - lo
      ensures forall i :: 0 <= i < |r| ==> r[i] == text[lo + i]
    {
      text[lo..hi]
    }

    /** SCI_SETANCHOR: moves the anchor and leaves the caret where it is, so the selection becomes [pos, caret). */
    method SetAnchor(pos: nat)
      requires Valid() && pos <= |text|
      modifies this`anchor
      ensures Valid() && anchor == pos
    {
      anchor := pos;
    }

    /**
     * SCI_REPLACESEL: the selection between anchor and caret is replaced by
     * `s`, and the caret (and anchor) end up just after the inserted text.
     */
    method ReplaceSel(s: string)
      requires Valid()
      modifies this
      ensures Valid()
      ensures var lo := if old(anchor) <= old(caret) then old(anchor) else old(caret);
              var hi := if old(anchor) <= old(caret) then old(caret) else old(anchor);
              text == ReplaceRange(old(text), lo, hi, s) && caret == lo + |s| && anchor == caret
    {
      var lo := if anchor <= caret then anchor else caret;
      var hi := if anchor <= caret then caret else anchor;
      text := ReplaceRange(text, lo, hi, s);
      caret := lo + |s|;
      anchor := caret;
    }
  }
}
