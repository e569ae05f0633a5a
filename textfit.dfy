/** Fitting a caption into the speech bubble: the greedy word wrap of
    `get_wrapped_text` and the font-size search of `find_font_size`
    (mastoinky.py:84-108). The font is replaced by its measures: `measure`
    stands for `font.getlength` at one size, `textHeight` for the height of the
    bounding box `multiline_textbbox` reports for a wrapped text at a size. */
module TextFit {
  import opened Strings

  /** One pass of the loop in `get_wrapped_text`: try the word on the last line,
      keep it there if the line still measures at most `lineLength`, otherwise
      start a new line with the word. */
  function Extend(lines: seq<string>, word: string, measure: string -> real, lineLength: int): (r: seq<string>)
    requires |lines| >= 1
    ensures |r| >= 1
  {
    var line := Strip(lines[|lines| - 1] + " " + word);
    if measure(line) <= lineLength as real then lines[..|lines| - 1] + [line] else lines + [word]
  }

  /** The list `lines` after the loop has consumed `words`, starting from `[""]`. */
  function WrapWords(words: seq<string>, measure: string -> real, lineLength: int): (lines: seq<string>)
    ensures |lines| >= 1
  {
    if words == [] then [""]
    else Extend(WrapWords(words[..|words| - 1], measure, lineLength), words[|words| - 1], measure, lineLength)
  }

  /** What `get_wrapped_text(text, font, line_length)` returns. */
  function WrappedText(text: string, measure: string -> real, lineLength: int): string {
    Join(WrapWords(Split(text), measure, lineLength), '\n')
  }

  /** The unfolding every induction below starts from. */
  lemma WrapWordsStep(words: seq<string>, measure: string -> real, lineLength: int)
    requires words != [] && AllWords(words)
    ensures AllWords(words[..|words| - 1]) && IsWord(words[|words| - 1])
    ensures WrapWords(words, measure, lineLength)
         == Extend(WrapWords(words[..|words| - 1], measure, lineLength), words[|words| - 1], measure, lineLength)
  {
    var init := words[..|words| - 1];
    assert forall i :: 0 <= i < |init| ==> init[i] == words[i];
  }

  /** The last line grown by a word, as `f"{last} {word}".strip()` yields it
      when `last` is trimmed. */
  function Grow(last: string, word: string): string {
    if last == "" then word else last + " " + word
  }

  /** The lines are trimmed, only the first can be empty, and once a word has
      been placed an empty first line has a line after it. */
  predicate Shaped(lines: seq<string>, placed: bool) {
    |lines| >= 1
    && (forall i :: 0 <= i < |lines| ==> Trimmed(lines[i]))
    && (forall i :: 0 < i < |lines| ==> lines[i] != "")
    && (placed && lines[0] == "" ==> |lines| >= 2)
  }

  /** Line `i` ends where it does because the first word of line `i + 1` did not
      fit behind it. */
  predicate BreaksBefore(lines: seq<string>, i: int, measure: string -> real, lineLength: int)
    requires 0 <= i < |lines| - 1
  {
    Split(lines[i + 1]) != [] && measure(Strip(lines[i] + " " + Split(lines[i + 1])[0])) > lineLength as real
  }

  /** One pass of the loop with the `strip()` worked out. */
  lemma ExtendByGrow(lines: seq<string>, word: string, measure: string -> real, lineLength: int)
    requires |lines| >= 1 && Trimmed(lines[|lines| - 1]) && IsWord(word)
    ensures var grown := Grow(lines[|lines| - 1], word);
      Extend(lines, word, measure, lineLength)
      == if measure(grown) <= lineLength as real then lines[..|lines| - 1] + [grown] else lines + [word]
  {
    StripSpaceWord(lines[|lines| - 1], word);
  }

  lemma GrowShape(last: string, word: string)
    requires Trimmed(last) && IsWord(word)
    ensures Trimmed(Grow(last, word)) && Grow(last, word) != ""
    ensures Split(Grow(last, word)) == Split(last) + [word]
  {
    SplitWord(word);
    if last != "" {
      var g := last + " " + word;
      assert g[0] == last[0];
      assert g[|g| - 1] == word[|word| - 1];
      assert g == last + [' '] + word;
      SplitAroundSpace(last, ' ', word);
    }
  }

  lemma ExtendShaped(lines: seq<string>, word: string, placed: bool, measure: string -> real, lineLength: int)
    requires Shaped(lines, placed) && IsWord(word)
    ensures Shaped(Extend(lines, word, measure, lineLength), true)
  {
    ExtendByGrow(lines, word, measure, lineLength);
    GrowShape(lines[|lines| - 1], word);
  }

  /** Every line is trimmed, only the first line can be empty, and it is empty
      only with a second line after it. */
  lemma {:induction false} WrapShape(words: seq<string>, measure: string -> real, lineLength: int)
    requires AllWords(words)
    ensures Shaped(WrapWords(words, measure, lineLength), words != [])
    decreases |words|
  {
    if words != [] {
      WrapWordsStep(words, measure, lineLength);
      var init := words[..|words| - 1];
      WrapShape(init, measure, lineLength);
      ExtendShaped(WrapWords(init, measure, lineLength), words[|words| - 1], init != [], measure, lineLength);
    }
  }

  lemma ExtendKeepsWords(lines: seq<string>, word: string, placed: bool, measure: string -> real, lineLength: int)
    requires Shaped(lines, placed) && IsWord(word)
    ensures SplitAll(Extend(lines, word, measure, lineLength)) == SplitAll(lines) + [word]
  {
    ExtendByGrow(lines, word, measure, lineLength);
    var k := |lines| - 1;
    var grown := Grow(lines[k], word);
    GrowShape(lines[k], word);
    SplitWord(word);
    if measure(grown) <= lineLength as real {
      var r := lines[..k] + [grown];
      assert r[..k] == lines[..k];
    } else {
      assert (lines + [word])[..|lines|] == lines;
    }
  }

  /** The wrap keeps the words in order and adds none: the words of the lines,
      line after line, are the input words. */
  lemma {:induction false} WrapKeepsWords(words: seq<string>, measure: string -> real, lineLength: int)
    requires AllWords(words)
    ensures SplitAll(WrapWords(words, measure, lineLength)) == words
    decreases |words|
  {
    if words != [] {
      WrapWordsStep(words, measure, lineLength);
      var init := words[..|words| - 1];
      var w, lines := words[|words| - 1], WrapWords(init, measure, lineLength);
      WrapShape(init, measure, lineLength);
      calc {
        SplitAll(WrapWords(words, measure, lineLength));
        SplitAll(Extend(lines, w, measure, lineLength));
        { ExtendKeepsWords(lines, w, init != [], measure, lineLength); }
        SplitAll(lines) + [w];
        { WrapKeepsWords(init, measure, lineLength); }
        init + [w];
        words;
      }
    }
  }

  lemma ExtendFits(lines: seq<string>, word: string, placed: bool, measure: string -> real, lineLength: int)
    requires Shaped(lines, placed) && IsWord(word)
    requires forall i :: 0 <= i < |lines| && |Split(lines[i])| >= 2 ==> measure(lines[i]) <= lineLength as real
    ensures var r := Extend(lines, word, measure, lineLength);
      forall i :: 0 <= i < |r| && |Split(r[i])| >= 2 ==> measure(r[i]) <= lineLength as real
  {
    ExtendByGrow(lines, word, measure, lineLength);
    SplitWord(word);
  }

  /** A line that holds two or more words measures at most `lineLength`; only a
      single word that is too long on its own can overflow. */
  lemma {:induction false} WrapFits(words: seq<string>, measure: string -> real, lineLength: int)
    requires AllWords(words)
    ensures var lines := WrapWords(words, measure, lineLength);
      forall i :: 0 <= i < |lines| && |Split(lines[i])| >= 2 ==> measure(lines[i]) <= lineLength as real
    decreases |words|
  {
    if words != [] {
      WrapWordsStep(words, measure, lineLength);
      var init, w := words[..|words| - 1], words[|words| - 1];
      WrapFits(init, measure, lineLength);
      WrapShape(init, measure, lineLength);
      ExtendFits(WrapWords(init, measure, lineLength), w, init != [], measure, lineLength);
    }
  }

  /** Replacing the last line by one with the same first word keeps every
      line break justified. */
  lemma BreaksAfterGrowingLast(lines: seq<string>, grown: string, measure: string -> real, lineLength: int)
    requires |lines| >= 1
    requires forall i :: 0 <= i < |lines| - 1 ==> BreaksBefore(lines, i, measure, lineLength)
    requires |lines| >= 2 ==> Split(lines[|lines| - 1]) != [] && Split(grown) != []
                              && Split(grown)[0] == Split(lines[|lines| - 1])[0]
    ensures var r := lines[..|lines| - 1] + [grown];
      forall i :: 0 <= i < |r| - 1 ==> BreaksBefore(r, i, measure, lineLength)
  {
    var k := |lines| - 1;
    var r := lines[..k] + [grown];
    forall i | 0 <= i < |r| - 1 ensures BreaksBefore(r, i, measure, lineLength) {
      assert BreaksBefore(lines, i, measure, lineLength);
      assert r[i] == lines[i];
      if i + 1 < k {
        assert r[i + 1] == lines[i + 1];
      } else {
        assert r[i + 1] == grown;
      }
    }
  }

  /** Starting a new line with a word that did not fit behind the last line
      keeps every line break justified. */
  lemma BreaksAfterNewLine(lines: seq<string>, word: string, measure: string -> real, lineLength: int)
    requires |lines| >= 1
    requires forall i :: 0 <= i < |lines| - 1 ==> BreaksBefore(lines, i, measure, lineLength)
    requires Split(word) == [word]
    requires measure(Strip(lines[|lines| - 1] + " " + word)) > lineLength as real
    ensures var r := lines + [word];
      forall i :: 0 <= i < |r| - 1 ==> BreaksBefore(r, i, measure, lineLength)
  {
    var r := lines + [word];
    forall i | 0 <= i < |r| - 1 ensures BreaksBefore(r, i, measure, lineLength) {
      assert r[i] == lines[i];
      if i < |lines| - 1 {
        assert BreaksBefore(lines, i, measure, lineLength);
        assert r[i + 1] == lines[i + 1];
      }
    }
  }

  lemma ExtendGreedy(lines: seq<string>, word: string, placed: bool, measure: string -> real, lineLength: int)
    requires Shaped(lines, placed) && IsWord(word)
    requires forall i :: 0 <= i < |lines| - 1 ==> BreaksBefore(lines, i, measure, lineLength)
    ensures var r := Extend(lines, word, measure, lineLength);
      forall i :: 0 <= i < |r| - 1 ==> BreaksBefore(r, i, measure, lineLength)
  {
    ExtendByGrow(lines, word, measure, lineLength);
    StripSpaceWord(lines[|lines| - 1], word);
    var k := |lines| - 1;
    var grown := Grow(lines[k], word);
    GrowShape(lines[k], word);
    SplitWord(word);
    if measure(grown) <= lineLength as real {
      if k > 0 {
        assert lines[k] != "" && !IsSpace(lines[k][0]);
        assert Split(lines[k]) != [];
      }
      BreaksAfterGrowingLast(lines, grown, measure, lineLength);
    } else {
      BreaksAfterNewLine(lines, word, measure, lineLength);
    }
  }

  /** The wrap is greedy: each line is followed by one that begins with the word
      which did not fit at the end of it. */
  lemma {:induction false} WrapGreedy(words: seq<string>, measure: string -> real, lineLength: int)
    requires AllWords(words)
    ensures var lines := WrapWords(words, measure, lineLength);
      forall i :: 0 <= i < |lines| - 1 ==> BreaksBefore(lines, i, measure, lineLength)
    decreases |words|
  {
    if words != [] {
      WrapWordsStep(words, measure, lineLength);
      var init := words[..|words| - 1];
      WrapGreedy(init, measure, lineLength);
      WrapShape(init, measure, lineLength);
      ExtendGreedy(WrapWords(init, measure, lineLength), words[|words| - 1], init != [], measure, lineLength);
    }
  }

  /** The quirk of the first line: it stays empty exactly when the first word
      alone measures more than `lineLength`. */
  lemma {:induction false} WrapFirstLine(words: seq<string>, measure: string -> real, lineLength: int)
    requires AllWords(words) && words != []
    ensures var lines := WrapWords(words, measure, lineLength);
      lines[0] == "" <==> measure(words[0]) > lineLength as real
    decreases |words|
  {
    WrapWordsStep(words, measure, lineLength);
    var init, w := words[..|words| - 1], words[|words| - 1];
    WrapShape(init, measure, lineLength);
    var lines := WrapWords(init, measure, lineLength);
    ExtendByGrow(lines, w, measure, lineLength);
    if init == [] {
      assert lines == [""];
    } else {
      WrapFirstLine(init, measure, lineLength);
      assert init[0] == words[0];
      GrowShape(lines[|lines| - 1], w);
    }
  }

  /** `get_wrapped_text(text).split()` is `text.split()`. */
  lemma WrappedTextKeepsWords(text: string, measure: string -> real, lineLength: int)
    ensures Split(WrappedText(text, measure, lineLength)) == Split(text)
  {
    SplitYieldsWords(text);
    WrapKeepsWords(Split(text), measure, lineLength);
    SplitJoin(WrapWords(Split(text), measure, lineLength), '\n');
  }

  /** `get_wrapped_text` (mastoinky.py:84-92), with the loop over the words. */
  method GetWrappedText(text: string, measure: string -> real, lineLength: int) returns (wrapped: string)
    ensures wrapped == WrappedText(text, measure, lineLength)
    ensures Split(wrapped) == Split(text)
  {
    var words := Split(text);
    var lines := [""];
    for i := 0 to |words|
      invariant lines == WrapWords(words[..i], measure, lineLength)
    {
      assert words[..i + 1][..i] == words[..i];
      var line := Strip(lines[|lines| - 1] + " " + words[i]);
      if measure(line) <= lineLength as real {
        lines := lines[..|lines| - 1] + [line];
      } else {
        lines := lines + [words[i]];
      }
    }
    assert words[..|words|] == words;
    wrapped := Join(lines, '\n');
    WrappedTextKeepsWords(text, measure, lineLength);
  }

  const MaxFontSize: int := 20
  const MinFontSize: int := 2

  /** The caption wrapped at `size` is strictly lower than the text box. */
  predicate Fits(text: string, measureAt: int -> (string -> real), textHeight: (int, string) -> int,
                 textboxWidth: int, textboxHeight: int, size: int)
  {
    textHeight(size, WrappedText(text, measureAt(size), textboxWidth)) < textboxHeight
  }

  /** `find_font_size` (mastoinky.py:96-108): counts the size down from 20 and
      stops at the first size that fits; when none does, the loop ends on 2. */
  method FindFontSize(text: string, measureAt: int -> (string -> real), textHeight: (int, string) -> int,
                      textboxWidth: int, textboxHeight: int)
    returns (size: int, wrapped: string)
    ensures MinFontSize <= size <= MaxFontSize
    ensures wrapped == WrappedText(text, measureAt(size), textboxWidth)
    ensures Fits(text, measureAt, textHeight, textboxWidth, textboxHeight, size) || size == MinFontSize
    ensures forall s :: size < s <= MaxFontSize ==> !Fits(text, measureAt, textHeight, textboxWidth, textboxHeight, s)
  {
    size := MaxFontSize;
    while true
      invariant MinFontSize <= size <= MaxFontSize
      invariant forall s :: size < s <= MaxFontSize ==> !Fits(text, measureAt, textHeight, textboxWidth, textboxHeight, s)
      decreases size
    {
      wrapped := GetWrappedText(text, measureAt(size), textboxWidth);
      var height := textHeight(size, wrapped);
      if height < textboxHeight || size == MinFontSize {
        break;
      }
      size := size - 1;
    }
  }
}
