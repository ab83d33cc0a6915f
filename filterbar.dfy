/** The one-line text entry in which the user types a filter query, shown
    after a "> " prompt. */
module FilterBars {
  import opened Prelude
  import opened Commands
  import opened UiComponents

  /** The prompt drawn before the value. */
  const PROMPT: string := "> "

  /** The value after one edit command: a character is appended, a backward
      delete drops the last character (nothing on an empty value), and the
      other edits leave the value alone. */
  function EditedValue(value: string, command: Edit): (r: string)
    ensures command.Insert? ==> r == value + [command.ch]
    ensures command.DeleteBackward? ==> r == if value == [] then [] else value[..|value| - 1]
    ensures command.Delete? || command.InsertNewLine? ==> r == value
  {
    match command
    case Insert(ch) => value + [ch]
    case Delete => value
    case InsertNewLine => value
    case DeleteBackward => if value == [] then [] else value[..|value| - 1]
  }

  /** Deleting backward undoes an insertion. */
  lemma InsertThenDeleteBackward(value: string, ch: char)
    ensures EditedValue(EditedValue(value, Insert(ch)), DeleteBackward) == value
  {
    assert (value + [ch])[..|value|] == value;
  }

  /** Every edit changes the length by at most one character. */
  lemma EditChangesLengthByAtMostOne(value: string, command: Edit)
    ensures |value| - 1 <= |EditedValue(value, command)| <= |value| + 1
    ensures |EditedValue(value, command)| <= |value| ==> EditedValue(value, command) == value[..|EditedValue(value, command)|]
  {
  }

  /** What `draw` prints: the prompt and the value when they fit the width,
      an empty row otherwise. */
  function FilterText(value: string, width: nat): (r: string)
    ensures |PROMPT + value| <= width ==> r == PROMPT + value
    ensures |PROMPT + value| > width ==> r == []
    ensures |r| <= width
  {
    var message := PROMPT + value;
    if |message| <= width then message else []
  }

  /** Where the caret goes: after the prompt and the value, at most at the
      right edge. The prompt-plus-value length saturates, as `usize` does. */
  function CaretColumn(value: string, width: nat): (r: nat)
    ensures r <= width
    ensures r <= |PROMPT| + |value|
    ensures r == width || r == SatAdd(|PROMPT|, |value|)
  {
    Min(SatAdd(|PROMPT|, |value|), width)
  }

  /** When the text is drawn, the caret sits just after it. */
  lemma CaretFollowsDrawnText(value: string, width: USize)
    requires FilterText(value, width) != []
    ensures CaretColumn(value, width) == |FilterText(value, width)|
  {
    assert |PROMPT + value| == |PROMPT| + |value|;
  }

  class FilterBar {
    var value: string
    var needsRedraw: bool
    var size: Size

    /** The derived default: empty value, not marked, zero size. */
    constructor ()
      ensures value == [] && !needsRedraw && size == Size(0, 0)
    {
      value := [];
      needsRedraw := false;
      size := Size(0, 0);
    }

    /** Applies one edit command to the value and marks the bar for redraw. */
    method HandleEditCommand(command: Edit)
      modifies this
      ensures value == EditedValue(old(value), command)
      ensures needsRedraw && size == old(size)
    {
      match command {
        case Insert(ch) =>
          value := value + [ch];
        case Delete =>
        case InsertNewLine =>
        case DeleteBackward =>
          if value != [] {
            value := value[..|value| - 1];
          }
      }
      needsRedraw := true;
    }

    /** `caret_position_col`: the column after the prompt and the value,
        kept inside the bar. */
    function CaretPositionCol(): (r: nat)
      reads this
      ensures r <= size.width && r <= |PROMPT| + |value|
      ensures |PROMPT| + |value| <= size.width ==> r == |PROMPT| + |value|
      ensures |PROMPT| + |value| > size.width ==> r == size.width
    {
      CaretColumn(value, size.width)
    }

    /** A copy of the current value. */
    function Value(): (r: string)
      reads this
      ensures r == value
    {
      value
    }

    /** Empties the value and marks the bar for redraw. */
    method ClearValue()
      modifies this
      ensures value == [] && needsRedraw && size == old(size)
    {
      value := [];
      needsRedraw := true;
    }

    /** `set_size`: stores the size and nothing else. */
    method SetSize(newSize: Size)
      modifies this
      ensures size == newSize && value == old(value) && needsRedraw == old(needsRedraw)
    {
      size := newSize;
    }

    /** The shared `resize`: set the size, then mark for redraw. */
    method Resize(newSize: Size)
      modifies this
      ensures size == newSize && value == old(value) && needsRedraw
    {
      SetSize(newSize);
      needsRedraw := true;
    }

    /** The shared `render`, with `drawOk` the outcome that `draw` would
        have. Returns the text drawn, if `draw` was called. */
    method Render(drawOk: bool) returns (drawn: Option<string>)
      modifies this
      ensures drawn.Some? <==> old(needsRedraw)
      ensures drawn.Some? ==> drawn.value == FilterText(value, size.width)
      ensures needsRedraw == RenderedFlag(old(needsRedraw), drawOk)
      ensures value == old(value) && size == old(size)
    {
      if needsRedraw {
        drawn := Some(FilterText(value, size.width));
        if drawOk {
          needsRedraw := false;
        }
      } else {
        drawn := None;
      }
    }
  }
}
