/** The scrolling list view: which line is selected, which line is at the
    top of the screen, and which line each screen row shows. */
module Views {
  import opened Prelude
  import opened Annotated
  import opened Services
  import opened Highlighting
  import opened Buffers
  import opened TuiStatuses
  import opened UiComponents

  /** What a search remembers to restore afterwards, and its query. */
  datatype SearchInfo = SearchInfo(prevLocation: USize, prevScrollOffset: USize, query: Option<string>)

  /** Line `line` is on screen when the top line is `offset` and `height` rows are shown. */
  predicate Visible(line: nat, offset: nat, height: nat)
  {
    offset <= line < offset + height
  }

  /** Whether `scroll(to)` moves the view. */
  predicate ScrollMoves(offset: USize, height: USize, to: USize)
  {
    to < offset || to >= SatAdd(offset, height)
  }

  /** The top line after `scroll(to)`, as the source computes it: up to the
      target when it lies above the view, and to `to + height + 1`
      (saturating) when it lies below. */
  function ScrolledOffset(offset: USize, height: USize, to: USize): (r: USize)
    ensures to < offset ==> r == to
    ensures !ScrollMoves(offset, height, to) ==> r == offset
    ensures to >= SatAdd(offset, height) && to < USIZE_MAX ==> to < r
  {
    if to < offset then to
    else if to >= SatAdd(offset, height) then SatAdd(SatAdd(to, height), 1)
    else offset
  }

  /** Scrolling up brings the target to the top row. */
  lemma ScrollUpShowsTarget(offset: USize, height: USize, to: USize)
    requires to < offset && height > 0
    ensures ScrolledOffset(offset, height, to) == to && Visible(to, to, height)
  {
  }

  /** A target that is already on screen leaves the view where it is (for a
      view whose rows all have `usize` indices). */
  lemma ScrollKeepsVisibleTarget(offset: USize, height: USize, to: USize)
    requires Visible(to, offset, height) && offset + height <= USIZE_MAX
    ensures !ScrollMoves(offset, height, to) && ScrolledOffset(offset, height, to) == offset
  {
  }

  /** Scrolling down as written puts the top line past the target, so the
      target is never on screen afterwards. */
  lemma ScrollDownAsWrittenHidesTarget(offset: USize, height: USize, to: USize)
    requires to >= SatAdd(offset, height) && to < USIZE_MAX
    ensures !Visible(to, ScrolledOffset(offset, height, to), height)
  {
  }

  /** With the top line at 0 and 3 rows, scrolling to line 5 moves the top
      to line 9, and line 5 is not shown. */
  lemma ScrollDownExample()
    ensures ScrolledOffset(0, 3, 5) == 9 && !Visible(5, 9, 3)
  {
  }

  /** The evidently intended scroll: below the view, the target becomes the
      bottom row (`to - height + 1`). */
  function CorrectedScrolledOffset(offset: USize, height: USize, to: USize): (r: USize)
  {
    if to < offset then to
    else if to >= SatAdd(offset, height) then SatAdd(SatSub(to, height), 1)
    else offset
  }

  /** The corrected scroll always shows its target and moves the view only
      as far as needed: a target below the view ends on the bottom row. */
  lemma CorrectedScrollShowsTarget(offset: USize, height: USize, to: USize)
    requires height > 0
    ensures Visible(to, CorrectedScrolledOffset(offset, height, to), height)
    ensures to >= SatAdd(offset, height) ==> CorrectedScrolledOffset(offset, height, to) + height == to + 1
    ensures Visible(to, offset, height) && offset + height <= USIZE_MAX ==> CorrectedScrolledOffset(offset, height, to) == offset
  {
  }

  /** The selected line 6 of a 3-row view at the top: the corrected scroll
      moves the top to line 4, which shows lines 4, 5 and 6. */
  lemma CorrectedScrollExample()
    ensures CorrectedScrolledOffset(0, 3, 6) == 4 && Visible(6, 4, 3)
  {
  }

  /** The line shown on screen row `row` of a view drawn from `origin`. */
  function LineAtRow(row: nat, origin: nat, offset: USize): (r: USize)
    ensures origin <= row && row - origin + offset <= USIZE_MAX ==> r == row - origin + offset
  {
    SatAdd(SatSub(row, origin), offset)
  }

  /** A screen row of the view: a line with its highlight annotations, or
      the "~" filler past the end of the list. */
  datatype ScreenRow = LineRow(text: string, annotations: seq<Annotation>) | FillerRow

  /** What the row showing line `lineIdx` contains. */
  function RowFor(lines: seq<Service>, lineIdx: nat, query: Option<string>, location: nat,
                  highlightSelectedLine: bool): ScreenRow
  {
    if lineIdx < |lines| then
      LineRow(lines[lineIdx].line, LineAnnotations(query, location, lineIdx, lines[lineIdx], highlightSelectedLine))
    else FillerRow
  }

  /** The first `n` rows of a view drawn from `origin` with top line `offset`. */
  function RowsFor(lines: seq<Service>, origin: nat, offset: USize, query: Option<string>, location: nat,
                   highlightSelectedLine: bool, n: nat): (r: seq<ScreenRow>)
    ensures |r| == n
    ensures forall k :: 0 <= k < n ==>
              r[k] == RowFor(lines, LineAtRow(origin + k, origin, offset), query, location, highlightSelectedLine)
  {
    if n == 0 then []
    else RowsFor(lines, origin, offset, query, location, highlightSelectedLine, n - 1)
         + [RowFor(lines, LineAtRow(origin + n - 1, origin, offset), query, location, highlightSelectedLine)]
  }

  /** When the selected line is on screen, the cursor row shows it. */
  lemma CursorRowShowsLocation(location: USize, offset: USize, height: USize, origin: USize)
    requires Visible(location, offset, height)
    ensures origin <= origin + SatSub(location, offset) < origin + height
    ensures LineAtRow(origin + SatSub(location, offset), origin, offset) == location
  {
  }

  class View {
    const buffer: Buffer
    var needsRedraw: bool
    var size: Size
    var location: USize
    var scrollOffset: USize
    var searchInfo: Option<SearchInfo>

    /** A default view after a successful `load`: the loaded buffer, marked
        for redraw, first line selected and at the top. */
    constructor Loaded(buffer: Buffer)
      ensures this.buffer == buffer && needsRedraw && size == Size(0, 0)
      ensures location == 0 && scrollOffset == 0 && searchInfo == None
    {
      this.buffer := buffer;
      needsRedraw := true;
      size := Size(0, 0);
      location := 0;
      scrollOffset := 0;
      searchInfo := None;
    }

    /** The status to report: the number of lines and the selected line. */
    function GetStatus(): (r: TuiStatus)
      reads this, buffer
      ensures r.totalLines == buffer.Height() && r.currentLineIdx == location
    {
      TuiStatus(buffer.Height(), location)
    }

    /** Moves the top line so as to bring line `to` into view (as written,
        see `ScrolledOffset`); marks a redraw only when the top line moves. */
    method Scroll(to: USize)
      modifies this
      ensures scrollOffset == ScrolledOffset(old(scrollOffset), size.height, to)
      ensures needsRedraw == (old(needsRedraw) || ScrollMoves(old(scrollOffset), size.height, to))
      ensures size == old(size) && location == old(location) && searchInfo == old(searchInfo)
    {
      var height := size.height;
      var offsetChanged;
      if to < scrollOffset {
        scrollOffset := to;
        offsetChanged := true;
      } else if to >= SatAdd(scrollOffset, height) {
        scrollOffset := SatAdd(SatAdd(to, height), 1);
        offsetChanged := true;
      } else {
        offsetChanged := false;
      }
      if offsetChanged {
        needsRedraw := true;
      }
    }

    /** The row of the selected line: the line index itself. */
    function LocationToPosition(): (r: USize)
      reads this
      ensures r == location
    {
      location
    }

    /** Scrolls the selected line into view. */
    method ScrollLocationIntoView()
      modifies this
      ensures scrollOffset == ScrolledOffset(old(scrollOffset), size.height, location)
      ensures needsRedraw == (old(needsRedraw) || ScrollMoves(old(scrollOffset), size.height, location))
      ensures size == old(size) && location == old(location) && searchInfo == old(searchInfo)
    {
      Scroll(LocationToPosition());
    }

    /** The screen row of the cursor relative to the view: the selected
        line minus the top line, 0 when the selected line is above it. */
    function CursorPosition(): (r: USize)
      reads this
      ensures scrollOffset <= location ==> r + scrollOffset == location
      ensures location < scrollOffset ==> r == 0
    {
      SatSub(LocationToPosition(), scrollOffset)
    }

    /** `set_size`: stores the size and scrolls the selected line into view. */
    method SetSize(newSize: Size)
      modifies this
      ensures size == newSize
      ensures scrollOffset == ScrolledOffset(old(scrollOffset), newSize.height, location)
      ensures needsRedraw == (old(needsRedraw) || ScrollMoves(old(scrollOffset), newSize.height, location))
      ensures location == old(location) && searchInfo == old(searchInfo)
    {
      size := newSize;
      ScrollLocationIntoView();
    }

    /** The shared `resize`: set the size, then mark for redraw. */
    method Resize(newSize: Size)
      modifies this
      ensures size == newSize && needsRedraw
      ensures scrollOffset == ScrolledOffset(old(scrollOffset), newSize.height, location)
      ensures location == old(location) && searchInfo == old(searchInfo)
    {
      SetSize(newSize);
      needsRedraw := true;
    }

    /** The query of the current search: none without a search, the
        search's own (possibly absent) query during one. */
    function Query(): (r: Option<string>)
      reads this
      ensures searchInfo.None? ==> r.None?
      ensures searchInfo.Some? ==> r == searchInfo.value.query
    {
      if searchInfo.Some? then searchInfo.value.query else None
    }

    /** What `draw` puts on the rows `origin ..< origin + height`: first every
        line up to the last one that can be shown is highlighted, then row
        `origin + k` shows line `k + scrollOffset` with its annotations, or
        "~" past the end of the list. `highlightSelectedLine` is the flag that
        the highlighting pass hands to `Buffer::highlight`. */
    method Draw(origin: USize, highlightSelectedLine: bool) returns (rows: seq<ScreenRow>)
      requires buffer.Height() < USIZE_MAX  // a list never holds `usize::MAX` lines
      ensures |rows| == SatAdd(origin, size.height) - origin
      ensures forall k :: 0 <= k < |rows| ==>
                rows[k] == RowFor(buffer.ActiveCollection(), LineAtRow(origin + k, origin, scrollOffset),
                                  Query(), location, highlightSelectedLine)
    {
      var endY := SatAdd(origin, size.height);
      var highlighter := new Highlighter(Query(), location);
      var highlightEnd := SatAdd(endY, scrollOffset);
      HighlightLines(buffer, highlighter, highlightEnd, highlightSelectedLine);
      rows := ShownRows(buffer, highlighter, origin, endY, scrollOffset, highlightEnd, highlightSelectedLine);
    }

    /** The highlighting pass of `draw`: lines `0 ..< upTo` that exist. */
    static method HighlightLines(buffer: Buffer, highlighter: Highlighter, upTo: nat, highlightSelectedLine: bool)
      requires highlighter.Valid() && highlighter.highlights == map[]
      modifies highlighter
      ensures highlighter.Valid()
      ensures forall k: nat :: k in highlighter.highlights <==> k < upTo && k < buffer.Height()
      ensures forall k: nat :: k in highlighter.highlights ==>
                k < |buffer.ActiveCollection()| && highlighter.highlights[k] == LineAnnotations(highlighter.matchedWord, highlighter.location, k,
                                                             buffer.ActiveCollection()[k], highlightSelectedLine)
    {
      for currentRow := 0 to upTo
        invariant highlighter.Valid()
        invariant forall k: nat :: k in highlighter.highlights <==> k < currentRow && k < buffer.Height()
        invariant forall k: nat :: k in highlighter.highlights ==>
                    highlighter.highlights[k] == LineAnnotations(highlighter.matchedWord, highlighter.location, k,
                                                                 buffer.ActiveCollection()[k], highlightSelectedLine)
      {
        buffer.Highlight(currentRow, highlighter, highlightSelectedLine);
      }
    }

    /** The row loop of `draw`, over a highlighter that holds every line
        below `highlightEnd`. */
    static method ShownRows(buffer: Buffer, highlighter: Highlighter, origin: USize, endY: USize, offset: USize,
                            highlightEnd: USize, highlightSelectedLine: bool) returns (rows: seq<ScreenRow>)
      requires highlighter.Valid() && origin <= endY && buffer.Height() < USIZE_MAX
      requires highlightEnd == SatAdd(endY, offset)
      requires forall k: nat :: k < highlightEnd && k < buffer.Height() ==>
                 k in highlighter.highlights &&
                 highlighter.highlights[k] == LineAnnotations(highlighter.matchedWord, highlighter.location, k,
                                                              buffer.ActiveCollection()[k], highlightSelectedLine)
      ensures rows == RowsFor(buffer.ActiveCollection(), origin, offset, highlighter.matchedWord,
                              highlighter.location, highlightSelectedLine, endY - origin)
    {
      rows := [];
      for currentRow := origin to endY
        invariant rows == RowsFor(buffer.ActiveCollection(), origin, offset, highlighter.matchedWord,
                                  highlighter.location, highlightSelectedLine, currentRow - origin)
      {
        var lineIdx := LineAtRow(currentRow, origin, offset);
        assert lineIdx < buffer.Height() ==> lineIdx < highlightEnd;
        var row := RowOf(buffer, highlighter, lineIdx, highlightSelectedLine);
        rows := rows + [row];
      }
    }

    /** One row of `draw`: the highlighted line `lineIdx`, or "~". */
    static method RowOf(buffer: Buffer, highlighter: Highlighter, lineIdx: nat, highlightSelectedLine: bool)
      returns (row: ScreenRow)
      requires highlighter.Valid()
      requires lineIdx < buffer.Height() ==>
                 lineIdx in highlighter.highlights &&
                 highlighter.highlights[lineIdx] == LineAnnotations(highlighter.matchedWord, highlighter.location, lineIdx,
                                                                    buffer.ActiveCollection()[lineIdx], highlightSelectedLine)
      ensures row == RowFor(buffer.ActiveCollection(), lineIdx, highlighter.matchedWord, highlighter.location,
                            highlightSelectedLine)
    {
      var annotated := buffer.GetHighlightedString(lineIdx, highlighter);
      row := if annotated.Some? then LineRow(annotated.value.text, annotated.value.annotations) else FillerRow;
    }

    /** The shared `render`, with `drawOk` the outcome that the terminal
        output of `draw` would have. Returns the rows drawn, if `draw` was
        called. */
    method Render(origin: USize, highlightSelectedLine: bool, drawOk: bool) returns (drawn: Option<seq<ScreenRow>>)
      requires buffer.Height() < USIZE_MAX
      modifies this
      ensures drawn.Some? <==> old(needsRedraw)
      ensures drawn.Some? ==> |drawn.value| == SatAdd(origin, size.height) - origin
      ensures drawn.Some? ==>
                forall k :: 0 <= k < |drawn.value| ==>
                  drawn.value[k] == RowFor(buffer.ActiveCollection(), LineAtRow(origin + k, origin, scrollOffset),
                                           Query(), location, highlightSelectedLine)
      ensures needsRedraw == RenderedFlag(old(needsRedraw), drawOk)
      ensures size == old(size) && location == old(location) && scrollOffset == old(scrollOffset)
      ensures searchInfo == old(searchInfo)
    {
      if needsRedraw {
        var rows := Draw(origin, highlightSelectedLine);
        drawn := Some(rows);
        if drawOk {
          needsRedraw := false;
        }
      } else {
        drawn := None;
      }
    }
  }
}
