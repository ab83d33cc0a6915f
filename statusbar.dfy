/** The status row: a mode text on the left and the position indicator
    right-aligned in the remaining width, printed only when it fits. */
module StatusBars {
  import opened Prelude
  import opened TuiStatuses
  import opened UiComponents

  function Spaces(n: nat): (r: string)
    ensures |r| == n && forall i :: 0 <= i < n ==> r[i] == ' '
  {
    seq(n, _ => ' ')
  }

  /** `format!("{s:>w$}")`: `s` right-aligned in a field of `w` characters,
      padded with spaces on the left; never truncated. */
  function PadLeft(s: string, w: nat): (r: string)
    ensures |r| == Max(w, |s|)
    ensures r[|r| - |s|..] == s
    ensures forall i :: 0 <= i < |r| - |s| ==> r[i] == ' '
  {
    if |s| < w then Spaces(w - |s|) + s else s
  }

  /** The status line `draw` composes: the mode text followed by the
      indicator right-aligned in the width the mode text leaves (none when
      the mode text alone is wider than the row). */
  function StatusText(modeText: string, indicator: string, width: nat): (r: string)
    ensures |r| == |modeText| + Max(SatSub(width, |modeText|), |indicator|)
    ensures r[..|modeText|] == modeText && r[|r| - |indicator|..] == indicator
    ensures forall i :: |modeText| <= i < |r| - |indicator| ==> r[i] == ' '
  {
    modeText + PadLeft(indicator, SatSub(width, |modeText|))
  }

  /** The status line fits the row exactly when the mode text and the bare
      indicator together fit it; it then fills the row, with the indicator
      flush right. */
  lemma StatusFits(modeText: string, indicator: string, width: nat)
    ensures |StatusText(modeText, indicator, width)| <= width <==> |modeText| + |indicator| <= width
    ensures |modeText| + |indicator| <= width ==> |StatusText(modeText, indicator, width)| == width
  {
  }

  /** What `draw` prints: the status line when it fits the row, an empty
      row otherwise. */
  function PrintedStatus(modeText: string, status: TuiStatus, width: nat): (r: string)
    ensures |modeText| + |PositionIndicator(status)| <= width ==>
              r == StatusText(modeText, PositionIndicator(status), width) && |r| == width
    ensures |modeText| + |PositionIndicator(status)| > width ==> r == []
  {
    var indicator := PositionIndicator(status);
    var text := StatusText(modeText, indicator, width);
    StatusFits(modeText, indicator, width);
    if |text| <= width then text else []
  }

  class StatusBar {
    var currentStatus: TuiStatus
    var needsRedraw: bool
    var size: Size

    /** The derived default: the default status, not marked, zero size. */
    constructor ()
      ensures currentStatus == DEFAULT_STATUS && !needsRedraw && size == Size(0, 0)
    {
      currentStatus := DEFAULT_STATUS;
      needsRedraw := false;
      size := Size(0, 0);
    }

    /** Takes a new status; only a different one replaces the current one
        and marks the bar for redraw. */
    method UpdateStatus(newStatus: TuiStatus)
      modifies this
      ensures currentStatus == newStatus && size == old(size)
      ensures newStatus == old(currentStatus) ==> needsRedraw == old(needsRedraw)
      ensures newStatus != old(currentStatus) ==> needsRedraw
    {
      if newStatus != currentStatus {
        currentStatus := newStatus;
        needsRedraw := true;
      }
    }

    /** `set_size`: stores the size and nothing else. */
    method SetSize(newSize: Size)
      modifies this
      ensures size == newSize && currentStatus == old(currentStatus) && needsRedraw == old(needsRedraw)
    {
      size := newSize;
    }

    /** The shared `resize`: set the size, then mark for redraw. */
    method Resize(newSize: Size)
      modifies this
      ensures size == newSize && currentStatus == old(currentStatus) && needsRedraw
    {
      SetSize(newSize);
      needsRedraw := true;
    }

    /** The shared `render`, with `drawOk` the outcome that `draw` would
        have and `modeText` the mode's text. Returns the text drawn, if
        `draw` was called. */
    method Render(modeText: string, drawOk: bool) returns (drawn: Option<string>)
      modifies this
      ensures drawn.Some? <==> old(needsRedraw)
      ensures drawn.Some? ==> drawn.value == PrintedStatus(modeText, currentStatus, size.width)
      ensures needsRedraw == RenderedFlag(old(needsRedraw), drawOk)
      ensures currentStatus == old(currentStatus) && size == old(size)
    {
      var text := PrintedStatus(modeText, currentStatus, size.width);
      if needsRedraw {
        drawn := Some(text);
        if drawOk {
          needsRedraw := false;
        }
      } else {
        drawn := None;
      }
    }
  }
}
