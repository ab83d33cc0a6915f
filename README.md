# systemctl-manager viewer core in Dafny

This project models the text and list engine of a terminal viewer for
systemd services.

- **Annotated string.** A byte string carries tagged half-open ranges, the
  annotations. Replacing a byte range splices the text and moves, clamps or
  drops every annotation bound.
- **Service list.** The buffer holds the listed services and an optional
  filtered view. Filtering keeps the lines that start with the query.
- **Cyclic search.** Searching goes forward or backward from a line, wrapping
  around once.
- **Highlighter.** It computes the match annotations of every line. On the
  selected line it also marks the stretches between matches as `Selected`.
- **Scrolling view.** The view tracks the selected line and the line at the
  top of the screen. Each screen row maps to the line it shows.
- **Small state machines.**
  - the filter bar's text entry;
  - the status bar with its "current/total" indicator;
  - the redraw protocol the components share;
  - the classification of key and resize events into commands;
  - saturating position arithmetic.

Each Rust type whose fields change in place is a Dafny `class`. Its methods
carry `modifies` clauses, and their postconditions tie the new state to a
specification function of the old state. The loops of the source stay loops:

- remapping and retaining annotations;
- filtering;
- both searches;
- building the match list;
- the selected-line gap loop;
- the highlighting and row passes of `draw`.

Pure code becomes functions. Lemmas state the properties that relate several
calls or hold for all inputs.

Modelling choices:

- **`usize`** values are unbounded `nat`s. Every saturating operation of the
  source is written out, as `SatAdd`/`SatSub` up to `USIZE_MAX = 2^64 - 1`,
  with three exceptions. These are written as plain `+` because the sum is
  bounded by a length and cannot saturate:
  - `Services.Shift`, the offset `rel + start` in `find_all`;
  - the match end `start + len(word)` in `Highlighting.MatchAnnotations`;
  - the index increment `annotation_idx + 1` in `Highlighting.GapsAsWritten`.
- **Sizes** (`Size`) use the bounded `USize` type.
- **Strings** are sequences of characters, one per byte, which is ASCII text.
- **Filtering** matches the query against the whole listing line,
  `line.starts_with(query)` in `src/tui/uicomponents/view/buffer.rs:82-84`.
  It does not match against the unit name alone. The model follows the code.

Modules, one file each:

| module | file |
|---|---|
| `Prelude` | prelude.dfy |
| `Annotated` | annotatedstring.dfy |
| `Services` | service.dfy |
| `Highlighting` | highlighter.dfy |
| `Buffers` | buffer.dfy |
| `Views` | view.dfy |
| `FilterBars` | filterbar.dfy |
| `StatusBars` | statusbar.dfy |
| `UiComponents` | uicomponent.dfy |
| `TuiStatuses` | tuistatus.dfy |
| `Commands` | command.dfy |

## Model

| member | source | states |
|---|---|---|
| `Prelude.SaturatingSub` | src/prelude/position.rs:10-15 | each component is its own difference floored at 0, and is at most the original component |
| `Prelude.SaturatingSubSelf` | src/prelude/position.rs:10-15 | a position minus itself is the origin |
| `Prelude.SaturatingSubOrigin` | src/prelude/position.rs:3-15 | subtracting the default position changes nothing |
| `Prelude.SaturatingSubComponentwise` | src/prelude/position.rs:12-13 | the result's row depends only on the rows, its column only on the columns |
| `Annotated.AnnotatedString.From` | src/tui/annotatedstring.rs:39-44 | the text is the given string and there are no annotations |
| `Annotated.AnnotatedString.ToString` | src/tui/annotatedstring.rs:20-24 | the displayed form is the text, byte for byte |
| `Annotated.AnnotatedString.AddAnnotation` | src/tui/annotatedstring.rs:46-59 | exactly one annotation is appended; the text and the earlier annotations are unchanged |
| `Annotated.ReplacedText` | src/tui/annotatedstring.rs:71 | the spliced text keeps the bytes before the range, has the replacement in the middle and the bytes after the range at the end, and its length changes by the difference |
| `Annotated.AnnotatedString.Replace` | src/tui/annotatedstring.rs:61-118 | `end` is clamped to the text; `start > end` changes nothing; otherwise the text is spliced and the annotations are remapped and filtered; annotations that were inside the text stay inside it |
| `Annotated.AnnotatedString.RemapInPlace` | src/tui/annotatedstring.rs:81-113 | the loop rewrites both bounds of every annotation, as `RemapAll` describes |
| `Annotated.AnnotatedString.RetainKept` | src/tui/annotatedstring.rs:115-117 | the loop computes `Retained` of the old list: exactly the non-empty annotations that start inside the text, every copy, in their original order |
| `Annotated.RemapBound` | src/tui/annotatedstring.rs:82-112 | a bound before the edit stays put; a bound inside the edit stays inside the edited span; a bound after the edit moves by the length change |
| `Annotated.ReplacedAnnotations` | src/tui/annotatedstring.rs:61-117 | never more annotations than before; unchanged when `start` lies past the clamped end, or for a same-length replacement; otherwise every survivor is non-empty and starts inside the new text |
| `Annotated.RemapAll` | src/tui/annotatedstring.rs:81-113 | every annotation is remapped, the count and order stay the same |
| `Annotated.Retained` | src/tui/annotatedstring.rs:115-117 | a kept annotation is non-empty and starts inside the text; every such annotation of the input is kept; nothing else is added |
| `Annotated.RetainedCounts` | src/tui/annotatedstring.rs:115-117 | each kept annotation appears as often as in the input, any other not at all |
| `Annotated.RetainedIsSubsequence` | src/tui/annotatedstring.rs:115-117 | the survivors keep their original order: the result is a subsequence of the input |
| `Annotated.SameLengthReplaceKeepsAnnotations` | src/tui/annotatedstring.rs:73-79 | a replacement of the same length leaves the annotation list exactly as it was |
| `Annotated.LengthChangingReplaceDropsDegenerate` | src/tui/annotatedstring.rs:81-117 | after a replacement that changes the length, every surviving annotation is non-empty and starts inside the new text |
| `Annotated.RemapBoundWithinText` | src/tui/annotatedstring.rs:81-113 | a bound inside the old text is remapped into the new text |
| `Annotated.RemapBoundMonotone` | src/tui/annotatedstring.rs:81-113 | remapping keeps bounds in order, so a range stays a range |
| `Annotated.ReplacePreservesWithinText` | src/tui/annotatedstring.rs:61-118 | if every annotation was inside the text before `replace`, every annotation is inside it afterwards |
| `Annotated.RemapFollowsUnchangedBytes` | src/tui/annotatedstring.rs:82-87 | a bound before the edit or after its end still points at the same byte after the edit |
| `Annotated.ReplaceAfterAnnotatedWord` | src/tui/annotatedstring.rs:61-118 | replacing "world" in "hello world" with "earth!!" keeps the annotation on "hello" |
| `Annotated.AnnotatedString.TruncateLeftUntil` | src/tui/annotatedstring.rs:120-122 | the text loses its first `until` bytes, and the annotations are those of `replace(0, until, "")` |
| `Annotated.AnnotatedString.TruncateRightFrom` | src/tui/annotatedstring.rs:124-126 | the text is cut to length `from` when `from` is inside it, and is unchanged otherwise; the annotations are those of `replace(from, len, "")` |
| `Services.Len` | src/tui/uicomponents/view/buffer/service.rs:16-18 | the byte length of the line |
| `Services.FirstOccurrence` | src/tui/uicomponents/view/buffer/service.rs:20-32 | the leftmost occurrence at or after a position, or none at all |
| `Services.ExtractName` | src/tui/uicomponents/view/buffer/service.rs:20-24 | the text before the first ".service", or the empty string when the line has none |
| `Services.StartsWith` | src/tui/uicomponents/view/buffer/service.rs:26-28 | byte-exact prefix test |
| `Services.Contains` | src/tui/uicomponents/view/buffer/service.rs:30-32 | true exactly when the query occurs somewhere in the line |
| `Services.MatchIndices` | src/tui/uicomponents/view/buffer/service.rs:41-45 | every reported position is an occurrence; consecutive positions are at least the pattern length apart (1 for the empty pattern) |
| `Services.MatchIndicesComplete` | src/tui/uicomponents/view/buffer/service.rs:43 | every occurrence of a non-empty pattern is reported or overlaps a reported one |
| `Services.MatchIndicesEmptyPattern` | src/tui/uicomponents/view/buffer/service.rs:43 | the empty pattern is reported at every offset from the start through the end of the text, once each |
| `Services.FindAll` | src/tui/uicomponents/view/buffer/service.rs:34-47 | `end` is clamped to the line; no positions when `start` lies past the clamped end; positions are absolute, lie in the range, are occurrences, and are increasing and non-overlapping |
| `Services.FindAllComplete` | src/tui/uicomponents/view/buffer/service.rs:34-47 | every occurrence of a non-empty query inside `[start, min(end, len))` is reported or overlaps a reported one |
| `Services.FindAllEmptyQuery` | src/tui/uicomponents/view/buffer/service.rs:34-47 | for the empty query, every offset from `start` through the clamped end is reported, once each |
| `Services.GetAnnotatedString` | src/tui/uicomponents/view/buffer/service.rs:49-59 | a fresh annotated string holding the line and exactly the given annotations in order; none for `None` |
| `Highlighting.MatchKind` | src/tui/uicomponents/view/highlighter.rs:28-32 | `SelectedMatch` exactly on the selected line when it is highlighted, `Match` otherwise |
| `Highlighting.MatchAnnotations` | src/tui/uicomponents/view/highlighter.rs:34-47 | none without a non-empty word; otherwise one annotation `[p, p + len(word))` per `find_all` position, in order and inside the line |
| `Highlighting.GapsAsWritten` | src/tui/uicomponents/view/highlighter.rs:54-77 | the gap loop as written: nothing is added once the scan is past the end; it adds at most one gap per remaining match plus one trailing range |
| `Highlighting.LineAnnotations` | src/tui/uicomponents/view/highlighter.rs:25-84 | what `highlight` stores for a line: exactly the `Match` list on any line other than the highlighted selected line, and never fewer annotations than matches |
| `Highlighting.GapsKeepNonSelected` | src/tui/uicomponents/view/highlighter.rs:54-77 | the gap loop only adds `Selected` annotations |
| `Highlighting.LineKeepsMatches` | src/tui/uicomponents/view/highlighter.rs:49-82 | on every line, the non-`Selected` annotations are exactly the match list in order |
| `Highlighting.NoWordNoMatches` | src/tui/uicomponents/view/highlighter.rs:34-36 | without a non-empty word there are no `Match`/`SelectedMatch` annotations |
| `Highlighting.OtherLinesAreMatchesOnly` | src/tui/uicomponents/view/highlighter.rs:49-82 | on a line other than the highlighted selected line, the result is the match list |
| `Highlighting.SelectedLineWithoutMatches` | src/tui/uicomponents/view/highlighter.rs:54-75 | a non-empty selected line without matches gets the single annotation `Selected [0, len)` |
| `Highlighting.GapsOrdered` | src/tui/uicomponents/view/highlighter.rs:56-68 | every gap the loop inserts is an ordered range |
| `Highlighting.LineAnnotationsOrdered` | src/tui/uicomponents/view/highlighter.rs:25-85 | every stored annotation has `start <= end`, the condition `add_annotation` asserts |
| `Highlighting.AsWrittenLeavesByteUncovered` | src/tui/uicomponents/view/highlighter.rs:56-68 | on line "ab" with word "b" the gap is `[0, 0)`, so byte 0 is covered by no annotation |
| `Highlighting.SelectedTilingTiles` | src/tui/uicomponents/view/highlighter.rs:54-77 | the corrected gap loop yields ranges that tile the line from left to right |
| `Highlighting.CorrectedSelectedLineTiles` | src/tui/uicomponents/view/highlighter.rs:49-79 | with corrected gaps, every byte of the selected line is covered, and the ranges are non-empty, disjoint and inside the line |
| `Highlighting.Highlighter.constructor` | src/tui/uicomponents/view/highlighter.rs:17-23 | the word and the selected line are stored, and no line is highlighted yet |
| `Highlighting.Highlighter.Highlight` | src/tui/uicomponents/view/highlighter.rs:25-85 | the entry of line `idx` becomes that line's annotations; other entries are unchanged; re-highlighting overwrites |
| `Highlighting.Highlighter.CollectMatches` | src/tui/uicomponents/view/highlighter.rs:34-47 | the loop builds exactly the match list |
| `Highlighting.Highlighter.FillGaps` | src/tui/uicomponents/view/highlighter.rs:49-79 | the counter-driven loop computes the gap insertion as written |
| `Highlighting.Highlighter.GetAnnotations` | src/tui/uicomponents/view/highlighter.rs:87-89 | `Some` exactly for highlighted lines, holding the stored annotations |
| `Buffers.FilterByPrefix` | src/tui/uicomponents/view/buffer.rs:80-89 | a service is in the result exactly when it is in the list and starts with the query |
| `Buffers.FilterCounts` | src/tui/uicomponents/view/buffer.rs:80-89 | each matching service appears as often as in the list, any other not at all |
| `Buffers.FilterIsSubsequence` | src/tui/uicomponents/view/buffer.rs:80-89 | the filtered view keeps the original order: it is a subsequence of the list |
| `Buffers.FilterNarrows` | src/tui/uicomponents/view/buffer.rs:80-89 | for a longer query extending a shorter one, filtering by it equals filtering the shorter query's result again, and is a subsequence of that result |
| `Buffers.FilterAlphaExample` | src/tui/uicomponents/view/buffer.rs:80-89 | filtering alpha, beta, alphabet by "alpha" gives alpha, alphabet |
| `Buffers.ForwardVisitsAll` | src/tui/uicomponents/view/buffer.rs:108-114 | the `h` steps of the forward scan visit every line |
| `Buffers.BackwardVisitsAll` | src/tui/uicomponents/view/buffer.rs:129-141 | the `h` steps of the backward scan visit every line |
| `Buffers.BackwardSkipVisits` | src/tui/uicomponents/view/buffer.rs:129-141 | the reversed, cycled, skipped iteration visits `min(from, h-1)` first, then downward with wrap-around |
| `Buffers.Buffer.ActiveCollection` | src/tui/uicomponents/view/buffer.rs:20-26 | the filtered view when present, the full list otherwise |
| `Buffers.Buffer.Height` | src/tui/uicomponents/view/buffer.rs:28-30 | the length of the active collection |
| `Buffers.Buffer.Filter` | src/tui/uicomponents/view/buffer.rs:74-90 | an empty query clears the view, so the height is the list length; otherwise the view becomes exactly the matching services in order; the list itself never changes |
| `Buffers.Buffer.SearchForward` | src/tui/uicomponents/view/buffer.rs:103-122 | `None` for an empty query or list; otherwise the first line containing the query in cyclic forward order from `from`, and `None` only if no line contains it |
| `Buffers.Buffer.SearchBackward` | src/tui/uicomponents/view/buffer.rs:124-149 | as `SearchForward`, scanning down from `min(from, h-1)` with wrap-around |
| `Buffers.Buffer.GetHighlightedString` | src/tui/uicomponents/view/buffer.rs:63-71 | `None` exactly when the index is past the end; otherwise the line with its stored annotations |
| `Buffers.Buffer.Highlight` | src/tui/uicomponents/view/buffer.rs:92-101 | highlights the line when it exists and does nothing otherwise |
| `Views.ScrolledOffset` | src/tui/uicomponents/view.rs:41-51 | the top line after `scroll` as written: the target when it is above the view, unchanged when it is on screen, and past the target when it is below |
| `Views.ScrollUpShowsTarget` | src/tui/uicomponents/view.rs:43-45 | scrolling to a line above the view makes it the top line |
| `Views.ScrollKeepsVisibleTarget` | src/tui/uicomponents/view.rs:49-51 | scrolling to a line on screen changes nothing |
| `Views.ScrollDownAsWrittenHidesTarget` | src/tui/uicomponents/view.rs:46-48 | scrolling down as written leaves the target off screen |
| `Views.ScrollDownExample` | src/tui/uicomponents/view.rs:47 | offset 0, height 3, scrolling to line 5 gives offset 9, and line 5 is not shown |
| `Views.CorrectedScrollShowsTarget` | src/tui/uicomponents/view.rs:41-56 | the corrected scroll always shows the target, puts a target from below on the bottom row, and leaves a visible target alone |
| `Views.CorrectedScrollExample` | src/tui/uicomponents/view.rs:46-48 | corrected, scrolling a 3-row view to line 6 gives offset 4 |
| `Views.LineAtRow` | src/tui/uicomponents/view.rs:112-114 | row `r` shows line `r - origin + offset` |
| `Views.RowsFor` | src/tui/uicomponents/view.rs:108-124 | the k-th row shows line `k + offset` with its annotations, or "~" past the end of the list |
| `Views.CursorRowShowsLocation` | src/tui/uicomponents/view.rs:74-77 | when the selected line is visible, the cursor row lies inside the view and shows it |
| `Views.View.Loaded` | src/tui/uicomponents/view.rs:25-32 | the view holds the loaded buffer, is marked for redraw, and has the default position |
| `Views.View.GetStatus` | src/tui/uicomponents/view.rs:34-39 | reports the buffer height and the selected line |
| `Views.View.Scroll` | src/tui/uicomponents/view.rs:41-56 | the three scroll cases; the redraw mark is set only when the offset moves; the selected line and size are unchanged |
| `Views.View.LocationToPosition` | src/tui/uicomponents/view.rs:58-64 | the position is the selected line itself |
| `Views.View.ScrollLocationIntoView` | src/tui/uicomponents/view.rs:66-68 | scrolls to the selected line |
| `Views.View.CursorPosition` | src/tui/uicomponents/view.rs:74-77 | the selected line minus the offset, 0 when the selected line is above the view |
| `Views.View.SetSize` | src/tui/uicomponents/view.rs:89-92 | stores the size, then scrolls the selected line into view; the selected line never changes |
| `Views.View.Resize` | src/tui/uicomponents/uicomponent.rs:16-19 | `set_size`, then the view is marked for redraw |
| `Views.View.Query` | src/tui/uicomponents/view.rs:98-101 | none without a search; during a search, exactly that search's stored query |
| `Views.View.Draw` | src/tui/uicomponents/view.rs:94-127 | one row per screen row of the view, each showing its line with that line's highlights, or "~" |
| `Views.View.HighlightLines` | src/tui/uicomponents/view.rs:102-106 | every existing line below the bound is highlighted, and no other |
| `Views.View.ShownRows` | src/tui/uicomponents/view.rs:108-125 | the row loop yields `RowsFor` of the view |
| `Views.View.RowOf` | src/tui/uicomponents/view.rs:118-124 | one row: the highlighted line or "~" |
| `Views.View.Render` | src/tui/uicomponents/uicomponent.rs:25-41 | draws only when marked, and then returns `draw`'s rows: one per screen row, each the highlighted line it shows or "~"; a successful draw clears the mark, a failed one keeps it |
| `FilterBars.EditedValue` | src/tui/uicomponents/filterbar.rs:45-56 | Insert appends the character; DeleteBackward drops the last one (nothing on an empty value); Delete and InsertNewLine leave the value alone |
| `FilterBars.InsertThenDeleteBackward` | src/tui/uicomponents/filterbar.rs:47-52 | an insertion followed by a backward delete restores the value |
| `FilterBars.EditChangesLengthByAtMostOne` | src/tui/uicomponents/filterbar.rs:45-53 | an edit changes the length by at most one, and a shortened value is a prefix of the old one |
| `FilterBars.FilterText` | src/tui/uicomponents/filterbar.rs:32-41 | "> " followed by the value when it fits the width, the empty string otherwise |
| `FilterBars.CaretColumn` | src/tui/uicomponents/filterbar.rs:58-62 | the minimum of the saturated `2 + len(value)` and the width |
| `FilterBars.CaretFollowsDrawnText` | src/tui/uicomponents/filterbar.rs:32-62 | when the text is drawn, the caret sits right after it |
| `FilterBars.FilterBar.constructor` | src/tui/uicomponents/filterbar.rs:12-17 | the derived default state |
| `FilterBars.FilterBar.HandleEditCommand` | src/tui/uicomponents/filterbar.rs:45-56 | applies the edit to the value and marks the bar for redraw |
| `FilterBars.FilterBar.CaretPositionCol` | src/tui/uicomponents/filterbar.rs:58-62 | the caret is inside the bar: right after the prompt and the value when they fit, at the bar's width otherwise |
| `FilterBars.FilterBar.Value` | src/tui/uicomponents/filterbar.rs:64-66 | the current value |
| `FilterBars.FilterBar.ClearValue` | src/tui/uicomponents/filterbar.rs:68-71 | empties the value and marks the bar for redraw |
| `FilterBars.FilterBar.SetSize` | src/tui/uicomponents/filterbar.rs:28-30 | only the size changes |
| `FilterBars.FilterBar.Resize` | src/tui/uicomponents/uicomponent.rs:16-19 | `set_size`, then marked for redraw |
| `FilterBars.FilterBar.Render` | src/tui/uicomponents/uicomponent.rs:25-41 | draws the filter text only when marked; the mark follows the redraw protocol |
| `StatusBars.PadLeft` | src/tui/uicomponents/statusbar.rs:30 | right-aligns in a field of the given width, padding with spaces and never truncating |
| `StatusBars.StatusText` | src/tui/uicomponents/statusbar.rs:27-30 | the mode text, then spaces, then the indicator right-aligned in the remaining width; length `len(mode) + max(remainder, len(indicator))` |
| `StatusBars.StatusFits` | src/tui/uicomponents/statusbar.rs:27-37 | the status fits the row exactly when the mode text and the indicator together fit, and then it fills the row |
| `StatusBars.PrintedStatus` | src/tui/uicomponents/statusbar.rs:26-42 | the status line when it fits, filling the row with the indicator flush right; the empty string otherwise |
| `StatusBars.StatusBar.constructor` | src/tui/uicomponents/statusbar.rs:6-11 | the derived default state |
| `StatusBars.StatusBar.UpdateStatus` | src/tui/uicomponents/statusbar.rs:46-51 | an equal status changes nothing; a different one replaces the status and marks the bar for redraw |
| `StatusBars.StatusBar.SetSize` | src/tui/uicomponents/statusbar.rs:22-24 | only the size changes; the redraw mark is untouched |
| `StatusBars.StatusBar.Resize` | src/tui/uicomponents/uicomponent.rs:16-19 | `set_size`, then marked for redraw |
| `StatusBars.StatusBar.Render` | src/tui/uicomponents/uicomponent.rs:25-41 | draws the printed status only when marked; the mark follows the redraw protocol |
| `UiComponents.RenderedFlag` | src/tui/uicomponents/uicomponent.rs:25-41 | an unmarked component stays unmarked; a successful draw clears the mark; a failed one keeps it |
| `UiComponents.CleanComponentStaysUndrawn` | src/tui/uicomponents/uicomponent.rs:25-26 | an unmarked component is never drawn, however often it is rendered |
| `UiComponents.RenderRetriesUntilSuccess` | src/tui/uicomponents/uicomponent.rs:27-39 | a marked component is drawn on every render up to and including the first successful draw, and not after; it stays marked exactly when every draw failed |
| `TuiStatuses.Decimal` | src/tui/tuistatus.rs:8-14 | decimal digits only, with no leading zero |
| `TuiStatuses.PositionIndicator` | src/tui/tuistatus.rs:8-14 | at least three characters, with the "/" right after the one-based line number |
| `TuiStatuses.DecimalRoundTrip` | src/tui/tuistatus.rs:8-14 | reading the decimal text back gives the number |
| `TuiStatuses.IndicatorLayout` | src/tui/tuistatus.rs:8-14 | the indicator is the one-based line, a single "/", then the total |
| `TuiStatuses.DefaultIndicator` | src/tui/tuistatus.rs:1-14 | the default status renders as "1/0" |
| `TuiStatuses.IndicatorSaturates` | src/tui/tuistatus.rs:11 | the `+ 1` saturates: the last two indices show the same line number |
| `TuiStatuses.IndicatorDeterminesStatus` | src/tui/tuistatus.rs:1-14 | below saturation, equal indicators mean equal statuses (field-wise) |
| `Commands.MoveFromKey` | src/tui/command/movecommand.rs:18-36 | with no modifiers: PageUp, PageDown, `j`/Down to Down, `k`/Up to Up; every other key or any modifier gives `Err` |
| `Commands.SystemFromKey` | src/tui/command/system.rs:21-41 | Control+s/q/f/c give Save/Quit/Search/Dismiss; a bare Esc gives Dismiss; nothing else succeeds, and Resize never comes from a key |
| `Commands.CommandFromEvent` | src/tui/command.rs:34-49 | Edit first, then Move, then System, else `Err`; a resize of (w, h) becomes `Size{height: h, width: w}`; other events are `Err` |
| `Commands.DebugName` | src/tui/command.rs:21-29 | the variant name alone |
| `Commands.KeysNeverResize` | src/tui/command.rs:36-40 | a key event never yields a resize command |
| `Commands.MoveAndSystemDisjoint` | src/tui/command.rs:38-39 | no key is both a movement and a system command |
| `Commands.MoveKeysNeedEditRejection` | src/tui/command.rs:36-38 | a movement key becomes a movement exactly when the edit classifier rejects it |

## Left out

- `Buffer::load` and `View::load` (src/tui/uicomponents/view/buffer.rs:32-61, src/tui/uicomponents/view.rs:25-32): running `systemctl` is outside the model. `Buffers.Buffer.Loaded` takes the loaded list as its argument. `Views.View.Loaded` stands for a default view after a successful load.
- Terminal output (`print_row`, `print_annotated_row`, `print_inverted_row`): each `draw` returns what it would print. Whether printing succeeds is the `drawOk` parameter of `Render`.
- The debug-build `panic!` of `render` (src/tui/uicomponents/uicomponent.rs:28-31): the release behaviour is modelled.
- The iteration of an annotated string into styled parts: that code is not part of this model.
- `Edit::try_from` is not part of this model. `Commands.CommandFromEvent` takes it as the function parameter `editOf`.
- Error messages inside `Err` results are left out; a failure is just `Err`.
- UTF-8: strings are byte sequences of ASCII characters, so the char-boundary panics of `replace_range` and `str::get` cannot arise.
- `debug_assert!`s: `Annotated.AnnotatedString.AddAnnotation` requires `start <= end`. The `debug_assert!`s of `replace` and `find_all` are dropped, and the code after them is modelled as it behaves in a release build.
- `Annotated.RemapBound`: the shift of a bound after the edit is stated only where the moved bound fits in a `usize`. The clause for a bound inside the edit assumes the edit ends within `usize`. Outside these cases the saturating arithmetic clamps.
- `Views.View.LocationToPosition`: the `debug_assert!` at src/tui/uicomponents/view.rs:61 is dropped. The release build returns the selected line unchecked, and so does the model.
- `Views.View.Draw`: the highlighting pass at src/tui/uicomponents/view.rs:105 calls `Buffer::highlight` with two arguments, but that method takes three. The missing flag is the `highlightSelectedLine` parameter.
- `Views.View.Draw`: requires fewer than `usize::MAX` lines in the list. A `Vec` can never hold that many.
- `Views.ScrollKeepsVisibleTarget` and the third clause of `Views.CorrectedScrollShowsTarget` assume that the view's last row index fits in a `usize`. Otherwise the saturated sum makes even a visible last line scroll.
- `Annotated.RemapFollowsUnchangedBytes` and `Annotated.RemapBoundMonotone` assume that the bounds and the new text length fit in a `usize`, where the saturating arithmetic cannot clamp.
- `StatusBars.StatusBar.Render` takes the mode text as a parameter. The status bar reads a `mode` field (src/tui/uicomponents/statusbar.rs:27) that `TuiStatus` does not have.
- The View's selected line is never changed by the code in the model. Search-mode entry and restore, movement handling and page arithmetic are not in that code. `SearchInfo` is only a datatype.
- `str::match_indices` also yields the matched slices, which the source discards. Only the positions are modelled.
- The message bar, the event loop, the terminal setup and the `systemctl` operations are outside the modelled core. They involve the clock, blocking input, process spawning and escape codes.

## Findings

The classes follow the code as written. The corrected definitions sit beside
them, with the intended property proved.

| source | as written | input that shows it | evidently intended | confidence | as-written member | corrected member |
|---|---|---|---|---|---|---|
| src/tui/uicomponents/view/highlighter.rs:56-68 | a gap before a match ends at `match.start - 1` on a half-open range, the scan resumes at `match.end + 1`, and gaps go in at the match's index in the already shifted list | line "ab", word "b": the gap is `[0, 0)`, so byte 0 is not styled | the gap is `[char_idx, match.start)`, the scan resumes at `match.end`, and the ranges tile the line in order | not executed | `Highlighting.AsWrittenLeavesByteUncovered` | `Highlighting.CorrectedSelectedLineTiles` |
| src/tui/uicomponents/view.rs:47 | scrolling down sets the offset to `to + height + 1` | offset 0, height 3, scroll to line 5: the offset becomes 9, and line 5 is off screen | `to - height + 1`, which puts the target on the bottom row | not executed | `Views.ScrollDownExample` | `Views.CorrectedScrollShowsTarget` |
