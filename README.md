# Speech-to-text terminal front-end, modelled in Dafny

The program is a terminal UI. The user picks a video or audio file in a file
picker. A background job extracts the audio and transcribes it, and the UI
then shows the transcription in a scrollable panel. This project models the
logic of the front-end (`main.go`):

- **`wrapText`** (module `Wrap`) greedily packs the words of the text into
  lines of at most `width` characters. The Go loop is kept as a `while` loop
  in `Wrap.WrapText`. That method is proved equal to the function `Wrapped`,
  which is built on the recursion `PackFrom`. It is also proved against an
  independent definition of a greedy packing (`GreedyPacking`), and that
  packing is shown to be unique. Further lemmas show that:
  - the words survive wrapping unchanged and in order;
  - a line wider than `width` is one single word;
  - every line break is forced by the next word;
  - wrapping twice changes nothing.
- **The scroll viewport** (module `Viewport`):
  - the panel height is the terminal height minus ten, and never less than five rows;
  - `maxScroll` is the smallest offset whose window reaches the last line;
  - `renderScrollableTranscription` picks the window of lines, re-anchors an
    offset that has run past the text, and pads the window with blank rows;
  - `min` and `max`;
  - the "Line a-b of n" status line.
- **The state machine** (module `Tui`): the `model` record and `Update`.
  - Key presses quit or scroll, with clamping to `[0, maxScroll]`.
  - A resize records the new dimensions.
  - A finished job moves the session to the complete mode.
  - Choosing a file starts the job.
  - `Update` keeps an invariant, `Valid`, on every event: the offset lies in
    `[0, maxScroll]`, and nothing scrolls without a transcription. It also
    never moves the session backwards through the modes.
- **Go's `strings.Fields`, `strings.Split` and `strings.Join`** (module
  `GoStrings`), with the round trips between `Split` and `Join` that the
  renderer relies on.

Go's `model` is a value type with value receivers. So `Update` is a method
that changes a copy field by field and returns it with the next command.

Note what the program does at three points where one might expect otherwise:

- A resize does not recompute `maxScroll` or clamp the offset. Only the
  renderer re-anchors an offset that lies past the text.
- An error result does not clear a transcription. A successful result does
  not clear an earlier error.
- Job results are accepted in any mode. Only from the processing mode does
  one result leave at most one of transcription and error set.

## Model

| member | source | states |
|---|---|---|
| Wrap.WrapText | main.go:220-255 | the loop's result equals `Wrapped(text, width)`: the text unchanged for a width of zero or less or for a text with no words, otherwise the greedy lines joined by newlines |
| Wrap.PackGreedy | main.go:233-252 | the groups the loop builds form a greedy packing: the words in order, every group non-empty, every group of two or more words within `width`, and every break forced because the next word would not fit |
| Wrap.GreedyUnique | main.go:233-252 | two greedy packings of the same words at the same width are equal, so the greedy rule fixes the lines |
| Wrap.WrapDegenerate | main.go:221-228 | a width of zero or less, or a text without words, is returned unchanged; the empty text wraps to itself |
| Wrap.WrapFields | main.go:225-254 | the wrapped text has exactly the words of the input, in the same order |
| Wrap.WrapIsGreedy | main.go:233-254 | the newline-separated lines of the output are a greedy packing of the input's words, and each line is its words joined by single spaces |
| Wrap.WrapLineWidth | main.go:233-252 | every output line is non-empty; a line wider than `width` is a single word; each line break happens only because the previous line plus a space plus the next word exceeds `width` |
| Wrap.WrapIdempotent | main.go:220-255 | wrapping already-wrapped text again at the same width gives the same text |
| Wrap.LongWordsOnePerLine | main.go:233-252 | words that are each at least `width` wide, separated by spaces, wrap to exactly one line per word |
| Wrap.QuickBrownFox | main.go:220-255 | "the quick brown fox" at width 10 becomes the two lines "the quick" and "brown fox" |
| GoStrings.IsSpace | main.go:225 | the white space `strings.Fields` splits at: Go's `unicode.IsSpace`, the six ASCII spaces, U+0085, U+00A0 and the other Unicode White_Space characters (U+1680, U+2000-U+200A, U+2028, U+2029, U+202F, U+205F, U+3000) |
| GoStrings.Join | main.go:254 | `strings.Join`: the parts with the separator between each two neighbours; its meaning is fixed by `JoinSplit` and `SplitJoin` (it undoes `Split` and is undone by it) and by `JoinAppend` (joining a concatenation puts one separator between the two joins) |
| GoStrings.Fields | main.go:225 | the fields are words: non-empty and free of white space |
| GoStrings.Split | main.go:131 | a split yields at least one piece, and no piece contains the separator |
| GoStrings.JoinSplit | main.go:266-284 | the round trip of `Split`: joining the pieces of a newline split with newlines gives back the original string |
| GoStrings.SplitJoin | main.go:277-280 | splitting a newline-join of newline-free lines gives back exactly those lines |
| Viewport.Min | main.go:293-298 | the result is one of the arguments and no larger than either |
| Viewport.Max | main.go:300-305 | the result is one of the arguments and no smaller than either |
| Viewport.ViewHeight | main.go:124-127 | the panel has at least five rows and at least the terminal height minus ten, and exactly one of the two |
| Viewport.LineCount | main.go:130-131 | a wrapped text always counts at least one line |
| Viewport.MaxScroll | main.go:133-137 | the largest offset is non-negative and brings the last line into the window; it is zero or it puts the last line in the window's last row |
| Viewport.WindowStart | main.go:269-275 | the window starts at the offset while the offset points at a line; otherwise it starts so that the last line is in view; it is inside the text whenever the text has a line |
| Viewport.VisibleWindow | main.go:259-284 | the panel has exactly `ViewHeight(height)` rows; row k shows line `start + k` of the wrapped text when that line exists, and is blank otherwise |
| Viewport.PadRows | main.go:280-283 | the shown lines come first, unchanged, followed by blank rows up to the panel height |
| Viewport.StatusRange | main.go:199-203 | the corrected status range is a non-empty range of line numbers within 1 to n |
| Viewport.StatusRangeNamesShownRows | main.go:199-203 | a panel row shows a line of text exactly when the corrected status range names that line |
| Viewport.StatusRangeAsWrittenMisreports | main.go:199-203 | on a 12-row terminal with 20 lines the status line is shown and lines 1 to 5 are on screen, yet the status as written says lines 1 to 2 |
| Tui.InitialModel | main.go:58-77 | the initial model is in the file-selection mode with an 80x24 terminal, and satisfies the invariant (nothing scrolled) |
| Tui.EmptyTextDoesNotScroll | main.go:129-137 | an empty transcription counts one line and allows no scrolling |
| Tui.Update | main.go:83-171 | keeps the invariant; modes never move backwards; quits exactly on "ctrl+c" or "q" with the model unchanged; up/k, down/j, home and end move the offset within `[0, maxScroll]`, only on a completed non-empty transcription; other keys change nothing; a resize records only the dimensions; a success completes with the text, offset 0 and `maxScroll` from the wrapped line count; a failure completes with the error; from processing, one result leaves transcription or error empty; a chosen file starts the job for that path only in the file-selection mode; spinner ticks change nothing |
| Tui.RenderScrollableTranscription | main.go:258-290 | the panel of the model's transcription, wrapped to the terminal width less eight: `ViewHeight` rows, row k holding wrapped line `start + k` or blank |
| Tui.ScrollRangeStaysInText | main.go:118-137 | right after a result arrives, every offset the scroll keys can reach is a window start inside the text; a full window shows only text; at `maxScroll` the last line is in view |
| Tui.ScrollToEndThenDown | main.go:95-164 | a session driven through `Update` from the initial model: a resize to 80x30, a chosen file, and a result of 100 words of 72 letters, which wrap to 100 lines; "end" then moves to offset 80 and a following "down" stays there |
| Tui.JobFailureWhileProcessing | main.go:141-144 | a failure while processing completes the session with the error message and no transcription |

## Left out

- The transcription pipeline (`video-processor.go`, with ffmpeg, the Python helper and temporary files) is not part of this model. Its outcome is the event `JobDone` with a `JobResult`.
- Bubble Tea commands (`tea.Quit`, `tea.Batch`, `startProcessing`, the spinner's tick) are reduced to the `Command` values `QuitProgram`, `StartJob(path)` and `NoCommand`. The commands the file picker and spinner widgets return are all `NoCommand`.
- The file picker and spinner widgets are not modelled. A selection in the picker is the event `FileChosen`. The picker height set on resize (main.go:114-116) and the spinner frame are left out.
- `View`'s layout and styling with lipgloss (borders, colours, `Place`) are left out. Of `View` only the status-line range arithmetic is modelled.
- `Init`, `main` and `log.Fatal` are I/O and program start-up, and are left out.
- Wrap.WrapText: widths are counted in characters, while Go's `len` counts UTF-8 bytes. For non-ASCII text the Go lines can therefore be narrower, in characters, than the model's.
- Tui.Update: Go's fixed-width `int` is modelled as an unbounded integer. The offsets and line counts stay far below overflow.

## Findings

| source | as written | input that shows it | evidently intended | confidence | as-written member | corrected member |
|---|---|---|---|---|---|---|
| main.go:199-203 | the status line's last line number is `min(scrollOffset + (height - 10), n)`, using the unclamped panel height and the raw offset | a 12-row terminal and 20 wrapped lines at offset 0: the panel shows lines 1-5 (it never has fewer than five rows), the status line appears because `maxScroll` is 15, and it reads "Line 1-2 of 20" | number the lines actually on screen: start from the window start and use the panel height clamped to at least five rows | high, not executed | Viewport.StatusRangeAsWrittenMisreports (on Viewport.StatusRangeAsWritten) | Viewport.StatusRange, with Viewport.StatusRangeNamesShownRows |
