/**
 * The scroll viewport of the transcription panel: how many rows it has, how
 * far it may scroll, which wrapped lines it shows for a scroll offset, and the
 * "Line a-b of n" status shown beneath it.
 */
module Viewport {
  import opened GoStrings
  import opened Wrap

  /** `min` (main.go). */
  function Min(a: int, b: int): (r: int)
    ensures r <= a && r <= b
    ensures r == a || r == b
  {
    if a < b then a else b
  }

  /** `max` (main.go). */
  function Max(a: int, b: int): (r: int)
    ensures r >= a && r >= b
    ensures r == a || r == b
  {
    if a > b then a else b
  }

  /**
   * Rows of the transcription panel for a terminal `height` rows tall: ten
   * rows are kept for the title and the instructions, and the panel never
   * shrinks below five rows.
   */
  function ViewHeight(height: int): (rows: int)
    ensures rows >= 5 && rows >= height - 10
    ensures rows == 5 || rows == height - 10
  {
    var rows := height - 10;
    if rows < 5 then 5 else rows
  }

  /** Number of lines of a text once wrapped, as `strings.Split` on newlines counts them. */
  function LineCount(text: string, width: int): (n: int)
    ensures n >= 1
  {
    |Split(Wrapped(text, width), '\n')|
  }

  /**
   * The largest scroll offset for `totalLines` wrapped lines: the smallest
   * offset whose window reaches the last line, and zero when all lines fit.
   */
  function MaxScroll(totalLines: int, height: int): (r: int)
    ensures r >= 0
    ensures r + ViewHeight(height) >= totalLines
    ensures r == 0 || r + ViewHeight(height) == totalLines
  {
    var rows := ViewHeight(height);
    if totalLines > rows then totalLines - rows else 0
  }

  /**
   * The first line the window shows: the scroll offset while it points at a
   * line, and otherwise the start of the last window-full of lines.
   */
  function WindowStart(total: int, offset: int, rows: int): (start: int)
    requires offset >= 0 && rows >= 1
    ensures start >= 0
    ensures total > 0 ==> start < total
    ensures offset < total ==> start == offset
    ensures offset >= total ==> start + rows >= total && (start == 0 || start + rows == total)
  {
    if offset < total then offset else Max(0, total - rows)
  }

  /**
   * The window-and-padding part of `renderScrollableTranscription`: the
   * wrapped text is split into lines, the lines from the window start on are
   * shown, and blank rows pad the window to the panel height.
   */
  method VisibleWindow(wrapped: string, offset: nat, height: int) returns (visible: seq<string>)
    ensures |visible| == ViewHeight(height)
    ensures var lines := Split(wrapped, '\n');
      var start := WindowStart(|lines|, offset, ViewHeight(height));
      forall k :: 0 <= k < |visible| ==> visible[k] == (if start + k < |lines| then lines[start + k] else "")
  {
    var transcriptionHeight := height - 10;
    if transcriptionHeight < 5 {
      transcriptionHeight := 5;
    }
    var lines := Split(wrapped, '\n');
    var startLine := offset;
    var endLine := Min(startLine + transcriptionHeight, |lines|);
    if startLine >= |lines| {
      startLine := Max(0, |lines| - transcriptionHeight);
      endLine := |lines|;
    }
    assert endLine < |lines| ==> endLine == startLine + transcriptionHeight;
    var shown := lines[startLine..endLine];
    var visibleText := Join(shown, "\n");
    var visibleLines := Split(visibleText, '\n');
    assert visibleLines == shown by {
      SplitJoin(shown, '\n');
    }
    visible := PadRows(visibleLines, transcriptionHeight);
    assert startLine == WindowStart(|lines|, offset, ViewHeight(height));
    forall k | 0 <= k < |visible|
      ensures visible[k] == (if startLine + k < |lines| then lines[startLine + k] else "")
    {
      if k < |shown| {
        assert visible[k] == visible[..|shown|][k];
      }
    }
  }

  /** Blank rows appended until there are `rows` of them (the padding loop of `renderScrollableTranscription`). */
  method PadRows(shown: seq<string>, rows: int) returns (padded: seq<string>)
    ensures |padded| == Max(|shown|, rows)
    ensures padded[..|shown|] == shown
    ensures forall k :: |shown| <= k < |padded| ==> padded[k] == ""
  {
    padded := shown;
    while |padded| < rows
      invariant |shown| <= |padded| <= Max(|shown|, rows)
      invariant padded[..|shown|] == shown
      invariant forall k :: |shown| <= k < |padded| ==> padded[k] == ""
    {
      padded := padded + [""];
    }
  }

  // ---------------------------------------------------------------------
  // The status line "Line a-b of n" under the panel.

  /** The line range the status line names, as `View` computes it (main.go:200-203). */
  function StatusRangeAsWritten(offset: int, height: int, total: int): (int, int) {
    (offset + 1, Min(offset + (height - 10), total))
  }

  /**
   * The line range actually on screen, 1-based and inclusive: from the
   * window start to the last real line of the window.
   */
  function StatusRange(offset: int, height: int, total: int): (r: (int, int))
    requires offset >= 0 && total >= 1
    ensures 1 <= r.0 <= r.1 <= total
  {
    var rows := ViewHeight(height);
    var start := WindowStart(total, offset, rows);
    (start + 1, Min(start + rows, total))
  }

  /** A row of the panel shows a line of text exactly when the status range names that line. */
  lemma StatusRangeNamesShownRows(offset: int, height: int, total: int, k: int)
    requires offset >= 0 && total >= 1 && 0 <= k < ViewHeight(height)
    ensures var start := WindowStart(total, offset, ViewHeight(height));
      var r := StatusRange(offset, height, total);
      start + k < total <==> r.0 <= start + k + 1 <= r.1
  {
  }

  /**
   * On a 12-row terminal with 20 wrapped lines the panel shows lines 1 to 5
   * (it never has fewer than five rows), and the status is displayed because
   * the text scrolls, but `View` reports lines 1 to 2.
   */
  lemma StatusRangeAsWrittenMisreports()
    ensures MaxScroll(20, 12) > 0
    ensures StatusRange(0, 12, 20) == (1, 5)
    ensures StatusRangeAsWritten(0, 12, 20) == (1, 2)
  {
  }
}
