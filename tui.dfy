/**
 * The interaction state machine of the terminal front-end: the `model`
 * record, its `Update` event handler and `renderScrollableTranscription`.
 *
 * The record is a value: `Update` works on a copy, changes its fields one by
 * one and returns it together with the command for the runtime.  The file
 * picker and the spinner are not modelled; choosing a file in the picker is
 * the event `FileChosen`, and the background job's outcome is `JobDone`.
 */
module Tui {
  import opened GoStrings
  import opened Wrap
  import opened Viewport

  /** The three modes `StateSelectFile`, `StateProcessing`, `StateComplete`. */
  datatype Mode = SelectFile | Processing | Complete

  /** Outcome of the transcription job: `processCompleteMsg` or `processErrorMsg`. */
  datatype JobResult = Success(text: string) | Failure(message: string)

  /** The events `Update` handles. */
  datatype Msg =
    | Key(name: string)                    // a key press, by its name ("up", "q", "ctrl+c", ...)
    | WindowSize(width: int, height: int)  // the terminal was resized
    | JobDone(result: JobResult)           // the background job finished
    | FileChosen(path: string)             // the file picker reports a selected file
    | SpinnerTick                          // the activity indicator wants its next frame

  /** What `Update` asks the runtime to do next. */
  datatype Command =
    | NoCommand
    | QuitProgram            // `tea.Quit`
    | StartJob(path: string) // start the spinner and the transcription of `path`

  /** The fields of `model` that the front-end's logic reads and writes. */
  datatype Model = Model(
    state: Mode,
    selectedFile: string,
    transcription: string,
    error: string,
    width: int,
    height: int,
    scrollOffset: int,
    maxScroll: int)

  /** Order of the modes: a session only ever moves forward through them. */
  function Rank(mode: Mode): nat {
    match mode
    case SelectFile => 0
    case Processing => 1
    case Complete => 2
  }

  /**
   * The invariant every reachable model keeps: the scroll offset lies in
   * [0, maxScroll]; nothing is scrolled without a transcription; before a
   * result arrives there is neither transcription nor error; and before a
   * file is chosen no file is recorded.
   */
  predicate Valid(m: Model) {
    && 0 <= m.scrollOffset <= m.maxScroll
    && (m.transcription == "" ==> m.scrollOffset == 0 && m.maxScroll == 0)
    && (m.state != Complete ==> m.transcription == "" && m.error == "")
    && (m.state == SelectFile ==> m.selectedFile == "")
  }

  /** `initialModel`: picking a file in an 80x24 terminal, nothing scrolled. */
  function InitialModel(): (m: Model)
    ensures Valid(m) && m.state == SelectFile
    ensures m.width == 80 && m.height == 24
  {
    Model(SelectFile, "", "", "", 80, 24, 0, 0)
  }

  /** The scroll keys act only on a completed, non-empty transcription. */
  predicate Scrollable(m: Model) {
    m.state == Complete && m.transcription != ""
  }

  /** An empty text wraps to a single line, so it never scrolls. */
  lemma EmptyTextDoesNotScroll(width: int, height: int)
    ensures LineCount("", width) == 1
    ensures MaxScroll(LineCount("", width), height) == 0
  {
    assert Wrapped("", width) == "";
    assert Split("", '\n') == [""];
  }

  /** `Update`: the new model and the command for one event. */
  method Update(m: Model, msg: Msg) returns (m': Model, cmd: Command)
    requires Valid(m)
    ensures Valid(m')
    ensures Rank(m'.state) >= Rank(m.state)
    // quitting
    ensures cmd == QuitProgram <==> msg == Key("ctrl+c") || msg == Key("q")
    ensures cmd == QuitProgram ==> m' == m
    // scrolling, clamped to [0, maxScroll]
    ensures msg.Key? && (msg.name == "up" || msg.name == "k") ==>
      m' == m.(scrollOffset := if Scrollable(m) then Max(0, m.scrollOffset - 1) else m.scrollOffset)
    ensures msg.Key? && (msg.name == "down" || msg.name == "j") ==>
      m' == m.(scrollOffset := if Scrollable(m) then Min(m.maxScroll, m.scrollOffset + 1) else m.scrollOffset)
    ensures msg.Key? && msg.name == "home" ==>
      m' == m.(scrollOffset := if Scrollable(m) then 0 else m.scrollOffset)
    ensures msg.Key? && msg.name == "end" ==>
      m' == m.(scrollOffset := if Scrollable(m) then m.maxScroll else m.scrollOffset)
    ensures msg.Key? && msg.name !in {"ctrl+c", "q", "up", "k", "down", "j", "home", "end"} ==> m' == m
    // resizing records the dimensions and nothing else
    ensures msg.WindowSize? ==> m' == m.(width := msg.width, height := msg.height)
    // the job's outcome
    ensures msg.JobDone? && msg.result.Success? ==>
      m' == m.(state := Complete, transcription := msg.result.text, scrollOffset := 0,
               maxScroll := MaxScroll(LineCount(msg.result.text, m.width - 8), m.height))
    ensures msg.JobDone? && msg.result.Failure? ==>
      m' == m.(state := Complete, error := msg.result.message)
    ensures m.state == Processing && msg.JobDone? ==> m'.transcription == "" || m'.error == ""
    // choosing a file starts the job, once
    ensures msg.FileChosen? ==>
      m' == if m.state == SelectFile then m.(state := Processing, selectedFile := msg.path) else m
    ensures cmd.StartJob? <==> m.state == SelectFile && msg.FileChosen?
    ensures cmd.StartJob? ==> cmd.path == msg.path
    ensures msg.SpinnerTick? ==> m' == m
  {
    m' := m;
    cmd := NoCommand;
    match msg {
      case Key(k) =>
        if k == "ctrl+c" || k == "q" {
          return m', QuitProgram;
        } else if k == "up" || k == "k" {
          if m'.state == Complete && m'.transcription != "" {
            if m'.scrollOffset > 0 {
              m' := m'.(scrollOffset := m'.scrollOffset - 1);
            }
          }
        } else if k == "down" || k == "j" {
          if m'.state == Complete && m'.transcription != "" {
            if m'.scrollOffset < m'.maxScroll {
              m' := m'.(scrollOffset := m'.scrollOffset + 1);
            }
          }
        } else if k == "home" {
          if m'.state == Complete && m'.transcription != "" {
            m' := m'.(scrollOffset := 0);
          }
        } else if k == "end" {
          if m'.state == Complete && m'.transcription != "" {
            m' := m'.(scrollOffset := m'.maxScroll);
          }
        }
      case WindowSize(w, h) =>
        m' := m'.(width := w, height := h);
      case JobDone(Success(text)) =>
        m' := m'.(state := Complete, transcription := text, scrollOffset := 0);
        var transcriptionHeight := m'.height - 10;
        if transcriptionHeight < 5 {
          transcriptionHeight := 5;
        }
        var wrappedText := WrapText(m'.transcription, m'.width - 8);
        var totalLines := |Split(wrappedText, '\n')|;
        if totalLines > transcriptionHeight {
          m' := m'.(maxScroll := totalLines - transcriptionHeight);
        } else {
          m' := m'.(maxScroll := 0);
        }
        if text == "" {
          EmptyTextDoesNotScroll(m.width - 8, m.height);
        }
        return;
      case JobDone(Failure(e)) =>
        m' := m'.(error := e, state := Complete);
        return;
      case SpinnerTick =>
        if m'.state == Processing {
          return;
        }
      case FileChosen(_) =>
    }
    if m'.state == SelectFile {
      if msg.FileChosen? {
        m' := m'.(selectedFile := msg.path, state := Processing);
        return m', StartJob(msg.path);
      }
    }
  }

  /**
   * `renderScrollableTranscription` without the styling: the panel's rows for
   * the model's transcription wrapped to the terminal width less eight columns.
   */
  method RenderScrollableTranscription(m: Model) returns (visible: seq<string>)
    requires 0 <= m.scrollOffset
    ensures |visible| == ViewHeight(m.height)
    ensures var lines := Split(Wrapped(m.transcription, m.width - 8), '\n');
      var start := WindowStart(|lines|, m.scrollOffset, ViewHeight(m.height));
      forall k :: 0 <= k < |visible| ==> visible[k] == (if start + k < |lines| then lines[start + k] else "")
  {
    var wrappedText := WrapText(m.transcription, m.width - 8);
    visible := VisibleWindow(wrappedText, m.scrollOffset, m.height);
  }

  /**
   * Right after a transcription arrives (before any resize), every offset the
   * scroll keys can reach points at a line, the window is full of text when
   * there is at least a window-full of it, and at the largest offset the last
   * line is on screen.
   */
  lemma ScrollRangeStaysInText(text: string, width: int, height: int, offset: int)
    requires 0 <= offset <= MaxScroll(LineCount(text, width - 8), height)
    ensures var total := LineCount(text, width - 8);
      var rows := ViewHeight(height);
      && WindowStart(total, offset, rows) == offset
      && (total >= rows ==> offset + rows <= total)
      && (offset == MaxScroll(total, height) ==> total <= offset + rows)
  {
  }

  /**
   * A session on an 80x30 terminal (20 rows of panel, lines of 72 columns):
   * a file is chosen, and the job returns 100 words of 72 letters, which wrap
   * to 100 lines.  The text scrolls by 80 lines: "end" moves to offset 80, and
   * "down" then stays at 80.
   */
  method ScrollToEndThenDown() returns (afterEnd: int, afterDown: int)
    ensures afterEnd == 80 && afterDown == 80
  {
    var word := seq(72, _ => 'a');
    var words := seq(100, _ => word);
    assert IsWord(word);
    LongWordsOnePerLine(words, 72);
    var m := InitialModel();
    var cmd;
    m, cmd := Update(m, WindowSize(80, 30));
    m, cmd := Update(m, FileChosen("talk.mp4"));
    m, cmd := Update(m, JobDone(Success(Join(words, " "))));
    assert m.maxScroll == 80;
    m, cmd := Update(m, Key("end"));
    afterEnd := m.scrollOffset;
    m, cmd := Update(m, Key("down"));
    afterDown := m.scrollOffset;
  }

  /** A failing job while processing: the session completes with the error and no transcription. */
  method JobFailureWhileProcessing() returns (m': Model)
    ensures m'.state == Complete && m'.error == "ffmpeg exit 1" && m'.transcription == ""
  {
    var m := Model(Processing, "talk.mp4", "", "", 80, 24, 0, 0);
    var cmd;
    m', cmd := Update(m, JobDone(Failure("ffmpeg exit 1")));
  }
}
