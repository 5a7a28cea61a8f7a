/** The render operations that run a code snippet (src/processing/execution.rs):
    an asynchronous run whose output is polled into the slide, the notice
    shown when execution is disabled, and a run that hands the terminal over
    to the snippet.

    The process, its reader thread and the lock around their shared state
    are not part of this model: an `ExecutionHandle` is the shared record
    itself, which a poll reads and drains. Splitting the raw output into
    styled lines (`AnsiSplitter`) and the display width of a line enter as
    function-typed fields; what the executor and the terminal report enter
    as parameters. */
module Execution {
  import opened RustStr
  import opened Presentation
  import opened CodeSnippet

  type byte = x: int | 0 <= x < 0x100

  /** `MINIMUM_SEPARATOR_WIDTH`: a centred separator is never narrower. */
  const MinimumSeparatorWidth: u16 := 32

  datatype ProcessStatus = Running | Success | Failure

  /** `ProcessStatus::is_finished`. */
  predicate IsFinished(status: ProcessStatus) {
    status != Running
  }

  /** `ExecutionState`: the output the process wrote since the last poll, and
      its status. */
  class ExecutionHandle {
    var output: seq<byte>
    var status: ProcessStatus

    constructor(output: seq<byte>, status: ProcessStatus)
      ensures this.output == output && this.status == status
    {
      this.output := output;
      this.status := status;
    }
  }

  /** What `execute_async` gives back: a running process, or the error that
      kept it from starting. */
  datatype Launch = Launched(handle: ExecutionHandle) | LaunchFailed(message: string)

  /** `ExecutionStatusBlockStyle`: the colours of each status heading. */
  datatype StatusColors = StatusColors(notStarted: Colors, running: Colors, success: Colors, failure: Colors)

  /** `ExecutionOutputBlockStyle`. */
  datatype OutputBlockStyle = OutputBlockStyle(colors: Colors, status: StatusColors)

  datatype DisplaySeparator = On | Off

  function MaxU16(a: u16, b: u16): (r: u16)
    ensures r >= a && r >= b && (r == a || r == b)
  {
    if a >= b then a else b
  }

  /** The block length `RunSnippetOperation::new` keeps: a centred block is
      at least its alignment's minimum size. */
  function ConstructedBlockLength(blockLength: u16, alignment: Alignment): (r: u16)
    ensures alignment.Center? ==> r == MaxU16(blockLength, alignment.minimumSize)
    ensures !alignment.Center? ==> r == blockLength
  {
    match alignment
    case Left(_) => blockLength
    case Right(_) => blockLength
    case Center(_, minimumSize) => MaxU16(blockLength, minimumSize)
  }

  /** Whether an alignment reserves room around the block. */
  predicate HasMargin(alignment: Alignment) {
    match alignment
    case Left(margin) => !IsEmptyMargin(margin)
    case Right(margin) => !IsEmptyMargin(margin)
    case Center(minimumMargin, minimumSize) => !IsEmptyMargin(minimumMargin) || minimumSize != 0
  }

  /** The widest of some lines, each width clamped to 16 bits; zero for no
      lines. */
  function MaxWidth(lines: seq<Line>, width: Line -> nat): (r: u16)
    ensures forall i :: 0 <= i < |lines| ==> SaturateU16(width(lines[i])) <= r
    ensures lines == [] ==> r == 0
    ensures lines != [] ==> exists i :: 0 <= i < |lines| && r == SaturateU16(width(lines[i]))
  {
    if lines == [] then 0
    else
      var rest := MaxWidth(lines[1..], width);
      assert forall i :: 1 <= i < |lines| ==> lines[i] == lines[1..][i - 1];
      MaxU16(rest, SaturateU16(width(lines[0])))
  }

  /** The loop of `poll_state` that measures the new lines. */
  method LongestLine(lines: seq<Line>, width: Line -> nat) returns (maxLineLength: u16)
    ensures maxLineLength == MaxWidth(lines, width)
  {
    maxLineLength := 0;
    var i := |lines|;
    while i > 0
      invariant 0 <= i <= |lines|
      invariant maxLineLength == MaxWidth(lines[i..], width)
    {
      i := i - 1;
      assert lines[i..][1..] == lines[i + 1..];
      maxLineLength := MaxU16(maxLineLength, SaturateU16(width(lines[i])));
    }
    assert lines[0..] == lines;
  }

  /** The heading of an execution separator: the state's description between
      ` [` and `] `. */
  function Heading(description: Text): Line {
    Line([Plain(" ["), description, Plain("] ")])
  }

  /** The separator above a block's output, each rendered as a line break, the
      separator and a line break. */
  function SeparatorOperations(description: Text, width: SeparatorWidth): (ops: seq<RenderOperation>)
    ensures |ops| == 3 && ops[0] == RenderLineBreak && ops[2] == RenderLineBreak
    ensures ops[1] == RenderDynamic(RenderSeparator(Heading(description), width))
  {
    [RenderLineBreak, RenderDynamic(RenderSeparator(Heading(description), width)), RenderLineBreak]
  }

  /** The output lines as block lines, each followed by a line break. */
  function OutputOperations(lines: seq<Line>, blockLength: u16, alignment: Alignment, blockColor: Option<Color>)
    : (ops: seq<RenderOperation>)
    ensures |ops| == 2 * |lines|
  {
    if lines == [] then []
    else OutputLineOperations(lines[0], blockLength, alignment, blockColor)
         + OutputOperations(lines[1..], blockLength, alignment, blockColor)
  }

  /** The output line at `i` becomes the operations at `2 * i` and
      `2 * i + 1`: a block line without prefix showing it, then a line
      break. */
  lemma {:induction false} OutputOperationsAt(lines: seq<Line>, blockLength: u16, alignment: Alignment,
                                              blockColor: Option<Color>, i: nat)
    requires i < |lines|
    ensures var ops := OutputOperations(lines, blockLength, alignment, blockColor);
      && ops[2 * i] == RenderBlockLine(BlockLine(Plain([]), 0, false, lines[i], blockLength, alignment, blockColor))
      && ops[2 * i + 1] == RenderLineBreak
    decreases i
  {
    if i > 0 {
      OutputOperationsAt(lines[1..], blockLength, alignment, blockColor, i - 1);
      assert lines[1..][i - 1] == lines[i];
    }
  }

  /** The two operations of one output line. */
  function OutputLineOperations(line: Line, blockLength: u16, alignment: Alignment, blockColor: Option<Color>)
    : seq<RenderOperation>
  {
    [RenderBlockLine(BlockLine(Plain([]), 0, false, line, blockLength, alignment, blockColor)), RenderLineBreak]
  }

  /** One more output line adds its two operations at the end. */
  lemma {:induction false} OutputOperationsAppend(lines: seq<Line>, line: Line, blockLength: u16,
                                                  alignment: Alignment, blockColor: Option<Color>)
    ensures OutputOperations(lines + [line], blockLength, alignment, blockColor)
      == OutputOperations(lines, blockLength, alignment, blockColor)
         + OutputLineOperations(line, blockLength, alignment, blockColor)
    decreases |lines|
  {
    if lines == [] {
      assert [] + [line] == [line];
    } else {
      assert (lines + [line])[1..] == lines[1..] + [line];
      OutputOperationsAppend(lines[1..], line, blockLength, alignment, blockColor);
    }
  }

  /** `RunSnippetOperation`: runs a snippet in the background and shows its
      output below a separator that names the run's status. */
  class RunSnippetOperation {
    const code: Snippet
    const defaultColors: Colors
    const blockColors: Colors
    const statusColors: StatusColors
    const blockLength: u16
    const alignment: Alignment
    const separator: DisplaySeparator
    /** `AnsiSplitter::split_lines`: the raw output, read starting in a
        style, as styled lines, and the style the output ends in. */
    const split: (TextStyle, seq<byte>) -> (seq<Line>, TextStyle)
    /** The display width of a line. */
    const width: Line -> nat

    var handle: Option<ExecutionHandle>
    var outputLines: seq<Line>
    var state: RenderAsyncState
    var maxLineLength: u16
    var startingStyle: TextStyle
    var stateDescription: Text

    /** A handle is held exactly while the run is rendering, and nothing is
        shown before the run starts. */
    ghost predicate Valid()
      reads this
    {
      && (handle.Some? <==> state.Rendering?)
      && (state == NotStarted ==> outputLines == [] && maxLineLength == 0)
    }

    /** `RunSnippetOperation::new`. */
    constructor(code: Snippet, defaultColors: Colors, style: OutputBlockStyle, blockLength: u16,
                separator: DisplaySeparator, alignment: Alignment,
                split: (TextStyle, seq<byte>) -> (seq<Line>, TextStyle), width: Line -> nat)
      ensures Valid()
      ensures this.blockLength == ConstructedBlockLength(blockLength, alignment)
      ensures this.code == code && this.defaultColors == defaultColors && this.blockColors == style.colors
      ensures this.statusColors == style.status && this.alignment == alignment && this.separator == separator
      ensures this.split == split && this.width == width
      ensures handle == None && outputLines == [] && state == NotStarted && maxLineLength == 0
      ensures startingStyle == DefaultStyle
      ensures stateDescription == Text("not started", TextStyle(style.status.notStarted))
    {
      this.code := code;
      this.defaultColors := defaultColors;
      this.blockColors := style.colors;
      this.statusColors := style.status;
      this.blockLength := ConstructedBlockLength(blockLength, alignment);
      this.alignment := alignment;
      this.separator := separator;
      this.split := split;
      this.width := width;
      this.handle := None;
      this.outputLines := [];
      this.state := NotStarted;
      this.maxLineLength := 0;
      this.startingStyle := DefaultStyle;
      this.stateDescription := Text("not started", TextStyle(style.status.notStarted));
    }

    /** `start_render`: only a run that has not started starts, and the call
        says whether it did. A launch that fails ends the run at once, with
        the error as its only output line. */
    method StartRender(launch: Launch) returns (started: bool)
      requires Valid()
      modifies this
      ensures Valid()
      ensures started <==> old(state) == NotStarted
      ensures !started ==> unchanged(this)
      ensures started && launch.Launched? ==>
        handle == Some(launch.handle) && state == Rendering(false) && outputLines == []
      ensures started && launch.LaunchFailed? ==>
        handle == None && state == Rendered && outputLines == [PlainLine(launch.message)]
      ensures maxLineLength == old(maxLineLength) && startingStyle == old(startingStyle)
      ensures stateDescription == old(stateDescription)
    {
      if state != NotStarted {
        return false;
      }
      match launch {
        case Launched(h) =>
          handle := Some(h);
          state := Rendering(false);
        case LaunchFailed(message) =>
          outputLines := [PlainLine(message)];
          state := Rendered;
      }
      started := true;
    }

    /** The heading text for a status. */
    function StatusText(status: ProcessStatus): (t: Text)
      reads this
    {
      match status
      case Running => Text("running", TextStyle(statusColors.running))
      case Success => Text("finished", TextStyle(statusColors.success))
      case Failure => Text("finished with error", TextStyle(statusColors.failure))
    }

    /** `poll_state`. With a handle, the output the process wrote since the
        last poll is drained from it, split into lines starting in the style
        the previous output ended in, and appended; the longest line can only
        raise `maxLineLength`; a finished process drops the handle and the run
        has just finished, and otherwise the run is rendering, modified
        exactly when there was new output. Without a handle nothing changes,
        so a run that has finished keeps reporting it. */
    method PollState() returns (r: RenderAsyncState)
      requires Valid()
      modifies this, if handle.Some? then {handle.value} else {}
      ensures Valid()
      ensures r == state
      ensures old(handle).None? ==> unchanged(this) && r == old(state)
      ensures old(state) == JustFinishedRendering ==> r == JustFinishedRendering
      ensures old(outputLines) <= outputLines && old(maxLineLength) <= maxLineLength
      ensures Rank(old(state)) <= Rank(state)
      ensures old(handle).Some? ==>
        var h := old(handle).value;
        var (lines, style) := split(old(startingStyle), old(h.output));
        && h.output == [] && h.status == old(h.status)
        && outputLines == old(outputLines) + lines
        && startingStyle == style
        && maxLineLength == MaxU16(old(maxLineLength), MaxWidth(lines, width))
        && stateDescription == StatusText(old(h.status))
        && (IsFinished(old(h.status)) ==> handle == None && state == JustFinishedRendering)
        && (!IsFinished(old(h.status)) ==> handle == old(handle) && state == Rendering(old(h.output) != []))
    {
      if handle.Some? {
        var h := handle.value;
        stateDescription := StatusText(h.status);
        var newOutput := h.output;
        h.output := [];
        var modified := newOutput != [];
        var isFinished := IsFinished(h.status);
        var (newLines, style) := split(startingStyle, newOutput);
        var longest := LongestLine(newLines, width);
        startingStyle := style;
        if isFinished {
          handle := None;
          state := JustFinishedRendering;
        } else {
          state := Rendering(modified);
        }
        outputLines := outputLines + newLines;
        maxLineLength := MaxU16(maxLineLength, longest);
      }
      r := state;
    }

    /** The width of the separator: the window's for a block aligned left or
        right, and a fixed one of at least `MinimumSeparatorWidth` columns for
        a centred block. */
    function SeparatorWidthOf(): (w: SeparatorWidth)
      reads this
      ensures alignment.Center? ==> w.FixedWidth? && w.width >= MinimumSeparatorWidth && w.width >= blockLength
      ensures alignment.Center? ==> w.width == blockLength || w.width == MinimumSeparatorWidth
      ensures !alignment.Center? ==> w == FitToWindow
    {
      match alignment
      case Left(_) => FitToWindow
      case Right(_) => FitToWindow
      case Center(_, _) => FixedWidth(MaxU16(blockLength, MinimumSeparatorWidth))
    }

    /** The block length the output is drawn with: the longest output line,
        raised to the operation's own block length when the alignment has a
        margin. */
    function RenderedBlockLength(): (r: u16)
      reads this
      ensures r >= maxLineLength
      ensures HasMargin(alignment) ==> r == MaxU16(blockLength, maxLineLength)
      ensures !HasMargin(alignment) ==> r == maxLineLength
    {
      if HasMargin(alignment) then MaxU16(blockLength, maxLineLength) else maxLineLength
    }

    /** `as_render_operations`: the separator (when displayed); and once the
        run has started, a line break, the block colours when they have a
        background, every output line as a block line followed by a line
        break, and the default colours restored. Before the run starts only
        the separator is shown. */
    method RenderOperations() returns (ops: seq<RenderOperation>)
      ensures var head := if separator == On then SeparatorOperations(stateDescription, SeparatorWidthOf()) else [];
        && (state == NotStarted ==> ops == head)
        && (state != NotStarted ==>
              ops == head + [RenderLineBreak]
                     + (if blockColors.background.Some? then [SetColors(blockColors)] else [])
                     + OutputOperations(outputLines, RenderedBlockLength(), alignment, blockColors.background)
                     + [SetColors(defaultColors)])
    {
      ops := [];
      if separator == On {
        ops := SeparatorOperations(stateDescription, SeparatorWidthOf());
      }
      if state == NotStarted {
        return;
      }
      ops := ops + [RenderLineBreak];
      if blockColors.background.Some? {
        ops := ops + [SetColors(blockColors)];
      }
      ops := PushOutputLines(ops, outputLines, RenderedBlockLength(), alignment, blockColors.background);
      ops := ops + [SetColors(defaultColors)];
    }
  }

  /** The loop of `as_render_operations` that adds the output lines. */
  method PushOutputLines(ops: seq<RenderOperation>, lines: seq<Line>, blockLength: u16, alignment: Alignment,
                         blockColor: Option<Color>) returns (result: seq<RenderOperation>)
    ensures result == ops + OutputOperations(lines, blockLength, alignment, blockColor)
  {
    result := ops;
    var i := 0;
    while i < |lines|
      invariant 0 <= i <= |lines|
      invariant result == ops + OutputOperations(lines[..i], blockLength, alignment, blockColor)
    {
      result := result + [RenderBlockLine(BlockLine(Plain([]), 0, false, lines[i], blockLength, alignment, blockColor)),
                          RenderLineBreak];
      ghost var done := OutputOperations(lines[..i], blockLength, alignment, blockColor);
      assert lines[..i + 1] == lines[..i] + [lines[i]];
      OutputOperationsAppend(lines[..i], lines[i], blockLength, alignment, blockColor);
      assert result == ops + (done + OutputLineOperations(lines[i], blockLength, alignment, blockColor));
      i := i + 1;
    }
    assert lines[..i] == lines;
  }

  /** `SnippetExecutionDisabledOperation`: where a snippet would run, a
      notice that execution is disabled, once it is started. */
  class SnippetExecutionDisabledOperation {
    const colors: Colors
    const alignment: Alignment
    var started: bool

    constructor(colors: Colors, alignment: Alignment)
      ensures this.colors == colors && this.alignment == alignment && !started
    {
      this.colors := colors;
      this.alignment := alignment;
      this.started := false;
    }

    /** `start_render`: starts once; only the first call answers true. */
    method StartRender() returns (r: bool)
      modifies this
      ensures started
      ensures r <==> !old(started)
    {
      r := !started;
      started := true;
    }

    /** `poll_state`: the notice is complete as soon as it exists. */
    function PollState(): (r: RenderAsyncState)
      ensures r == Rendered
    {
      Rendered
    }

    /** `as_render_operations`: nothing before the start; afterwards the
        notice, in the operation's colours and alignment, between two line
        breaks. */
    function RenderOperations(): (ops: seq<RenderOperation>)
      reads this
      ensures !started ==> ops == []
      ensures started ==> |ops| == 3 && ops[0] == RenderLineBreak && ops[2] == RenderLineBreak
      ensures started ==>
        ops[1] == RenderText(Line([Text("snippet execution is disabled", TextStyle(colors))]), alignment)
    {
      if !started then []
      else
        [ RenderLineBreak,
          RenderText(Line([Text("snippet execution is disabled", TextStyle(colors))]), alignment),
          RenderLineBreak ]
    }
  }

  /** How a step of `invoke` ended: a step that fails carries its error's
      text. */
  datatype Outcome = Done | Failed(message: string)

  /** What the steps of `invoke` report: leaving the alternate screen and
      raw mode, running the snippet, entering them again, whether the cursor
      is to be hidden, and hiding it. */
  datatype Steps = Steps(deinit: Outcome, run: Outcome, reinit: Outcome, hideCursor: bool, hide: Outcome)

  /** `RunAcquireTerminalSnippet::invoke`: the terminal is handed over, the
      snippet runs, and the terminal is taken back. A failure to hand it over
      ends the call before the snippet runs; a failure to take it back, or to
      hide the cursor when it should be hidden, replaces the snippet's own
      result, which is kept otherwise. */
  function Invoke(steps: Steps): (r: Outcome)
  {
    if steps.deinit.Failed? then Failed("failed to deinit terminal: " + steps.deinit.message)
    else
      var result := if steps.run.Failed? then Failed("failed to run snippet: " + steps.run.message) else Done;
      if steps.reinit.Failed? then Failed("failed to reinit terminal: " + steps.reinit.message)
      else if steps.hideCursor && steps.hide.Failed? then Failed(steps.hide.message)
      else result
  }

  /** The order in which the step errors win: handing the terminal over,
      then taking it back, then hiding the cursor, then the snippet itself;
      with every terminal step done, the result is the snippet's. */
  lemma InvokePrecedence(steps: Steps)
    ensures steps.deinit.Failed? ==> Invoke(steps) == Failed("failed to deinit terminal: " + steps.deinit.message)
    ensures steps.deinit.Done? && steps.reinit.Failed? ==>
      Invoke(steps) == Failed("failed to reinit terminal: " + steps.reinit.message)
    ensures steps.deinit.Done? && steps.reinit.Done? && steps.hideCursor && steps.hide.Failed? ==>
      Invoke(steps) == Failed(steps.hide.message)
    ensures steps.deinit.Done? && steps.reinit.Done? && (!steps.hideCursor || steps.hide.Done?) ==>
      (Invoke(steps).Done? <==> steps.run.Done?)
    ensures steps.deinit.Done? && steps.reinit.Done? && (!steps.hideCursor || steps.hide.Done?) && steps.run.Failed? ==>
      Invoke(steps) == Failed("failed to run snippet: " + steps.run.message)
    ensures Invoke(steps).Done? <==>
      steps.deinit.Done? && steps.run.Done? && steps.reinit.Done? && (!steps.hideCursor || steps.hide.Done?)
  {
  }

  /** When the terminal cannot be handed over the snippet never runs: the
      result is the same whatever running it would have reported. */
  lemma DeinitFailureSkipsRun(steps: Steps, run: Outcome)
    requires steps.deinit.Failed?
    ensures Invoke(steps) == Invoke(steps.(run := run))
  {
  }

  /** The left margin of an error line: a quarter of the width. */
  const QuarterMargin := Margin.Percent(25)

  datatype AcquireTerminalState = AcquireNotStarted | AcquireSuccess | AcquireFailure(lines: seq<string>)

  /** `RunAcquireTerminalSnippet`: runs a snippet in the foreground, with
      the terminal handed over to it, and then shows how the run ended. */
  class RunAcquireTerminalSnippet {
    const snippet: Snippet
    const blockLength: u16
    const colors: StatusColors
    var state: AcquireTerminalState

    constructor(snippet: Snippet, colors: StatusColors, blockLength: u16)
      ensures this.snippet == snippet && this.colors == colors && this.blockLength == blockLength
      ensures state == AcquireNotStarted
    {
      this.snippet := snippet;
      this.blockLength := blockLength;
      this.colors := colors;
      this.state := AcquireNotStarted;
    }

    /** `start_render`: runs only once. A failed invocation keeps its error
        split into lines; a successful one is remembered as such. */
    method StartRender(steps: Steps) returns (started: bool)
      modifies this
      ensures started <==> old(state) == AcquireNotStarted
      ensures !started ==> state == old(state)
      ensures started && Invoke(steps).Done? ==> state == AcquireSuccess
      ensures started && Invoke(steps).Failed? ==> state == AcquireFailure(Lines(Invoke(steps).message))
    {
      if state != AcquireNotStarted {
        return false;
      }
      var result := Invoke(steps);
      match result {
        case Failed(e) =>
          state := AcquireFailure(Lines(e));
        case Done =>
          state := AcquireSuccess;
      }
      started := true;
    }

    /** `poll_state`: the run is over once it has been started. */
    function PollState(): (r: RenderAsyncState)
      ensures r == Rendered
    {
      Rendered
    }

    /** The heading text for the state. */
    function StateText(): Text
      reads this
    {
      match state
      case AcquireNotStarted => Text("not started", TextStyle(colors.notStarted))
      case AcquireSuccess => Text("finished", TextStyle(colors.success))
      case AcquireFailure(_) => Text("finished with error", TextStyle(colors.failure))
    }

    /** `as_render_operations`: a separator at least `MinimumSeparatorWidth`
        wide naming the state; after a failure, a line break and each error
        line in the failure colour, with a quarter of the width as left
        margin, each followed by a line break. */
    method RenderOperations() returns (ops: seq<RenderOperation>)
      ensures |ops| >= 3 && ops[..3] == SeparatorOperations(StateText(), FixedWidth(MaxU16(blockLength, MinimumSeparatorWidth)))
      ensures !state.AcquireFailure? ==> |ops| == 3
      ensures state.AcquireFailure? ==>
        && |ops| == 4 + 2 * |state.lines| && ops[3] == RenderLineBreak
        && forall i :: 0 <= i < |state.lines| ==>
             && ops[4 + 2 * i] == RenderText(Line([Text(state.lines[i], TextStyle(colors.failure))]), Left(QuarterMargin))
             && ops[5 + 2 * i] == RenderLineBreak
    {
      ops := SeparatorOperations(StateText(), FixedWidth(MaxU16(blockLength, MinimumSeparatorWidth)));
      if state.AcquireFailure? {
        var lines := state.lines;
        ops := ops + [RenderLineBreak];
        var i := 0;
        while i < |lines|
          invariant 0 <= i <= |lines|
          invariant |ops| == 4 + 2 * i && ops[..3] == SeparatorOperations(StateText(), FixedWidth(MaxU16(blockLength, MinimumSeparatorWidth)))
          invariant ops[3] == RenderLineBreak
          invariant forall k :: 0 <= k < i ==>
            && ops[4 + 2 * k] == RenderText(Line([Text(lines[k], TextStyle(colors.failure))]), Left(QuarterMargin))
            && ops[5 + 2 * k] == RenderLineBreak
        {
          ops := ops + [RenderText(Line([Text(lines[i], TextStyle(colors.failure))]), Left(QuarterMargin)), RenderLineBreak];
          i := i + 1;
        }
      }
    }
  }
}
