/** The render vocabulary the processing code produces: styled text, lines,
    alignments, block lines, render operations and the lifecycle of an
    asynchronously rendered operation. Colours and text styles are carried
    as values and never interpreted. */
module Presentation {
  import opened RustStr

  datatype Color = Color(name: string)

  datatype Colors = Colors(foreground: Option<Color>, background: Option<Color>)

  datatype TextStyle = TextStyle(colors: Colors)

  const DefaultColors := Colors(None, None)
  const DefaultStyle := TextStyle(DefaultColors)

  /** A run of text in one style. */
  datatype Text = Text(content: string, style: TextStyle)

  function Plain(content: string): Text {
    Text(content, DefaultStyle)
  }

  /** A line of styled text runs (`Line`, and `WeightedLine`, which only adds
      cached widths). */
  datatype Line = Line(segments: seq<Text>)

  function PlainLine(content: string): Line {
    Line([Plain(content)])
  }

  datatype Margin = Fixed(columns: u16) | Percent(percent: nat)

  /** A margin that takes no room. */
  predicate IsEmptyMargin(m: Margin) {
    match m
    case Fixed(c) => c == 0
    case Percent(p) => p == 0
  }

  datatype Alignment =
    | Left(margin: Margin)
    | Right(margin: Margin)
    | Center(minimumMargin: Margin, minimumSize: u16)

  datatype BlockLine = BlockLine(
    prefix: Text,
    rightPaddingLength: u16,
    repeatPrefixOnWrap: bool,
    text: Line,
    blockLength: u16,
    alignment: Alignment,
    blockColor: Option<Color>)

  datatype SeparatorWidth = FixedWidth(width: u16) | FitToWindow

  /** A horizontal rule with a heading in its middle. */
  datatype RenderSeparator = RenderSeparator(heading: Line, width: SeparatorWidth)

  datatype WindowSize = WindowSize(rows: u16, columns: u16)

  datatype RenderOperation =
    | RenderLineBreak
    | SetColors(colors: Colors)
    | RenderBlockLine(blockLine: BlockLine)
    | RenderText(line: Line, alignment: Alignment)
    | RenderDynamic(separator: RenderSeparator)

  /** The lifecycle of an asynchronously rendered operation. */
  datatype RenderAsyncState =
    | NotStarted
    | Rendering(modified: bool)
    | JustFinishedRendering
    | Rendered

  /** The position of a state in the order
      NotStarted < Rendering < JustFinishedRendering < Rendered. */
  function Rank(s: RenderAsyncState): nat {
    match s
    case NotStarted => 0
    case Rendering(_) => 1
    case JustFinishedRendering => 2
    case Rendered => 3
  }

  function Max(a: int, b: int): int {
    if a >= b then a else b
  }

  function Min(a: int, b: int): int {
    if a <= b then a else b
  }
}
