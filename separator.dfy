/** `RenderSeparator::as_render_operations` (src/processing/separator.rs): a
    rule of em dashes as wide as the window or a fixed width, with a heading
    in its middle.

    The display width of text (Unicode width) and the layout's computed
    maximum line length are not part of this model: they enter as the
    parameters `textWidth` and `layoutWidth`. */
module Separator {
  import opened RustStr
  import opened Presentation

  /** The rule character, "—". */
  const Dash: char := '\U{2014}'

  function Dashes(n: nat): (r: string)
    ensures |r| == n
    ensures forall i :: 0 <= i < n ==> r[i] == Dash
  {
    seq(n, _ => Dash)
  }

  /** Rust's `usize::saturating_sub`. */
  function SaturatingSub(a: nat, b: nat): (r: nat)
    ensures a >= b ==> r + b == a
    ensures a < b ==> r == 0
  {
    if a >= b then a - b else 0
  }

  /** The display width of a line: the widths of its runs added up. */
  function LineWidth(line: Line, textWidth: string -> nat): nat
    decreases |line.segments|
  {
    if line.segments == [] then 0
    else textWidth(line.segments[0].content) + LineWidth(Line(line.segments[1..]), textWidth)
  }

  /** The number of columns the rule spans: the window's width, or the fixed
      width capped by what the centred layout leaves (`layoutWidth`). The
      value always fits the `u16` block length it becomes. */
  function SeparatorColumns(width: SeparatorWidth, window: WindowSize, layoutWidth: u16): (r: u16)
    ensures width.FitToWindow? ==> r == window.columns
    ensures width.FixedWidth? ==> r <= width.width && r <= layoutWidth
    ensures width.FixedWidth? ==> r == width.width || r == layoutWidth
  {
    match width
    case FixedWidth(w) => Min(layoutWidth, w)
    case FitToWindow => window.columns
  }

  predicate AllDashes(s: string) {
    forall i :: 0 <= i < |s| ==> s[i] == Dash
  }

  /** The text of the rule. A heading of width zero is dropped and the rule
      is `columns` dashes. Otherwise the columns the heading leaves (none if
      it is at least as wide) are split into a left run of dashes, the
      heading's own runs unchanged and in order, and a right run holding the
      same number of dashes as the left one or one more. With a heading no
      wider than the rule, dashes and heading fill it exactly; a wider one
      leaves both runs empty, as the subtraction saturates. */
  function SeparatorText(heading: Line, columns: nat, headingWidth: nat): (r: Line)
    ensures headingWidth == 0 ==> |r.segments| == 1 && |r.segments[0].content| == columns
    ensures |r.segments| >= 1 && forall i :: 0 <= i < |r.segments| && (i == 0 || i == |r.segments| - 1) ==>
      AllDashes(r.segments[i].content) && r.segments[i].style == DefaultStyle
    ensures headingWidth > 0 ==>
      && |r.segments| == |heading.segments| + 2
      && r.segments[1..|r.segments| - 1] == heading.segments
      && var left, right := |r.segments[0].content|, |r.segments[|r.segments| - 1].content|;
         && left + right == SaturatingSub(columns, headingWidth)
         && (right == left || right == left + 1)
         && (headingWidth <= columns ==> left + headingWidth + right == columns)
         && (headingWidth >= columns ==> left == 0 && right == 0)
  {
    if headingWidth == 0 then
      Line([Plain(Dashes(columns))])
    else
      var total := SaturatingSub(columns, headingWidth);
      var left := total / 2;
      var right := left + total % 2;
      Line([Plain(Dashes(left))] + heading.segments + [Plain(Dashes(right))])
  }

  /** The single block line the separator renders as: centred, with no
      prefix, no right padding, no colour, and a block as long as the rule. */
  function SeparatorOperations(separator: RenderSeparator, window: WindowSize, layoutWidth: u16,
                               textWidth: string -> nat): (ops: seq<RenderOperation>)
    ensures |ops| == 1 && ops[0].RenderBlockLine?
    ensures var b := ops[0].blockLine;
      && b.blockLength == SeparatorColumns(separator.width, window, layoutWidth)
      && b.text == SeparatorText(separator.heading, b.blockLength, LineWidth(separator.heading, textWidth))
      && b.prefix == Plain([]) && b.rightPaddingLength == 0 && b.blockColor == None
      && b.alignment == Center(Fixed(0), 1) && !b.repeatPrefixOnWrap
  {
    var columns := SeparatorColumns(separator.width, window, layoutWidth);
    var text := SeparatorText(separator.heading, columns, LineWidth(separator.heading, textWidth));
    [RenderBlockLine(BlockLine(Plain([]), 0, false, text, columns, Center(Fixed(0), 1), None))]
  }
}
