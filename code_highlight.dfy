/** Highlighting of code lines (src/processing/code.rs): the shared context
    that says which highlight group is current, the mutator that steps
    through the groups one slide step at a time, and the choice each code
    line makes between its highlighted and its plain rendering. */
module CodeHighlight {
  import opened RustStr
  import opened Presentation
  import opened CodeSnippet

  /** `HighlightContext`: shared by every line of a block and by the
      mutator, which moves `current` in place. */
  class HighlightContext {
    var groups: seq<HighlightGroup>
    var current: nat
    var blockLength: nat
    var alignment: Alignment

    /** The groups are never empty (a parsed block always has one) and
        `current` indexes one of them. */
    ghost predicate Valid()
      reads this
    {
      |groups| > 0 && current < |groups|
    }

    constructor(groups: seq<HighlightGroup>, current: nat, blockLength: nat, alignment: Alignment)
      requires |groups| > 0 && current < |groups|
      ensures Valid()
      ensures this.groups == groups && this.current == current
      ensures this.blockLength == blockLength && this.alignment == alignment
    {
      this.groups := groups;
      this.current := current;
      this.blockLength := blockLength;
      this.alignment := alignment;
    }
  }

  /** The index after one step forward: the last group is a stop. */
  function NextIndex(current: nat, count: nat): (r: nat)
    requires current < count
    ensures r < count
    ensures current < count - 1 ==> r == current + 1
    ensures current == count - 1 ==> r == current
  {
    if current == count - 1 then current else current + 1
  }

  /** The index after one step back: the first group is a stop. */
  function PreviousIndex(current: nat): (r: nat)
    ensures current > 0 ==> r + 1 == current
    ensures current == 0 ==> r == 0
  {
    if current == 0 then 0 else current - 1
  }

  /** `steps` steps forward from `current`. */
  function Forward(current: nat, count: nat, steps: nat): (r: nat)
    requires current < count
    ensures r < count
    decreases steps
  {
    if steps == 0 then current else Forward(NextIndex(current, count), count, steps - 1)
  }

  /** Stepping forward moves one group at a time and stops at the last:
      from the first group, as many steps as there are groups after it reach
      the last, which is where applying every mutation puts the cursor. */
  lemma {:induction false} ForwardReaches(current: nat, count: nat, steps: nat)
    requires current < count
    ensures Forward(current, count, steps) == Min(current + steps, count - 1)
    decreases steps
  {
    if steps > 0 {
      ForwardReaches(NextIndex(current, count), count, steps - 1);
    }
  }

  /** A step forward that moved is undone by a step back, and the other
      way round. */
  lemma StepsUndo(current: nat, count: nat)
    requires current < count
    ensures current < count - 1 ==> PreviousIndex(NextIndex(current, count)) == current
    ensures current > 0 ==> NextIndex(PreviousIndex(current), count) == current
  {
  }

  /** `HighlightMutator`: the slide-step mutator of a code block. */
  class HighlightMutator {
    const context: HighlightContext

    constructor(context: HighlightContext)
      ensures this.context == context
    {
      this.context := context;
    }

    /** `mutate_next`: one group forward, unless already at the last. */
    method MutateNext() returns (moved: bool)
      requires context.Valid()
      modifies context
      ensures context.Valid()
      ensures moved <==> old(context.current) < |context.groups| - 1
      ensures context.current == NextIndex(old(context.current), |old(context.groups)|)
      ensures context.groups == old(context.groups) && context.blockLength == old(context.blockLength)
      ensures context.alignment == old(context.alignment)
    {
      if context.current == |context.groups| - 1 {
        moved := false;
      } else {
        context.current := context.current + 1;
        moved := true;
      }
    }

    /** `mutate_previous`: one group back, unless already at the first. */
    method MutatePrevious() returns (moved: bool)
      requires context.Valid()
      modifies context
      ensures context.Valid()
      ensures moved <==> old(context.current) > 0
      ensures context.current == PreviousIndex(old(context.current))
      ensures context.groups == old(context.groups) && context.blockLength == old(context.blockLength)
      ensures context.alignment == old(context.alignment)
    {
      if context.current == 0 {
        moved := false;
      } else {
        context.current := context.current - 1;
        moved := true;
      }
    }

    /** `reset_mutations`: back to the first group. */
    method ResetMutations()
      requires context.Valid()
      modifies context
      ensures context.Valid()
      ensures context.current == 0
      ensures context.groups == old(context.groups) && context.blockLength == old(context.blockLength)
      ensures context.alignment == old(context.alignment)
    {
      context.current := 0;
    }

    /** `apply_all_mutations`: straight to the last group. */
    method ApplyAllMutations()
      requires context.Valid()
      modifies context
      ensures context.Valid()
      ensures context.current == |context.groups| - 1
      ensures context.current == Forward(0, |context.groups|, |context.groups| - 1)
      ensures context.groups == old(context.groups) && context.blockLength == old(context.blockLength)
      ensures context.alignment == old(context.alignment)
    {
      context.current := |context.groups| - 1;
      ForwardReaches(0, |context.groups|, |context.groups| - 1);
    }

    /** `mutations`: how far the block has stepped, and how many steps
        there are; the first is always below the second. */
    function Mutations(): (r: (nat, nat))
      requires context.Valid()
      reads this, context
      ensures r.0 < r.1 && r.1 == |context.groups|
      ensures r.0 == context.current
    {
      (context.current, |context.groups|)
    }
  }

  /** `HighlightedLine`: a code line with both of its renderings, sharing the
      block's context. */
  datatype HighlightedLine = HighlightedLine(
    prefix: Text,
    rightPaddingLength: u16,
    highlighted: Line,
    notHighlighted: Line,
    lineNumber: Option<u16>,
    context: HighlightContext,
    blockColor: Option<Color>)

  /** Whether a line is emphasised under the current group: only a numbered
      line can be, and then exactly when some highlight of the group covers
      its number. */
  predicate NeedsHighlight(lineNumber: Option<u16>, group: HighlightGroup) {
    lineNumber.Some? && exists i :: 0 <= i < |group.highlights| && Covers(group.highlights[i], lineNumber.value)
  }

  /** `HighlightedLine::as_render_operations`: one block line followed by a
      line break. The block line shows the highlighted text exactly when the
      line needs highlighting under the current group, and carries the
      context's block length (cut to 16 bits, as `as u16` does) and
      alignment. */
  function HighlightedLineOperations(line: HighlightedLine): (ops: seq<RenderOperation>)
    requires line.context.Valid()
    reads line.context
    ensures |ops| == 2 && ops[0].RenderBlockLine? && ops[1] == RenderLineBreak
    ensures var group := line.context.groups[line.context.current];
      ops[0].blockLine.text == if NeedsHighlight(line.lineNumber, group) then line.highlighted else line.notHighlighted
    ensures var b := ops[0].blockLine;
      && b.prefix == line.prefix && b.rightPaddingLength == line.rightPaddingLength && !b.repeatPrefixOnWrap
      && b.blockLength == line.context.blockLength % 0x1_0000
      && b.alignment == line.context.alignment && b.blockColor == line.blockColor
  {
    var group := line.context.groups[line.context.current];
    var needsHighlight := match line.lineNumber
      case Some(n) => Contains(group, n)
      case None => false;
    var text := if needsHighlight then line.highlighted else line.notHighlighted;
    [ RenderBlockLine(BlockLine(line.prefix, line.rightPaddingLength, false, text,
                                line.context.blockLength % 0x1_0000, line.context.alignment, line.blockColor)),
      RenderLineBreak ]
  }

  /** Under the group of all lines, which a block gets when it names no
      highlighted lines, every numbered line is highlighted and only the
      empty padding lines (which have no number) are not. */
  lemma AllGroupHighlightsNumbered(lineNumber: Option<u16>)
    ensures NeedsHighlight(lineNumber, HighlightGroup([All])) <==> lineNumber.Some?
  {
    if lineNumber.Some? {
      assert Covers(HighlightGroup([All]).highlights[0], lineNumber.value);
    }
  }

  /** A range covers exactly the numbers from its start up to, and not
      including, its end. */
  lemma RangeIsHalfOpen(start: u16, end: u16, n: u16)
    ensures NeedsHighlight(Some(n), HighlightGroup([Range(start, end)])) <==> start <= n < end
  {
    var group := HighlightGroup([Range(start, end)]);
    if start <= n < end {
      assert Covers(group.highlights[0], n);
    }
  }
}
