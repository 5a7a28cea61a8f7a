/** `CodePreparer` (src/processing/code.rs): turns a snippet into the code
    lines a slide shows, one per visible line, with tabs expanded, a
    horizontal padding on both sides, optional line numbers, and an empty
    line above and below when the theme asks for vertical padding.

    How a line number is padded (`NumberPadder`) is not part of this model:
    it enters as the parameter `pad`, which receives the number and the
    count of visible lines. */
module CodePreparer {
  import opened RustStr
  import opened CodeSnippet

  type u8 = x: int | 0 <= x < 0x100

  /** `CodeLine`. */
  datatype CodeLine = CodeLine(prefix: string, code: string, rightPaddingLength: u16, lineNumber: Option<u16>)

  /** `CodeLine::empty`: a blank line without a number. */
  const EmptyLine := CodeLine([], "\n", 0, None)

  function Spaces(n: nat): (r: string)
    ensures |r| == n && forall i :: 0 <= i < n ==> r[i] == ' '
  {
    seq(n, _ => ' ')
  }

  /** `index as u16 + 1`: the 1-based number of the line at `index`, which
      wraps around past 65535 lines. */
  function LineNumberAt(index: nat): (r: u16)
    ensures index < U16_MAX ==> r == index + 1
  {
    ((index % 0x1_0000) + 1) % 0x1_0000
  }

  /** The code line for the visible line at `index`. */
  function LineAt(line: string, index: nat, count: nat, lineNumbers: bool, horizontalPadding: u8,
                  pad: (nat, nat) -> string): CodeLine
  {
    var padding := Spaces(horizontalPadding);
    var prefix := if lineNumbers then padding + pad(index + 1, count) + " " else padding;
    CodeLine(prefix, ExpandTabs(line) + "\n", horizontalPadding, Some(LineNumberAt(index)))
  }

  /** The code lines for a sequence of visible lines, in order. */
  function NumberedLines(visible: seq<string>, lineNumbers: bool, horizontalPadding: u8,
                         pad: (nat, nat) -> string): (r: seq<CodeLine>)
    ensures |r| == |visible|
  {
    seq(|visible|, i requires 0 <= i < |visible| =>
      LineAt(visible[i], i, |visible|, lineNumbers, horizontalPadding, pad))
  }

  /** The lines `push_lines` adds: none for empty contents, and otherwise
      one per visible line, in order. */
  function CodeLines(snippet: Snippet, hiddenLinePrefix: Option<string>, horizontalPadding: u8,
                     pad: (nat, nat) -> string): seq<CodeLine>
  {
    if snippet.contents == [] then []
    else NumberedLines(VisibleLines(snippet, hiddenLinePrefix), snippet.attributes.lineNumbers, horizontalPadding, pad)
  }

  /** `push_lines`: appends one code line per visible line to `lines`. */
  method PushLines(snippet: Snippet, hiddenLinePrefix: Option<string>, horizontalPadding: u8,
                   pad: (nat, nat) -> string, lines: seq<CodeLine>) returns (result: seq<CodeLine>)
    ensures result == lines + CodeLines(snippet, hiddenLinePrefix, horizontalPadding, pad)
  {
    if snippet.contents == [] {
      assert lines + [] == lines;
      return lines;
    }
    var visible := VisibleLines(snippet, hiddenLinePrefix);
    result := PushVisible(visible, snippet.attributes.lineNumbers, horizontalPadding, pad, lines);
  }

  /** The loop of `push_lines`, over the visible lines. */
  method PushVisible(visible: seq<string>, lineNumbers: bool, horizontalPadding: u8,
                     pad: (nat, nat) -> string, lines: seq<CodeLine>) returns (result: seq<CodeLine>)
    ensures result == lines + NumberedLines(visible, lineNumbers, horizontalPadding, pad)
  {
    result := lines;
    var padding := Spaces(horizontalPadding);
    var count := |visible|;
    ghost var expected := NumberedLines(visible, lineNumbers, horizontalPadding, pad);
    var index := 0;
    while index < count
      invariant 0 <= index <= count
      invariant |result| == |lines| + index && result[..|lines|] == lines
      invariant forall k :: 0 <= k < index ==> result[|lines| + k] == expected[k]
    {
      var line := ExpandTabs(visible[index]);
      var prefix := padding;
      if lineNumbers {
        prefix := prefix + pad(index + 1, count) + " ";
      }
      line := line + "\n";
      var lineNumber := Some(((index % 0x1_0000) + 1) % 0x1_0000);
      result := result + [CodeLine(prefix, line, horizontalPadding, lineNumber)];
      index := index + 1;
    }
    assert result == lines + expected;
  }

  /** `prepare`: the code lines, between two empty lines when the vertical
      padding is positive. Both paddings default to zero when the theme sets
      none. */
  method Prepare(snippet: Snippet, hiddenLinePrefix: Option<string>, horizontalPadding: Option<u8>,
                 verticalPadding: Option<u8>, pad: (nat, nat) -> string) returns (lines: seq<CodeLine>)
    ensures lines == PreparedLines(snippet, hiddenLinePrefix, horizontalPadding, verticalPadding, pad)
  {
    var horizontal := OrZero(horizontalPadding);
    var vertical := OrZero(verticalPadding);
    lines := [];
    if vertical > 0 {
      lines := lines + [EmptyLine];
    }
    lines := PushLines(snippet, hiddenLinePrefix, horizontal, pad, lines);
    if vertical > 0 {
      lines := lines + [EmptyLine];
    }
  }

  /** What `prepare` returns. */
  function PreparedLines(snippet: Snippet, hiddenLinePrefix: Option<string>, horizontalPadding: Option<u8>,
                         verticalPadding: Option<u8>, pad: (nat, nat) -> string): seq<CodeLine>
  {
    var code := CodeLines(snippet, hiddenLinePrefix, OrZero(horizontalPadding), pad);
    if OrZero(verticalPadding) > 0 then [EmptyLine] + code + [EmptyLine] else code
  }

  /** Each code line is its visible line with tabs expanded to four spaces
      and a newline added, so it holds no tab; lines are numbered
      consecutively from 1; each starts with the horizontal padding (then the
      padded number and a space when line numbers are on) and is padded on
      the right by as much. */
  lemma NumberedLinesShape(visible: seq<string>, lineNumbers: bool, h: u8, pad: (nat, nat) -> string, i: nat)
    requires i < |visible|
    ensures var l := NumberedLines(visible, lineNumbers, h, pad)[i];
      && l.code == ExpandTabs(visible[i]) + "\n"
      && '\t' !in l.code
      && |l.code| == |visible[i]| + 3 * CountChar(visible[i], '\t') + 1
      && (i < U16_MAX ==> l.lineNumber == Some(i + 1))
      && l.rightPaddingLength == h
      && l.prefix == Spaces(h) + (if lineNumbers then pad(i + 1, |visible|) + " " else [])
  {
    var l := NumberedLines(visible, lineNumbers, h, pad)[i];
    ExpandTabsLength(visible[i]);
    assert forall c :: c in l.code ==> c in ExpandTabs(visible[i]) || c == '\n';
    if !lineNumbers {
      assert Spaces(h) + [] == Spaces(h);
    }
  }

  /** `unwrap_or(0)` on a padding the theme may leave unset. */
  function OrZero(padding: Option<u8>): u8 {
    match padding case Some(p) => p case None => 0
  }

  /** The shape of the prepared lines: one per visible line, plus an empty
      line at each end exactly when there is vertical padding, with the
      visible lines' code lines, in order, in between. */
  lemma PreparedShape(snippet: Snippet, hiddenLinePrefix: Option<string>, horizontalPadding: Option<u8>,
                      verticalPadding: Option<u8>, pad: (nat, nat) -> string)
    ensures var lines := PreparedLines(snippet, hiddenLinePrefix, horizontalPadding, verticalPadding, pad);
      |lines| == |VisibleLines(snippet, hiddenLinePrefix)| + (if OrZero(verticalPadding) > 0 then 2 else 0)
    ensures var lines := PreparedLines(snippet, hiddenLinePrefix, horizontalPadding, verticalPadding, pad);
      OrZero(verticalPadding) > 0 ==> lines[0] == EmptyLine && lines[|lines| - 1] == EmptyLine
    ensures var lines := PreparedLines(snippet, hiddenLinePrefix, horizontalPadding, verticalPadding, pad);
      var code := NumberedLines(VisibleLines(snippet, hiddenLinePrefix), snippet.attributes.lineNumbers,
                                OrZero(horizontalPadding), pad);
      var first := if OrZero(verticalPadding) > 0 then 1 else 0;
      forall i :: 0 <= i < |code| ==> lines[first + i] == code[i]
  {
    var code := NumberedLines(VisibleLines(snippet, hiddenLinePrefix), snippet.attributes.lineNumbers,
                              OrZero(horizontalPadding), pad);
    if OrZero(verticalPadding) > 0 {
      var lines := [EmptyLine] + code + [EmptyLine];
      assert forall i :: 0 <= i < |code| ==> lines[1 + i] == code[i];
    }
  }

  /** Without tabs and hidden lines, and without line numbers or padding,
      the prepared code is the snippet's own lines, each ended by a
      newline. */
  lemma PlainLinesUnchanged(snippet: Snippet, pad: (nat, nat) -> string)
    requires '\t' !in snippet.contents && !snippet.attributes.lineNumbers
    ensures var lines := PreparedLines(snippet, None, None, None, pad);
      var source := Lines(snippet.contents);
      |lines| == |source| && forall i :: 0 <= i < |source| ==> lines[i].code == source[i] + "\n" && lines[i].prefix == []
  {
    var source := Lines(snippet.contents);
    var lines := PreparedLines(snippet, None, None, None, pad);
    PreparedShape(snippet, None, None, None, pad);
    forall i | 0 <= i < |source|
      ensures lines[i].code == source[i] + "\n" && lines[i].prefix == []
    {
      NumberedLinesShape(source, false, 0, pad, i);
      LinesAreSubstrings(snippet.contents, i);
      ExpandTabsLength(source[i]);
    }
  }

  /** Every line of a text is made of the text's characters. */
  lemma {:induction false} LinesAreSubstrings(s: string, i: nat)
    requires i < |Lines(s)|
    ensures forall c :: c in Lines(s)[i] ==> c in s
    decreases |s|
  {
    match SplitOnce(s, '\n')
    case None =>
    case Some((line, rest)) =>
      assert forall c :: c in line ==> c in s;
      assert forall c :: c in rest ==> c in s;
      if i > 0 {
        LinesAreSubstrings(rest, i - 1);
      }
  }
}
