/** Code snippets and their attributes (src/processing/code.rs): highlight
    groups and the line numbers they cover, and the handling of hidden lines
    (lines starting with a configured prefix, shown to the executor but not
    on the slide). */
module CodeSnippet {
  import opened RustStr
  import opened CodeLanguage

  /** One entry of a highlight group; `Range` is half-open. */
  datatype Highlight = All | Single(line: u16) | Range(start: u16, end: u16)

  /** Whether one highlight covers a line number. */
  predicate Covers(h: Highlight, lineNumber: u16) {
    match h
    case All => true
    case Single(n) => n == lineNumber
    case Range(start, end) => start <= lineNumber < end
  }

  /** The lines emphasised together in one step of a reveal. */
  datatype HighlightGroup = HighlightGroup(highlights: seq<Highlight>)

  /** `HighlightGroup::contains`: the highlights are tried in order, the first
      that covers the line answers true, and none covering it gives false. */
  function Contains(group: HighlightGroup, lineNumber: u16): (r: bool)
    ensures r <==> exists i :: 0 <= i < |group.highlights| && Covers(group.highlights[i], lineNumber)
    decreases |group.highlights|
  {
    if group.highlights == [] then false
    else
      var h := group.highlights[0];
      if h.All? || (h.Single? && h.line == lineNumber) || (h.Range? && h.start <= lineNumber < h.end) then true
      else
        var rest := Contains(HighlightGroup(group.highlights[1..]), lineNumber);
        assert forall i :: 1 <= i < |group.highlights| ==>
          group.highlights[i] == group.highlights[1..][i - 1];
        rest
  }

  /** The loop of `HighlightGroup::contains`, which returns as soon as a
      highlight covers the line. */
  method GroupContains(group: HighlightGroup, lineNumber: u16) returns (r: bool)
    ensures r == Contains(group, lineNumber)
    ensures r <==> exists i :: 0 <= i < |group.highlights| && Covers(group.highlights[i], lineNumber)
  {
    var i := 0;
    while i < |group.highlights|
      invariant 0 <= i <= |group.highlights|
      invariant forall k :: 0 <= k < i ==> !Covers(group.highlights[k], lineNumber)
    {
      match group.highlights[i] {
        case All => return true;
        case Single(n) =>
          if n == lineNumber {
            return true;
          }
        case Range(start, end) =>
          if start <= lineNumber < end {
            return true;
          }
      }
      i := i + 1;
    }
    return false;
  }

  /** A width given as a percentage; how its text is read is not part of
      this model. */
  datatype Percent = Percent(value: nat)

  /** `SnippetAttributes`. */
  datatype SnippetAttributes = SnippetAttributes(
    execute: bool,
    executeReplace: bool,
    autoRender: bool,
    lineNumbers: bool,
    highlightGroups: seq<HighlightGroup>,
    width: Option<Percent>,
    noBackground: bool,
    acquireTerminal: bool)

  /** `SnippetAttributes::default()`. */
  const DefaultAttributes := SnippetAttributes(false, false, false, false, [], None, false, false)

  /** A code block: its text, its language and its attributes. */
  datatype Snippet = Snippet(contents: string, language: SnippetLanguage, attributes: SnippetAttributes)

  predicate IsHidden(line: string, hiddenLinePrefix: Option<string>) {
    hiddenLinePrefix.Some? && StartsWith(line, hiddenLinePrefix.value)
  }

  function HiddenCount(lines: seq<string>, hiddenLinePrefix: Option<string>): nat {
    if lines == [] then 0
    else (if IsHidden(lines[0], hiddenLinePrefix) then 1 else 0) + HiddenCount(lines[1..], hiddenLinePrefix)
  }

  /** The lines that are not hidden, in their original order. */
  function Unhidden(lines: seq<string>, hiddenLinePrefix: Option<string>): (r: seq<string>)
    ensures |r| + HiddenCount(lines, hiddenLinePrefix) == |lines|
    ensures forall l :: l in r <==> l in lines && !IsHidden(l, hiddenLinePrefix)
    ensures hiddenLinePrefix.None? ==> r == lines
  {
    if lines == [] then []
    else
      var rest := Unhidden(lines[1..], hiddenLinePrefix);
      assert forall l :: l in lines <==> l == lines[0] || l in lines[1..];
      if IsHidden(lines[0], hiddenLinePrefix) then rest else [lines[0]] + rest
  }

  /** Hiding works line by line and keeps the order: the visible lines of two
      runs of lines are those of the first run followed by those of the
      second. */
  lemma {:induction false} UnhiddenAppend(a: seq<string>, b: seq<string>, hiddenLinePrefix: Option<string>)
    ensures Unhidden(a + b, hiddenLinePrefix) == Unhidden(a, hiddenLinePrefix) + Unhidden(b, hiddenLinePrefix)
    decreases |a|
  {
    if a != [] {
      var ab := a + b;
      assert ab[1..] == a[1..] + b;
      UnhiddenAppend(a[1..], b, hiddenLinePrefix);
      assert ab[0] == a[0];
    } else {
      assert a + b == b;
    }
  }

  /** A single line is kept exactly when it is not hidden. */
  lemma UnhiddenSingle(line: string, hiddenLinePrefix: Option<string>)
    ensures Unhidden([line], hiddenLinePrefix) == if IsHidden(line, hiddenLinePrefix) then [] else [line]
  {
    assert [line][1..] == [];
  }

  /** `Snippet::visible_lines`: the snippet's lines (as `str::lines` splits
      them) without those starting with the hidden-line prefix. */
  function VisibleLines(snippet: Snippet, hiddenLinePrefix: Option<string>): (r: seq<string>)
    ensures forall l :: l in r <==> l in Lines(snippet.contents) && !IsHidden(l, hiddenLinePrefix)
    ensures hiddenLinePrefix.None? ==> r == Lines(snippet.contents)
  {
    Unhidden(Lines(snippet.contents), hiddenLinePrefix)
  }

  /** `str::strip_prefix(prefix).unwrap_or(line)`: one prefix is removed,
      never more. */
  function StripHidden(line: string, prefix: string): (r: string)
    ensures StartsWith(line, prefix) ==> prefix + r == line
    ensures !StartsWith(line, prefix) ==> r == line
  {
    match StripPrefix(line, prefix)
    case Some(rest) => rest
    case None => line
  }

  function StripAll(lines: seq<string>, prefix: string): (r: seq<string>)
    ensures |r| == |lines|
    ensures forall i :: 0 <= i < |lines| ==> r[i] == StripHidden(lines[i], prefix)
  {
    if lines == [] then [] else [StripHidden(lines[0], prefix)] + StripAll(lines[1..], prefix)
  }

  /** `Snippet::executable_contents`: with a prefix, every line loses the
      prefix once if it has it and is written back ended by `\n`; without
      one, the contents as they are. */
  function ExecutableContents(snippet: Snippet, hiddenLinePrefix: Option<string>): (r: string)
    ensures hiddenLinePrefix.None? ==> r == snippet.contents
    ensures hiddenLinePrefix.Some? ==> r == [] || r[|r| - 1] == '\n'
  {
    match hiddenLinePrefix
    case Some(prefix) => JoinLines(StripAll(Lines(snippet.contents), prefix))
    case None => snippet.contents
  }

  /** With a prefix, the executable text is newline-terminated, and, when no
      line of the contents keeps a carriage return at its end (as with `\n`
      or `\r\n` line endings), its lines are the snippet's lines with the
      prefix stripped once from each, one for one. */
  lemma {:induction false} ExecutableContentsLines(snippet: Snippet, prefix: string)
    requires forall i :: 0 <= i < |Lines(snippet.contents)| ==> !EndsWithCr(Lines(snippet.contents)[i])
    ensures var e := ExecutableContents(snippet, Some(prefix));
      && (e == [] || e[|e| - 1] == '\n')
      && Lines(e) == StripAll(Lines(snippet.contents), prefix)
  {
    var lines := Lines(snippet.contents);
    var stripped := StripAll(lines, prefix);
    forall i | 0 <= i < |stripped|
      ensures '\n' !in stripped[i] && !EndsWithCr(stripped[i])
    {
      var l := lines[i];
      if StartsWith(l, prefix) {
        assert stripped[i] == l[|prefix|..];
        assert forall c :: c in stripped[i] ==> c in l;
      }
    }
    LinesOfJoinLines(stripped);
  }

  /** A line of a text without `\r` holds no `\r`. */
  lemma {:induction false} LinesHaveNoCr(s: string, i: nat)
    requires '\r' !in s && i < |Lines(s)|
    ensures '\r' !in Lines(s)[i]
    decreases |s|
  {
    match SplitOnce(s, '\n')
    case None =>
    case Some((line, rest)) =>
      assert forall c :: c in line ==> c in s;
      assert forall c :: c in rest ==> c in s;
      if i > 0 {
        LinesHaveNoCr(rest, i - 1);
      }
  }

  /** When no line is hidden, and the contents are newline-terminated and
      hold no carriage return, stripping changes nothing: the executable text
      is the snippet's own text, as when there is no prefix. */
  lemma {:induction false} ExecutableContentsUnchanged(snippet: Snippet, prefix: string)
    requires '\r' !in snippet.contents
    requires snippet.contents == [] || snippet.contents[|snippet.contents| - 1] == '\n'
    requires forall l :: l in Lines(snippet.contents) ==> !StartsWith(l, prefix)
    ensures ExecutableContents(snippet, Some(prefix)) == snippet.contents
  {
    var lines := Lines(snippet.contents);
    assert StripAll(lines, prefix) == lines;
    JoinLinesOfLines(snippet.contents);
  }
}
