/** `CodeBlockParser` (src/processing/code.rs): turns the info string of a
    fenced code block, such as `bash +exec +line_numbers {1-3,5|6-9}`, into a
    language and a set of snippet attributes.

    The loops of the parser are methods, each proved equal to a function
    that states the same parse declaratively; the properties of the parse
    are lemmas about those functions. How a width such as `50%` is read is
    not part of this model: it enters as the parameter `parsePercent`. */
module CodeParser {
  import opened RustStr
  import opened CodeLanguage
  import opened CodeSnippet

  /** `CodeBlockParseError`. The detail of a rejected width is the rejected
      text. */
  datatype ParseError =
    | InvalidToken(token: string)
    | InvalidHighlightedLines(reason: string)
    | InvalidWidth(text: string)
    | DuplicateAttribute(reason: string)
    | NotRenderSnippet(attribute: string)

  /** `ParseResult<T>`; usable with `:-` like Rust's `?`. */
  datatype ParseResult<+T> = Ok(value: T) | Err(error: ParseError) {
    predicate IsFailure() {
      Err?
    }

    function PropagateFailure<U>(): ParseResult<U>
      requires Err?
    {
      Err(error)
    }

    function Extract(): T
      requires Ok?
    {
      value
    }
  }

  /** One attribute of an info string. */
  datatype Attribute =
    | LineNumbers
    | Exec
    | ExecReplace
    | AutoRender
    | HighlightedLines(groups: seq<HighlightGroup>)
    | Width(percent: Percent)
    | NoBackground
    | AcquireTerminal

  /** `AttributeDiscriminants`: the kind of an attribute, without its data. */
  datatype AttributeKind =
    | LineNumbersKind
    | ExecKind
    | ExecReplaceKind
    | AutoRenderKind
    | HighlightedLinesKind
    | WidthKind
    | NoBackgroundKind
    | AcquireTerminalKind

  function Kind(a: Attribute): AttributeKind {
    match a
    case LineNumbers => LineNumbersKind
    case Exec => ExecKind
    case ExecReplace => ExecReplaceKind
    case AutoRender => AutoRenderKind
    case HighlightedLines(_) => HighlightedLinesKind
    case Width(_) => WidthKind
    case NoBackground => NoBackgroundKind
    case AcquireTerminal => AcquireTerminalKind
  }

  const DuplicateMessage := "duplicate attribute"

  /** The error for a range ending at the last `u16`, whose end past it
      does not fit: `format!("{right} is too large")` with `right` = 65535. */
  const TooLargeMessage := "65535 is too large"

  /** The group used when a block highlights nothing in particular. */
  const AllLines := HighlightGroup([All])

  // ---------------------------------------------------------------------------
  // Tokens

  /** `next_identifier`: the text up to the first space. */
  function NextIdentifier(input: string): (r: string)
    ensures r <= input && ' ' !in r
    ensures |r| == |input| || input[|r|] == ' '
  {
    match SplitOnce(input, ' ')
    case Some((token, _)) => token
    case None => input
  }

  /** `parse_language`: the first word names the language (any word does)
      and the rest of the info string follows it. */
  function ParseLanguage(input: string): (r: (SnippetLanguage, string))
    ensures NextIdentifier(input) + r.1 == input
    ensures r.0 == FromStr(NextIdentifier(input))
    ensures r.0.Unknown? ==> r.0.name == NextIdentifier(input)
  {
    var token := NextIdentifier(input);
    (FromStr(token), input[|token|..])
  }

  /** `parse_number`: a line number, as `str::parse::<u16>` reads the trimmed
      text. */
  function ParseNumber(input: string): (r: ParseResult<u16>)
    ensures r.Ok? <==> ParseU16(Trim(input)).Some?
    ensures r.Ok? ==> r.value == ParseU16(Trim(input)).value
    ensures r.Err? ==> r.error == InvalidHighlightedLines("not a number: '" + input + "'")
  {
    match ParseU16(Trim(input))
    case Some(n) => Ok(n)
    case None => Err(InvalidHighlightedLines("not a number: '" + input + "'"))
  }

  /** `parse_width`: the width is the text up to the first space (or the
      end), which is the next identifier, read by `parsePercent`; the rest
      starts at that space. */
  function ParseWidth(input: string, parsePercent: string -> Option<Percent>): (r: ParseResult<(Percent, string)>)
    ensures var w := NextIdentifier(input);
      && (r.Ok? <==> parsePercent(w).Some?)
      && (r.Ok? ==> r.value == (parsePercent(w).value, input[|w|..]))
      && (r.Err? ==> r.error == InvalidWidth(w))
  {
    var end := match Find(input, ' ') case Some(i) => i case None => |input|;
    IdentifierEnd(input);
    assert input[..end] == NextIdentifier(input);
    match parsePercent(input[..end])
    case Some(p) => Ok((p, input[end..]))
    case None => Err(InvalidWidth(input[..end]))
  }

  /** The first space (or the end) is where the next identifier ends. */
  lemma IdentifierEnd(input: string)
    ensures (match Find(input, ' ') case Some(i) => i case None => |input|) == |NextIdentifier(input)|
  {
  }

  // ---------------------------------------------------------------------------
  // Highlighted lines: `{1-3,5|6-9}`

  /** One piece of a group: `all`, or else a line or a range. */
  function HighlightOf(piece: string): (r: ParseResult<Highlight>)
    ensures r.Ok? && r.value.Range? ==> r.value.end >= 1
    ensures r.Err? ==> r.error.InvalidHighlightedLines?
    ensures IsAllKeyword(Trim(piece)) ==> r == Ok(All)
  {
    var piece := Trim(piece);
    if IsAllKeyword(piece) then Ok(All) else NumberedOf(piece)
  }

  /** Whether a piece is the word `all`. */
  predicate IsAllKeyword(piece: string) {
    piece == "all"
  }

  /** A line `n`, or a range `a-b`, which covers `a` to `b` inclusive, so the
      half-open range `a..b+1`; a range ending at the last `u16` is refused
      because its end would not fit. */
  function NumberedOf(piece: string): (r: ParseResult<Highlight>)
    ensures r.Ok? && r.value.Range? ==> r.value.end >= 1
    ensures r.Err? ==> r.error.InvalidHighlightedLines?
  {
    match SplitOnce(piece, '-')
    case Some((left, right)) =>
      var start :- ParseNumber(left);
      var last :- ParseNumber(right);
      if last == U16_MAX then Err(InvalidHighlightedLines(TooLargeMessage))
      else Ok(Range(start, last + 1))
    case None =>
      var n :- ParseNumber(piece);
      Ok(Single(n))
  }

  /** Each text parsed by `f`, in order; the first failure is the result. */
  function MapAll<T>(texts: seq<string>, f: string -> ParseResult<T>): ParseResult<seq<T>> {
    if texts == [] then Ok([])
    else
      var head :- f(texts[0]);
      var rest :- MapAll(texts[1..], f);
      Ok([head] + rest)
  }

  /** `MapAll` succeeds exactly when every text parses, and then holds their
      values in order; otherwise its error is that of the first text that
      fails. */
  lemma {:induction false} MapAllSpec<T>(texts: seq<string>, f: string -> ParseResult<T>)
    ensures var r := MapAll(texts, f);
      && (r.Ok? <==> forall i :: 0 <= i < |texts| ==> f(texts[i]).Ok?)
      && (r.Ok? ==> |r.value| == |texts| && forall i :: 0 <= i < |texts| ==> f(texts[i]) == Ok(r.value[i]))
      && (r.Err? ==> exists i :: (0 <= i < |texts| && f(texts[i]) == Err(r.error)
            && forall j :: 0 <= j < i ==> f(texts[j]).Ok?))
  {
    if texts != [] && f(texts[0]).Ok? {
      MapAllSpec(texts[1..], f);
      assert forall i :: 1 <= i < |texts| ==> texts[i] == texts[1..][i - 1];
      var rest := MapAll(texts[1..], f);
      if rest.Err? {
        var i :| 0 <= i < |texts[1..]| && f(texts[1..][i]) == Err(rest.error)
          && forall j :: 0 <= j < i ==> f(texts[1..][j]).Ok?;
        assert f(texts[i + 1]) == Err(rest.error);
        forall j | 1 <= j < i + 1
          ensures f(texts[j]).Ok?
        {
          assert texts[j] == texts[1..][j - 1];
        }
      }
    }
  }

  /** `parse_highlight_group`: the comma-separated pieces, in order. */
  function GroupOf(input: string): ParseResult<HighlightGroup> {
    var highlights :- MapAll(Split(input, ','), HighlightOf);
    Ok(HighlightGroup(highlights))
  }

  /** A group succeeds exactly when every comma-separated piece is a
      highlight, and then holds one highlight per piece, in order. */
  lemma GroupOfPieces(input: string)
    ensures var r, pieces := GroupOf(input), Split(input, ',');
      && (r.Ok? <==> forall i :: 0 <= i < |pieces| ==> HighlightOf(pieces[i]).Ok?)
      && (r.Ok? ==> |r.value.highlights| == |pieces|
                    && forall i :: 0 <= i < |pieces| ==> HighlightOf(pieces[i]) == Ok(r.value.highlights[i]))
  {
    HighlightsOf(Split(input, ','));
  }

  /** `MapAllSpec` for the pieces of one group. */
  lemma HighlightsOf(pieces: seq<string>)
    ensures var m := MapAll(pieces, HighlightOf);
      && (m.Ok? <==> forall i :: 0 <= i < |pieces| ==> HighlightOf(pieces[i]).Ok?)
      && (m.Ok? ==> |m.value| == |pieces| && forall i :: 0 <= i < |pieces| ==> HighlightOf(pieces[i]) == Ok(m.value[i]))
  {
    MapAllSpec(pieces, HighlightOf);
  }

  /** `parse_highlight_groups`: everything up to the first `}` (which must be
      there) is a `|`-separated list of groups, and none at all when it is
      blank; the text after the `}` follows. */
  function HighlightGroupsAt(input: string): (r: ParseResult<(seq<HighlightGroup>, string)>)
    ensures '}' !in input ==> r == Err(InvalidHighlightedLines("no enclosing '}'"))
    ensures r.Ok? ==> exists head :: head + "}" + r.value.1 == input && '}' !in head
  {
    match SplitOnce(input, '}')
    case None => Err(InvalidHighlightedLines("no enclosing '}'"))
    case Some((head, tail)) =>
      var trimmed := Trim(head);
      if trimmed == [] then Ok(([], tail))
      else
        var groups :- MapAll(Split(trimmed, '|'), GroupOf);
        Ok((groups, tail))
  }

  // ---------------------------------------------------------------------------
  // Attributes

  /** The attributes written as a bare `+name`. */
  function FlagOf(token: string): (r: Option<Attribute>)
    ensures r.Some? ==> !r.value.HighlightedLines? && !r.value.Width?
  {
    match token
    case "line_numbers" => Some(LineNumbers)
    case "exec" => Some(Exec)
    case "exec_replace" => Some(ExecReplace)
    case "render" => Some(AutoRender)
    case "no_background" => Some(NoBackground)
    case "acquire_terminal" => Some(AcquireTerminal)
    case _ => None
  }

  /** `parse_attribute`: after any spaces, nothing (the end), a `+name`, or a
      `{...}` list of highlighted lines; anything else is an invalid token.
      Every attribute read consumes text. */
  function AttributeAt(input: string, parsePercent: string -> Option<Percent>): (r: ParseResult<(Option<Attribute>, string)>)
    ensures r.Ok? && r.value.0.Some? ==> |r.value.1| < |input|
    ensures r.Ok? && r.value.0.None? <==> r.Ok? && TrimStartSpaces(input) == []
    ensures var s := TrimStartSpaces(input);
      s != [] && s[0] != '+' && s[0] != '{' ==> r == Err(InvalidToken(NextIdentifier(s)))
    ensures var s := TrimStartSpaces(input);
      s != [] && s[0] == '{' ==>
        var g := HighlightGroupsAt(s[1..]);
        && (r.Ok? <==> g.Ok?)
        && (r.Ok? ==> r.value == (Some(HighlightedLines(g.value.0)), g.value.1))
        && (g.Err? ==> r == Err(g.error))
    ensures var s := TrimStartSpaces(input);
      s != [] && s[0] == '+' ==> r == PlusAttributeAt(s, parsePercent)
  {
    var input := TrimStartSpaces(input);
    if input == [] then Ok((None, input))
    else if input[0] == '+' then PlusAttributeAt(input, parsePercent)
    else if input[0] == '{' then
      var groups :- HighlightGroupsAt(input[1..]);
      Ok((Some(HighlightedLines(groups.0)), groups.1))
    else
      Err(InvalidToken(NextIdentifier(input)))
  }

  /** An attribute written `+name`: one of the flags, consuming the name, or
      `+width:` followed by a width; any other name is an invalid token. */
  function PlusAttributeAt(input: string, parsePercent: string -> Option<Percent>): (r: ParseResult<(Option<Attribute>, string)>)
    requires input != [] && input[0] == '+'
    ensures r.Ok? ==> r.value.0.Some? && |r.value.1| < |input|
    ensures var token := NextIdentifier(input[1..]);
      FlagOf(token).Some? ==> r == Ok((FlagOf(token), input[|token| + 1..]))
    ensures FlagOf(NextIdentifier(input[1..])).None? && !StartsWith(NextIdentifier(input[1..]), "width:") ==>
      r == Err(InvalidToken(NextIdentifier(input)))
    ensures FlagOf(NextIdentifier(input[1..])).None? && StartsWith(NextIdentifier(input[1..]), "width:") ==>
      StartsWith(input, "+width:") && r == WidthAttributeAt(input, parsePercent)
  {
    var token := NextIdentifier(input[1..]);
    match FlagOf(token)
    case Some(flag) => Ok((Some(flag), input[|token| + 1..]))
    case None =>
      if StartsWith(token, "width:") then
        WidthToken(input);
        WidthAttributeAt(input, parsePercent)
      else
        Err(InvalidToken(NextIdentifier(input)))
  }

  /** A `+` followed by a token that starts with `width:` starts with
      `+width:`. */
  lemma WidthToken(input: string)
    requires input != [] && input[0] == '+' && StartsWith(NextIdentifier(input[1..]), "width:")
    ensures StartsWith(input, "+width:")
  {
    assert input[..7] == ['+'] + input[1..][..6];
  }

  /** `+width:` and a width: the text after the first `+width:`, which is
      where the input starts, is read as a width. */
  function WidthAttributeAt(input: string, parsePercent: string -> Option<Percent>): (r: ParseResult<(Option<Attribute>, string)>)
    requires StartsWith(input, "+width:")
    ensures r.Ok? ==> r.value.0.Some? && r.value.0.value.Width? && |r.value.1| < |input|
    ensures r.Err? ==> r.error.InvalidWidth?
    ensures var w := NextIdentifier(input[7..]);
      && (r.Ok? <==> parsePercent(w).Some?)
      && (r.Ok? ==> r.value == (Some(Width(parsePercent(w).value)), input[7 + |w|..]))
      && (r.Err? ==> r.error == InvalidWidth(w))
  {
    var value := SplitOnceStr(input, "+width:").value.1;
    assert value[|NextIdentifier(value)|..] == input[7 + |NextIdentifier(value)|..];
    var width :- ParseWidth(value, parsePercent);
    Ok((Some(Width(width.0)), width.1))
  }

  /** The effect of one attribute on the record being built. */
  function Apply(attributes: SnippetAttributes, a: Attribute): SnippetAttributes {
    match a
    case LineNumbers => attributes.(lineNumbers := true)
    case Exec => attributes.(execute := true)
    case ExecReplace => attributes.(executeReplace := true)
    case AutoRender => attributes.(autoRender := true)
    case NoBackground => attributes.(noBackground := true)
    case AcquireTerminal => attributes.(acquireTerminal := true)
    case HighlightedLines(groups) => attributes.(highlightGroups := groups)
    case Width(w) => attributes.(width := Some(w))
  }

  /** A reader of one attribute at the head of a text, such as
      `AttributeAt`. */
  type Reader = string -> ParseResult<(Option<Attribute>, string)>

  /** A reader that consumes text whenever it reads an attribute. */
  ghost predicate Consumes(next: Reader) {
    forall s :: next(s).Ok? && next(s).value.0.Some? ==> |next(s).value.1| < |s|
  }

  /** `parse_attribute` for a given way of reading widths. */
  function AttributeReader(parsePercent: string -> Option<Percent>): (next: Reader)
    ensures Consumes(next)
    ensures forall s :: next(s) == AttributeAt(s, parsePercent)
  {
    s => AttributeAt(s, parsePercent)
  }

  /** The loop of `parse_attributes` from a given state: attributes are read
      until the end, and an attribute of a kind already read is a duplicate. */
  function AttributesLoop(input: string, attributes: SnippetAttributes, processed: seq<AttributeKind>,
                          next: Reader): ParseResult<SnippetAttributes>
    requires Consumes(next)
    decreases |input|
  {
    var step :- next(input);
    match step.0
    case None => Ok(attributes)
    case Some(a) =>
      if Kind(a) in processed then Err(DuplicateAttribute(DuplicateMessage))
      else AttributesLoop(step.1, Apply(attributes, a), processed + [Kind(a)], next)
  }

  /** `parse_attributes`: the loop from the default record, after which a
      block without highlight groups gets the single group of all lines. */
  function AttributesOf(input: string, parsePercent: string -> Option<Percent>): (r: ParseResult<SnippetAttributes>)
    ensures r.Ok? ==> r.value.highlightGroups != []
  {
    var attributes :- AttributesLoop(input, DefaultAttributes, [], AttributeReader(parsePercent));
    if attributes.highlightGroups == [] then Ok(attributes.(highlightGroups := [AllLines]))
    else Ok(attributes)
  }

  /** `parse_block_info`: the language, then the attributes, where a width
      is only accepted together with `+render`. */
  function BlockInfo(input: string, parsePercent: string -> Option<Percent>): (r: ParseResult<(SnippetLanguage, SnippetAttributes)>)
    ensures r.Ok? ==> r.value.1.highlightGroups != []
    ensures r.Ok? ==> (r.value.1.width.Some? ==> r.value.1.autoRender)
    ensures var a := AttributesOf(ParseLanguage(input).1, parsePercent);
      a.Ok? && a.value.width.Some? && !a.value.autoRender ==> r == Err(NotRenderSnippet("width"))
    ensures var language, a := ParseLanguage(input).0, AttributesOf(ParseLanguage(input).1, parsePercent);
      && (r.Ok? <==> a.Ok? && (a.value.width.Some? ==> a.value.autoRender))
      && (r.Ok? ==> r.value == (language, a.value))
      && (a.Err? ==> r == Err(a.error))
  {
    var (language, rest) := ParseLanguage(input);
    var attributes :- AttributesOf(rest, parsePercent);
    if attributes.width.Some? && !attributes.autoRender then Err(NotRenderSnippet("width"))
    else Ok((language, attributes))
  }

  /** `CodeBlockParser::parse`. */
  function SnippetOf(info: string, code: string, parsePercent: string -> Option<Percent>): (r: ParseResult<Snippet>)
    ensures r.Ok? ==> r.value.contents == code
    ensures r.Ok? ==> (r.value.attributes.width.Some? ==> r.value.attributes.autoRender)
    ensures var b := BlockInfo(info, parsePercent);
      && (r.Ok? <==> b.Ok?)
      && (r.Ok? ==> r.value == Snippet(code, b.value.0, b.value.1))
      && (b.Err? ==> r == Err(b.error))
  {
    var (language, attributes) :- BlockInfo(info, parsePercent);
    Ok(Snippet(code, language, attributes))
  }

  // ---------------------------------------------------------------------------
  // The parser's loops

  /** `parse_highlight_group`. */
  method ParseHighlightGroup(input: string) returns (r: ParseResult<HighlightGroup>)
    ensures r == GroupOf(input)
  {
    var highlights := ParseHighlights(Split(input, ','));
    if highlights.Err? {
      return Err(highlights.error);
    }
    return Ok(HighlightGroup(highlights.value));
  }

  /** The loop of `parse_highlight_group` over the comma-separated pieces. */
  method ParseHighlights(pieces: seq<string>) returns (r: ParseResult<seq<Highlight>>)
    ensures r == MapAll(pieces, HighlightOf)
  {
    var highlights: seq<Highlight> := [];
    assert pieces[0..] == pieces;
    for i := 0 to |pieces|
      invariant MapAll(pieces, HighlightOf) == Prepend(highlights, MapAll(pieces[i..], HighlightOf))
    {
      MapAllStep(pieces, HighlightOf, highlights, i);
      var highlight := HighlightOf(pieces[i]);
      if highlight.Err? {
        return Err(highlight.error);
      }
      highlights := highlights + [highlight.value];
    }
    assert pieces[|pieces|..] == [] && highlights + [] == highlights;
    return Ok(highlights);
  }

  /** `parse_highlight_groups`. */
  method ParseHighlightGroups(input: string) returns (r: ParseResult<(seq<HighlightGroup>, string)>)
    ensures r == HighlightGroupsAt(input)
  {
    var split := SplitOnce(input, '}');
    if split.None? {
      return Err(InvalidHighlightedLines("no enclosing '}'"));
    }
    var (head, tail) := split.value;
    head := Trim(head);
    if head == [] {
      return Ok(([], tail));
    }
    var groups := ParseGroups(Split(head, '|'));
    if groups.Err? {
      return Err(groups.error);
    }
    return Ok((groups.value, tail));
  }

  /** The loop of `parse_highlight_groups` over the `|`-separated groups. */
  method ParseGroups(texts: seq<string>) returns (r: ParseResult<seq<HighlightGroup>>)
    ensures r == MapAll(texts, GroupOf)
  {
    var groups: seq<HighlightGroup> := [];
    assert texts[0..] == texts;
    for i := 0 to |texts|
      invariant MapAll(texts, GroupOf) == Prepend(groups, MapAll(texts[i..], GroupOf))
    {
      MapAllStep(texts, GroupOf, groups, i);
      var group := ParseHighlightGroup(texts[i]);
      if group.Err? {
        return Err(group.error);
      }
      groups := groups + [group.value];
    }
    assert texts[|texts|..] == [] && groups + [] == groups;
    return Ok(groups);
  }

  /** `parse_attribute`. */
  method ParseAttribute(input: string, parsePercent: string -> Option<Percent>) returns (r: ParseResult<(Option<Attribute>, string)>)
    ensures r == AttributeAt(input, parsePercent)
  {
    var s := TrimStartSpaces(input);
    if s == [] {
      return Ok((None, s));
    }
    if s[0] == '+' {
      return PlusAttributeAt(s, parsePercent);
    }
    if s[0] == '{' {
      var groups := ParseHighlightGroups(s[1..]);
      if groups.Err? {
        return Err(groups.error);
      }
      return Ok((Some(HighlightedLines(groups.value.0)), groups.value.1));
    }
    return Err(InvalidToken(NextIdentifier(s)));
  }

  /** `parse_attributes`. */
  method ParseAttributes(input: string, parsePercent: string -> Option<Percent>) returns (r: ParseResult<SnippetAttributes>)
    ensures r == AttributesOf(input, parsePercent)
  {
    var attributes := DefaultAttributes;
    var processed: seq<AttributeKind> := [];
    var rest := input;
    ghost var reader := AttributeReader(parsePercent);
    while true
      invariant AttributesLoop(input, DefaultAttributes, [], reader)
        == AttributesLoop(rest, attributes, processed, reader)
      decreases |rest|
    {
      var step := ParseAttribute(rest, parsePercent);
      if step.Err? {
        return Err(step.error);
      }
      var (attribute, next) := step.value;
      if attribute.None? {
        break;
      }
      var kind := Kind(attribute.value);
      if kind in processed {
        return Err(DuplicateAttribute(DuplicateMessage));
      }
      attributes := Apply(attributes, attribute.value);
      processed := processed + [kind];
      rest := next;
    }
    if attributes.highlightGroups == [] {
      attributes := attributes.(highlightGroups := [AllLines]);
    }
    return Ok(attributes);
  }

  /** `parse_block_info`. */
  method ParseBlockInfo(input: string, parsePercent: string -> Option<Percent>)
    returns (r: ParseResult<(SnippetLanguage, SnippetAttributes)>)
    ensures r == BlockInfo(input, parsePercent)
  {
    var (language, rest) := ParseLanguage(input);
    var attributes := ParseAttributes(rest, parsePercent);
    if attributes.Err? {
      return Err(attributes.error);
    }
    if attributes.value.width.Some? && !attributes.value.autoRender {
      return Err(NotRenderSnippet("width"));
    }
    return Ok((language, attributes.value));
  }

  /** `CodeBlockParser::parse`. */
  method Parse(info: string, code: string, parsePercent: string -> Option<Percent>) returns (r: ParseResult<Snippet>)
    ensures r == SnippetOf(info, code, parsePercent)
  {
    var blockInfo := ParseBlockInfo(info, parsePercent);
    if blockInfo.Err? {
      return Err(blockInfo.error);
    }
    return Ok(Snippet(code, blockInfo.value.0, blockInfo.value.1));
  }

  /** One step of a loop computing `MapAll`: the text at `i` either fails,
      and its error is the result, or its value joins those before it. */
  lemma {:induction false} MapAllStep<T>(texts: seq<string>, f: string -> ParseResult<T>, done: seq<T>, i: nat)
    requires i < |texts|
    ensures f(texts[i]).Err? ==> Prepend(done, MapAll(texts[i..], f)) == Err(f(texts[i]).error)
    ensures f(texts[i]).Ok? ==>
      Prepend(done, MapAll(texts[i..], f)) == Prepend(done + [f(texts[i]).value], MapAll(texts[i + 1..], f))
  {
    assert texts[i..][0] == texts[i];
    assert texts[i..][1..] == texts[i + 1..];
    if f(texts[i]).Ok? {
      match MapAll(texts[i + 1..], f)
      case Ok(v) => assert done + ([f(texts[i]).value] + v) == done + [f(texts[i]).value] + v;
      case Err(_) =>
    }
  }

  /** A result with `done` put in front of its value. */
  function Prepend<T>(done: seq<T>, r: ParseResult<seq<T>>): (p: ParseResult<seq<T>>)
    ensures done == [] ==> p == r
  {
    match r
    case Ok(v) => assert [] + v == v; Ok(done + v)
    case Err(e) => Err(e)
  }

  // ---------------------------------------------------------------------------
  // Properties of the parse

  /** `a-b` is the half-open range `a..b+1`, refused when `b` is the largest
      `u16`, since `b+1` would not fit. */
  lemma HighlightOfRange(a: u16, b: u16)
    ensures HighlightOf(Decimal(a) + "-" + Decimal(b))
      == if b == U16_MAX then Err(InvalidHighlightedLines(TooLargeMessage)) else Ok(Range(a, b + 1))
  {
    var left, right := Decimal(a), Decimal(b);
    RangeText(left, right);
    TrimDigits(left);
    TrimDigits(right);
    ParseDecimal(a);
    ParseDecimal(b);
  }

  /** Two runs of digits joined by `-` are a piece that trimming leaves
      alone, that is not `all`, and that splits back into the two runs. */
  lemma RangeText(left: string, right: string)
    requires left != [] && right != [] && AllDigits(left) && AllDigits(right)
    ensures var piece := left + "-" + right;
      && Trim(piece) == piece && !IsAllKeyword(piece) && SplitOnce(piece, '-') == Some((left, right))
  {
    RangeEnds(left, right);
    TrimUnchanged(left + "-" + right);
    DigitsHaveNoDash(left);
    SplitOnceFirst(left, '-', right);
  }

  /** A piece made of digit runs around a `-` starts and ends with a digit. */
  lemma RangeEnds(left: string, right: string)
    requires left != [] && right != [] && AllDigits(left) && AllDigits(right)
    ensures var piece := left + "-" + right;
      && IsDigit(piece[0]) && IsDigit(piece[|piece| - 1]) && !IsAllKeyword(piece)
  {
    var piece := left + "-" + right;
    assert piece[0] == left[0] && piece[|piece| - 1] == right[|right| - 1];
  }

  lemma DigitsHaveNoDash(s: string)
    requires AllDigits(s)
    ensures '-' !in s
  {
    assert forall i :: 0 <= i < |s| ==> IsDigit(s[i]);
  }

  /** A piece that trims to `left-right`, split at its first `-`: each side
      is read by `parse_number` (the `u16` its trimmed text denotes), a bad
      left side being reported before a bad right side, and the range runs
      from the left number to one past the right one, which must not be
      65535. */
  lemma HighlightOfParts(piece: string, left: string, right: string)
    requires Trim(piece) == left + "-" + right && '-' !in left
    ensures var r, start, last := HighlightOf(piece), ParseNumber(left), ParseNumber(right);
      && (start.Err? ==> r == Err(start.error))
      && (start.Ok? && last.Err? ==> r == Err(last.error))
      && (start.Ok? && last.Ok? ==>
            r == if last.value == U16_MAX then Err(InvalidHighlightedLines(TooLargeMessage))
                 else Ok(Range(start.value, last.value + 1)))
  {
    DashIsNotAll(left, right);
    assert HighlightOf(piece) == NumberedOf(left + "-" + right);
    NumberedOfParts(left, right);
  }

  lemma DashIsNotAll(left: string, right: string)
    ensures !IsAllKeyword(left + "-" + right)
  {
    assert (left + "-" + right)[|left|] == '-';
  }

  /** `left-right`, split at its first `-`, read as a range. */
  lemma NumberedOfParts(left: string, right: string)
    requires '-' !in left
    ensures var r, start, last := NumberedOf(left + "-" + right), ParseNumber(left), ParseNumber(right);
      && (start.Err? ==> r == Err(start.error))
      && (start.Ok? && last.Err? ==> r == Err(last.error))
      && (start.Ok? && last.Ok? ==>
            r == if last.value == U16_MAX then Err(InvalidHighlightedLines(TooLargeMessage))
                 else Ok(Range(start.value, last.value + 1)))
  {
    SplitOnceFirst(left, '-', right);
  }

  /** A piece that trims to a text without `-` (and other than `all`) is a
      single line, the trimmed text read as a number. */
  lemma HighlightOfLone(piece: string)
    requires '-' !in Trim(piece) && !IsAllKeyword(Trim(piece))
    ensures ParseU16(Trim(piece)).Some? ==> HighlightOf(piece) == Ok(Single(ParseU16(Trim(piece)).value))
    ensures ParseU16(Trim(piece)).None? ==>
      HighlightOf(piece) == Err(InvalidHighlightedLines("not a number: '" + Trim(piece) + "'"))
  {
    TrimIdempotent(piece);
  }

  /** A piece with two dashes, such as `42-3-5`, is refused: the right side
      of its first dash holds a `-` and is not a number. */
  lemma HighlightOfThreeParts(piece: string, left: string, middle: string, right: string)
    requires Trim(piece) == left + "-" + middle + "-" + right && '-' !in left
    ensures HighlightOf(piece).Err?
  {
    var rest := middle + "-" + right;
    assert Trim(piece) == left + "-" + rest;
    DashedIsNotNumber(middle, right);
    HighlightOfParts(piece, left, rest);
  }

  /** A text holding a `-` is not a line number, even once trimmed. */
  lemma DashedIsNotNumber(before: string, after: string)
    ensures ParseNumber(before + "-" + after).Err?
  {
    var text := before + "-" + after;
    assert text[|before|] == '-';
    TrimKeeps(text, '-');
    DashIsNotU16(Trim(text));
  }

  /** `all` with blanks around it, as in `  all ` at
      src/processing/code.rs:735, is every line. */
  lemma HighlightOfPaddedAll(before: string, after: string)
    requires AllWhitespace(before) && AllWhitespace(after)
    ensures HighlightOf(before + "all" + after) == Ok(All)
  {
    TrimOfPadded(before, "all", after);
  }

  /** A range with blanks around its numbers and its dash, as in ` 10 - 12  `
      at src/processing/code.rs:735, is read as if the blanks were not
      there. */
  lemma HighlightOfPaddedRange(a: u16, b: u16, p1: string, p2: string, p3: string, p4: string)
    requires AllWhitespace(p1) && AllWhitespace(p2) && AllWhitespace(p3) && AllWhitespace(p4)
    ensures HighlightOf(p1 + ((Decimal(a) + p2) + "-" + (p3 + Decimal(b))) + p4)
      == if b == U16_MAX then Err(InvalidHighlightedLines(TooLargeMessage)) else Ok(Range(a, b + 1))
  {
    var left, right := Decimal(a) + p2, p3 + Decimal(b);
    PaddedNumberEnds(a, p2, p3, b);
    TrimOfPadded(p1, left + "-" + right, p4);
    NumberThenBlanks(a, p2);
    BlanksThenNumber(p3, b);
    HighlightOfParts(p1 + (left + "-" + right) + p4, left, right);
  }

  /** The padded range starts and ends with a digit, and its left number
      holds no `-`. */
  lemma PaddedNumberEnds(a: u16, p2: string, p3: string, b: u16)
    requires AllWhitespace(p2)
    ensures var inner := (Decimal(a) + p2) + "-" + (p3 + Decimal(b));
      && IsDigit(inner[0]) && IsDigit(inner[|inner| - 1])
    ensures '-' !in Decimal(a) + p2
  {
    var da, db := Decimal(a), Decimal(b);
    var inner := (da + p2) + "-" + (p3 + db);
    assert inner[0] == da[0] && inner[|inner| - 1] == db[|db| - 1];
    DigitsHaveNoDash(da);
    assert forall k :: 0 <= k < |p2| ==> p2[k] != '-';
  }

  /** A number followed by blanks is read as that number. */
  lemma NumberThenBlanks(n: u16, after: string)
    requires AllWhitespace(after)
    ensures ParseNumber(Decimal(n) + after) == Ok(n)
  {
    var d := Decimal(n);
    assert IsDigit(d[0]) && IsDigit(d[|d| - 1]);
    assert [] + d + after == d + after;
    TrimOfPadded([], d, after);
    ParseDecimal(n);
  }

  /** A number after blanks is read as that number. */
  lemma BlanksThenNumber(before: string, n: u16)
    requires AllWhitespace(before)
    ensures ParseNumber(before + Decimal(n)) == Ok(n)
  {
    var d := Decimal(n);
    assert IsDigit(d[0]) && IsDigit(d[|d| - 1]);
    assert before + d + [] == before + d;
    TrimOfPadded(before, d, []);
    ParseDecimal(n);
  }

  /** A number `n` alone is the single line `n`. */
  lemma HighlightOfSingle(n: u16)
    ensures HighlightOf(Decimal(n)) == Ok(Single(n))
  {
    var piece := Decimal(n);
    TrimDigits(piece);
    assert !IsAllKeyword(piece) by {
      assert IsDigit(piece[0]);
    }
    DigitsHaveNoDash(piece);
    ParseDecimal(n);
  }

  /** A number too large for a `u16` is not a line number. */
  lemma HighlightOfTooLarge(n: nat)
    requires n > U16_MAX
    ensures HighlightOf(Decimal(n)).Err?
  {
    var piece := Decimal(n);
    TrimDigits(piece);
    assert !IsAllKeyword(piece) by {
      assert IsDigit(piece[0]);
    }
    DigitsHaveNoDash(piece);
    ParseDecimal(n);
  }

  /** `{}` gives no group at all. */
  lemma EmptyBraces(rest: string)
    ensures HighlightGroupsAt("}" + rest) == Ok(([], rest))
  {
    SplitOnceFirst([], '}', rest);
    assert [] + ['}'] + rest == "}" + rest;
  }

  /** Braces around `head`: a blank head gives no group; otherwise the
      trimmed head is cut at every `|` and each piece is one group, in
      order, the call failing when any piece does. The text after the first
      `}` follows. */
  lemma HighlightGroupsOf(head: string, rest: string)
    requires '}' !in head
    ensures var r := HighlightGroupsAt(head + "}" + rest);
      && (Trim(head) == [] ==> r == Ok(([], rest)))
      && (Trim(head) != [] ==>
            var pieces := Split(Trim(head), '|');
            && (r.Ok? <==> forall i :: 0 <= i < |pieces| ==> GroupOf(pieces[i]).Ok?)
            && (r.Ok? ==> r.value.1 == rest && |r.value.0| == |pieces|
                          && forall i :: 0 <= i < |pieces| ==> GroupOf(pieces[i]) == Ok(r.value.0[i])))
  {
    GroupsAtBrace(head, rest);
    GroupsOf(Split(Trim(head), '|'));
  }

  /** The head before the first `}` decides the groups, and the text after
      it follows. */
  lemma GroupsAtBrace(head: string, rest: string)
    requires '}' !in head
    ensures var r, m := HighlightGroupsAt(head + "}" + rest), MapAll(Split(Trim(head), '|'), GroupOf);
      && (Trim(head) == [] ==> r == Ok(([], rest)))
      && (Trim(head) != [] ==> (r.Ok? <==> m.Ok?) && (r.Ok? ==> r.value == (m.value, rest)))
  {
    SplitOnceFirst(head, '}', rest);
  }

  /** `MapAllSpec` for the groups between braces. */
  lemma GroupsOf(pieces: seq<string>)
    ensures var m := MapAll(pieces, GroupOf);
      && (m.Ok? <==> forall i :: 0 <= i < |pieces| ==> GroupOf(pieces[i]).Ok?)
      && (m.Ok? ==> |m.value| == |pieces| && forall i :: 0 <= i < |pieces| ==> GroupOf(pieces[i]) == Ok(m.value[i]))
  {
    MapAllSpec(pieces, GroupOf);
  }

  /** The attributes an info string names, in order, ignoring repetitions:
      the parse loop without its duplicate check. */
  function Reads(input: string, next: Reader): ParseResult<seq<Attribute>>
    requires Consumes(next)
    decreases |input|
  {
    var step :- next(input);
    match step.0
    case None => Ok([])
    case Some(a) =>
      var rest :- Reads(step.1, next);
      Ok([a] + rest)
  }

  function Kinds(attributes: seq<Attribute>): (r: seq<AttributeKind>)
    ensures |r| == |attributes| && forall i :: 0 <= i < |r| ==> r[i] == Kind(attributes[i])
  {
    if attributes == [] then [] else [Kind(attributes[0])] + Kinds(attributes[1..])
  }

  predicate Distinct(kinds: seq<AttributeKind>) {
    forall i, j :: 0 <= i < j < |kinds| ==> kinds[i] != kinds[j]
  }

  /** The attributes applied one after the other. */
  function ApplyAll(attributes: SnippetAttributes, read: seq<Attribute>): SnippetAttributes
    decreases |read|
  {
    if read == [] then attributes else ApplyAll(Apply(attributes, read[0]), read[1..])
  }

  /** The loop of `parse_attributes` on an info string whose attributes all
      read: it fails, with a duplicate, exactly when a kind repeats (among
      those already processed and those read), and otherwise applies them
      all. */
  lemma {:induction false} LoopOfReads(input: string, attributes: SnippetAttributes, processed: seq<AttributeKind>,
                                       next: Reader)
    requires Consumes(next) && Reads(input, next).Ok?
    requires Distinct(processed)
    ensures var read := Reads(input, next).value;
      AttributesLoop(input, attributes, processed, next)
        == if Distinct(processed + Kinds(read)) then Ok(ApplyAll(attributes, read))
           else Err(DuplicateAttribute(DuplicateMessage))
    decreases |input|
  {
    var step := next(input).value;
    if step.0.None? {
      LoopOfReadsAtEnd(input, attributes, processed, next);
    } else if Kind(step.0.value) in processed {
      LoopOfReadsRepeated(input, attributes, processed, next);
    } else {
      var a := step.0.value;
      DistinctAppend(processed, Kind(a));
      ReadsNext(input, next);
      LoopOfReads(step.1, Apply(attributes, a), processed + [Kind(a)], next);
      LoopOfReadsStep(input, attributes, processed, next);
    }
  }

  lemma LoopOfReadsAtEnd(input: string, attributes: SnippetAttributes, processed: seq<AttributeKind>, next: Reader)
    requires Consumes(next) && Reads(input, next).Ok? && next(input).value.0.None?
    ensures var read := Reads(input, next).value;
      AttributesLoop(input, attributes, processed, next) == Ok(attributes)
      && read == [] && processed + Kinds(read) == processed && ApplyAll(attributes, read) == attributes
  {
    LoopEnd(input, attributes, processed, next);
    ReadsEnd(input, next);
    assert Kinds([]) == [];
  }

  lemma LoopOfReadsRepeated(input: string, attributes: SnippetAttributes, processed: seq<AttributeKind>, next: Reader)
    requires Consumes(next) && Reads(input, next).Ok? && next(input).value.0.Some?
    requires Kind(next(input).value.0.value) in processed
    ensures AttributesLoop(input, attributes, processed, next) == Err(DuplicateAttribute(DuplicateMessage))
    ensures !Distinct(processed + Kinds(Reads(input, next).value))
  {
    var k := Kind(next(input).value.0.value);
    LoopDuplicate(input, attributes, processed, next);
    ReadsNext(input, next);
    var rest := Reads(next(input).value.1, next).value;
    assert Kinds(Reads(input, next).value) == [k] + Kinds(rest);
    assert processed + Kinds(Reads(input, next).value) == (processed + [k]) + Kinds(rest);
    NotDistinct(processed, k);
    NotDistinctExtended(processed + [k], Kinds(rest));
  }

  lemma LoopOfReadsStep(input: string, attributes: SnippetAttributes, processed: seq<AttributeKind>, next: Reader)
    requires Consumes(next) && Reads(input, next).Ok? && next(input).value.0.Some?
    requires Kind(next(input).value.0.value) !in processed
    requires var (a, rest) := (next(input).value.0.value, next(input).value.1);
      && Reads(rest, next).Ok?
      && AttributesLoop(rest, Apply(attributes, a), processed + [Kind(a)], next)
         == if Distinct(processed + [Kind(a)] + Kinds(Reads(rest, next).value))
            then Ok(ApplyAll(Apply(attributes, a), Reads(rest, next).value))
            else Err(DuplicateAttribute(DuplicateMessage))
    ensures var read := Reads(input, next).value;
      AttributesLoop(input, attributes, processed, next)
        == if Distinct(processed + Kinds(read)) then Ok(ApplyAll(attributes, read))
           else Err(DuplicateAttribute(DuplicateMessage))
  {
    var a := next(input).value.0.value;
    var rest := Reads(next(input).value.1, next).value;
    var read := Reads(input, next).value;
    LoopNext(input, attributes, processed, next);
    ReadsNext(input, next);
    KindsCons(processed, a, rest);
    ApplyAllCons(attributes, a, rest);
  }

  lemma KindsCons(processed: seq<AttributeKind>, a: Attribute, rest: seq<Attribute>)
    ensures processed + Kinds([a] + rest) == processed + [Kind(a)] + Kinds(rest)
  {
    assert ([a] + rest)[1..] == rest;
  }

  lemma ApplyAllCons(attributes: SnippetAttributes, a: Attribute, rest: seq<Attribute>)
    ensures ApplyAll(attributes, [a] + rest) == ApplyAll(Apply(attributes, a), rest)
  {
    assert ([a] + rest)[1..] == rest;
  }

  lemma LoopEnd(input: string, attributes: SnippetAttributes, processed: seq<AttributeKind>,
                next: Reader)
    requires Consumes(next) && next(input).Ok? && next(input).value.0.None?
    ensures AttributesLoop(input, attributes, processed, next) == Ok(attributes)
  {
  }

  lemma LoopDuplicate(input: string, attributes: SnippetAttributes, processed: seq<AttributeKind>,
                      next: Reader)
    requires Consumes(next) && next(input).Ok? && next(input).value.0.Some?
    requires Kind(next(input).value.0.value) in processed
    ensures AttributesLoop(input, attributes, processed, next) == Err(DuplicateAttribute(DuplicateMessage))
  {
  }

  lemma LoopNext(input: string, attributes: SnippetAttributes, processed: seq<AttributeKind>,
                 next: Reader)
    requires Consumes(next) && next(input).Ok? && next(input).value.0.Some?
    requires Kind(next(input).value.0.value) !in processed
    ensures var (a, rest) := (next(input).value.0.value, next(input).value.1);
      AttributesLoop(input, attributes, processed, next)
        == AttributesLoop(rest, Apply(attributes, a), processed + [Kind(a)], next)
  {
  }

  lemma ReadsEnd(input: string, next: Reader)
    requires Consumes(next) && next(input).Ok? && next(input).value.0.None?
    ensures Reads(input, next) == Ok([])
  {
  }

  lemma ReadsNext(input: string, next: Reader)
    requires Consumes(next) && Reads(input, next).Ok?
    requires next(input).value.0.Some?
    ensures var (a, rest) := (next(input).value.0.value, next(input).value.1);
      Reads(rest, next).Ok? && Reads(input, next).value == [a] + Reads(rest, next).value
  {
  }

  lemma DistinctAppend(kinds: seq<AttributeKind>, k: AttributeKind)
    requires Distinct(kinds) && k !in kinds
    ensures Distinct(kinds + [k])
  {
  }

  lemma NotDistinct(kinds: seq<AttributeKind>, k: AttributeKind)
    requires k in kinds
    ensures !Distinct(kinds + [k])
  {
    var i :| 0 <= i < |kinds| && kinds[i] == k;
    assert (kinds + [k])[i] == (kinds + [k])[|kinds|];
  }

  lemma NotDistinctExtended(kinds: seq<AttributeKind>, more: seq<AttributeKind>)
    requires !Distinct(kinds)
    ensures !Distinct(kinds + more)
  {
    var i, j :| 0 <= i < j < |kinds| && kinds[i] == kinds[j];
    assert (kinds + more)[i] == (kinds + more)[j];
  }

  /** An attribute that does not read makes the whole loop fail, whatever
      was processed before it. */
  lemma {:induction false} LoopOfUnreadable(input: string, attributes: SnippetAttributes, processed: seq<AttributeKind>,
                                            next: Reader)
    requires Consumes(next) && Reads(input, next).Err?
    ensures AttributesLoop(input, attributes, processed, next).Err?
    decreases |input|
  {
    var step := next(input);
    if step.Ok? {
      match step.value.0
      case None =>
      case Some(a) =>
        if Kind(a) !in processed {
          LoopOfUnreadable(step.value.1, Apply(attributes, a), processed + [Kind(a)], next);
        }
    }
  }

  /** The attribute kinds that are plain flags. */
  predicate IsFlag(k: AttributeKind) {
    k != HighlightedLinesKind && k != WidthKind
  }

  /** The field a flag kind sets. */
  function FlagSet(attributes: SnippetAttributes, k: AttributeKind): bool
    requires IsFlag(k)
  {
    match k
    case LineNumbersKind => attributes.lineNumbers
    case ExecKind => attributes.execute
    case ExecReplaceKind => attributes.executeReplace
    case AutoRenderKind => attributes.autoRender
    case NoBackgroundKind => attributes.noBackground
    case AcquireTerminalKind => attributes.acquireTerminal
  }

  /** One attribute sets a flag exactly when it is of that flag's kind, and
      leaves every other flag as it was. */
  lemma ApplyFlag(attributes: SnippetAttributes, a: Attribute, k: AttributeKind)
    requires IsFlag(k)
    ensures FlagSet(Apply(attributes, a), k) <==> FlagSet(attributes, k) || Kind(a) == k
  {
    match a {
      case LineNumbers =>
      case Exec =>
      case ExecReplace =>
      case AutoRender =>
      case NoBackground =>
      case AcquireTerminal =>
      case HighlightedLines(_) =>
      case Width(_) =>
    }
  }

  /** Applying the attributes read sets a flag exactly when it was already
      set or an attribute of its kind was read. */
  lemma {:induction false} ApplyAllFlag(attributes: SnippetAttributes, read: seq<Attribute>, k: AttributeKind)
    requires IsFlag(k)
    ensures FlagSet(ApplyAll(attributes, read), k) <==> FlagSet(attributes, k) || k in Kinds(read)
    decreases |read|
  {
    if read != [] {
      var next := Apply(attributes, read[0]);
      ApplyFlag(attributes, read[0], k);
      ApplyAllFlag(next, read[1..], k);
      assert Kinds(read) == [Kind(read[0])] + Kinds(read[1..]);
    }
  }

  /** One attribute sets a width exactly when it is a width, and leaves a
      width already set in place. */
  lemma ApplyWidth(attributes: SnippetAttributes, a: Attribute)
    ensures Apply(attributes, a).width.Some? <==> attributes.width.Some? || Kind(a) == WidthKind
  {
    match a {
      case LineNumbers =>
      case Exec =>
      case ExecReplace =>
      case AutoRender =>
      case NoBackground =>
      case AcquireTerminal =>
      case HighlightedLines(_) =>
      case Width(_) =>
    }
  }

  /** Applying the attributes read sets a width exactly when one was set
      already or a width was read. */
  lemma {:induction false} ApplyAllWidth(attributes: SnippetAttributes, read: seq<Attribute>)
    ensures ApplyAll(attributes, read).width.Some? <==> attributes.width.Some? || WidthKind in Kinds(read)
    decreases |read|
  {
    if read != [] {
      var next := Apply(attributes, read[0]);
      ApplyWidth(attributes, read[0]);
      ApplyAllWidth(next, read[1..]);
      assert ApplyAll(attributes, read) == ApplyAll(next, read[1..]);
      assert Kinds(read) == [Kind(read[0])] + Kinds(read[1..]);
    }
  }

  /** `parse_attributes` on an info string whose attributes all read: it
      succeeds exactly when no kind repeats, a repetition being reported as
      a duplicate; on success each flag is set exactly when its attribute
      was written, and a block that lists no highlighted lines (or only
      `{}`) highlights the single group of all lines. */
  lemma AttributesOfReads(input: string, parsePercent: string -> Option<Percent>)
    requires Reads(input, AttributeReader(parsePercent)).Ok?
    ensures var read := Reads(input, AttributeReader(parsePercent)).value;
      var r := AttributesOf(input, parsePercent);
      && (r.Ok? <==> Distinct(Kinds(read)))
      && (r.Err? ==> r.error == DuplicateAttribute(DuplicateMessage))
      && (r.Ok? ==>
            && (forall k :: IsFlag(k) ==> (FlagSet(r.value, k) <==> k in Kinds(read)))
            && (r.value.width.Some? <==> WidthKind in Kinds(read))
            && ((forall i :: 0 <= i < |read| && read[i].HighlightedLines? ==> read[i].groups == [])
                 ==> r.value.highlightGroups == [AllLines]))
  {
    var read := Reads(input, AttributeReader(parsePercent)).value;
    AttributesOfApplied(input, parsePercent);
    var applied := ApplyAll(DefaultAttributes, read);
    forall k | IsFlag(k)
      ensures FlagSet(applied, k) <==> k in Kinds(read)
    {
      ApplyAllFlag(DefaultAttributes, read, k);
    }
    ApplyAllWidth(DefaultAttributes, read);
    if forall i :: 0 <= i < |read| && read[i].HighlightedLines? ==> read[i].groups == [] {
      ApplyAllGroups(DefaultAttributes, read);
    }
  }

  /** On an info string whose attributes all read, the parse is the
      attributes read applied in order to the defaults, with the group of all
      lines added when none was named, unless a kind repeats. */
  lemma AttributesOfApplied(input: string, parsePercent: string -> Option<Percent>)
    requires Reads(input, AttributeReader(parsePercent)).Ok?
    ensures var read := Reads(input, AttributeReader(parsePercent)).value;
      var applied := ApplyAll(DefaultAttributes, read);
      AttributesOf(input, parsePercent)
        == if !Distinct(Kinds(read)) then Err(DuplicateAttribute(DuplicateMessage))
           else if applied.highlightGroups == [] then Ok(applied.(highlightGroups := [AllLines]))
           else Ok(applied)
  {
    var read := Reads(input, AttributeReader(parsePercent)).value;
    LoopOfReads(input, DefaultAttributes, [], AttributeReader(parsePercent));
    assert [] + Kinds(read) == Kinds(read);
  }

  /** Lists of highlighted lines that are all empty leave no group behind
      when there was none before. */
  lemma {:induction false} ApplyAllGroups(attributes: SnippetAttributes, read: seq<Attribute>)
    requires attributes.highlightGroups == []
    requires forall i :: 0 <= i < |read| && read[i].HighlightedLines? ==> read[i].groups == []
    ensures ApplyAll(attributes, read).highlightGroups == []
    decreases |read|
  {
    if read != [] {
      assert forall i :: 1 <= i < |read| ==> read[i] == read[1..][i - 1];
      ApplyAllGroups(Apply(attributes, read[0]), read[1..]);
    }
  }

  /** An attribute written twice is refused, wherever the second copy is. */
  lemma RepeatedKindRefused(input: string, parsePercent: string -> Option<Percent>, i: nat, j: nat)
    requires Reads(input, AttributeReader(parsePercent)).Ok?
    requires i < j < |Reads(input, AttributeReader(parsePercent)).value|
    requires Kind(Reads(input, AttributeReader(parsePercent)).value[i]) == Kind(Reads(input, AttributeReader(parsePercent)).value[j])
    ensures AttributesOf(input, parsePercent) == Err(DuplicateAttribute(DuplicateMessage))
  {
    AttributesOfReads(input, parsePercent);
  }

  /** An attribute that does not read makes the parse fail. */
  lemma UnreadableRefused(input: string, parsePercent: string -> Option<Percent>)
    requires Reads(input, AttributeReader(parsePercent)).Err?
    ensures AttributesOf(input, parsePercent).Err?
  {
    LoopOfUnreadable(input, DefaultAttributes, [], AttributeReader(parsePercent));
  }
}
