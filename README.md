# presenterm code blocks and snippet execution, modelled in Dafny

This project models the part of presenterm that turns a fenced code block of
a slide into something the renderer can draw and run:

- **Parsing a code block's info string** (`CodeBlockParser`,
  `src/processing/code.rs`). The parser reads the language tag and then the
  attributes: `+line_numbers`, `+exec`, `+exec_replace`, `+render`,
  `+no_background`, `+acquire_terminal`, `+width:<percent>`, and
  `{1,3-5|all}` highlight groups. It also covers errors: unknown tokens,
  malformed or too-large line numbers, a missing `}`, duplicate attributes,
  and a width without `+render`.
- **Snippets** (`Snippet`, `HighlightGroup`, `SnippetLanguage`). This covers
  which lines a highlight group covers and which lines are visible when some
  lines are hidden behind a prefix. It also covers the text handed to the
  executor, where each line loses that prefix once.
- **Preparing code lines** (`CodePreparer`). Tabs are expanded, the
  horizontal padding is added, lines get 1-based numbers, and blank lines are
  added for vertical padding.
- **Highlighting** (`HighlightContext`, `HighlightMutator`, `HighlightedLine`).
  Stepping moves through the highlight groups one slide step at a time, and
  each line picks its highlighted or plain rendering.
- **Running snippets** (`src/processing/execution.rs`). There are three
  operations:
  - `RunSnippetOperation` starts a background run once and polls its output
    into the slide.
  - `SnippetExecutionDisabledOperation` shows a notice.
  - `RunAcquireTerminalSnippet` hands the terminal to the snippet and ranks
    the errors of the handover.
- **The separator** (`src/processing/separator.rs`): a rule of em dashes with
  a heading centred in it.

Parts of the model:

- **Pure code** becomes datatypes and functions.
  - The parser's loops are also methods, each proved equal to the function
    that specifies it.
- **Objects the source changes in place** become classes with `modifies`
  clauses:
  - the shared highlight context;
  - the three run operations;
  - the execution handle they drain.
- **Rust standard-library behaviours** are written out in `RustStr`:
  - `str::lines`, `split_once`, `split`, `trim` (Unicode White_Space) and
    `trim_start_matches(' ')`;
  - `parse::<u16>`, tab replacement, `u16` saturation and `as u16` wrapping.

## Model

| member | source | states |
|---|---|---|
| RustStr.SplitOnce | src/processing/code.rs:341-346 | `split_once` finds nothing exactly when the character is absent; otherwise the text is the part before, the character and the part after, and the part before does not contain the character |
| RustStr.SplitOnceFirst | src/processing/code.rs:306 | splitting at a character that does not occur in the first part gives back exactly that first part and the rest |
| RustStr.SplitJoin | src/processing/code.rs:291 | `split` pieces joined with the separator rebuild the text, and no piece contains the separator |
| RustStr.StripPrefix | src/processing/code.rs:406 | `strip_prefix` succeeds exactly when the line starts with the prefix, and then the prefix plus the remainder is the line |
| RustStr.Find | src/processing/code.rs:332 | `find` gives the first index of the character, or none when it is absent |
| RustStr.TrimStartSpaces | src/processing/code.rs:337-339 | `skip_whitespace` removes exactly the leading spaces, and what remains does not start with a space |
| RustStr.Trim | src/processing/code.rs:301 | `trim` result starts and ends with non-whitespace and is no longer than its input |
| RustStr.TrimIsSlice | src/processing/code.rs:301 | what `trim` keeps is a piece of the text with only whitespace before and after it, so with `Trim`'s ends it is the text from the first to the last non-whitespace character |
| RustStr.TrimIdempotent | src/processing/code.rs:301 | trimming again changes nothing, as `parse_number` does on an already trimmed piece |
| RustStr.TrimKeeps | src/processing/code.rs:301 | every character that is not whitespace survives trimming |
| RustStr.TrimOfPadded | src/processing/code.rs:301 | whitespace padding on both sides of a text with non-whitespace ends is exactly what trimming removes |
| RustStr.DashIsNotU16 | src/processing/code.rs:324-329 | a text holding `-` is never a `u16` |
| RustStr.TrimUnchanged | src/processing/code.rs:301 | trimming leaves alone a text whose first and last characters are not whitespace |
| RustStr.TrimDigits | src/processing/code.rs:326 | trimming a run of digits leaves it unchanged |
| RustStr.ExpandTabsLength | src/processing/code.rs:54 | replacing tabs adds three characters per tab and changes a tab-free line not at all |
| RustStr.Lines | src/processing/code.rs:400 | `str::lines` gives no line containing `\n`, and no lines exactly for the empty text |
| RustStr.LinesOfTerminated | src/processing/code.rs:400 | a line ended by `\n` is the first line, without a `\r` just before the `\n`, and the lines of the rest follow |
| RustStr.LinesOfUnterminated | src/processing/code.rs:400 | a last line without `\n` is one line, kept as it is |
| RustStr.JoinLinesOfLines | src/processing/code.rs:405-409 | a `\r`-free text that is empty or ends in a newline is its lines, each written with `writeln!` |
| RustStr.LinesOfJoinLines | src/processing/code.rs:405-409 | lines written with `writeln!` read back as the same lines |
| RustStr.ParseU16 | src/processing/code.rs:324-329 | `u16::from_str`: a value is read only from a digit run, after at most one `+`, and is that run's value; `ParseDecimal` and `DashIsNotU16` state when it succeeds |
| RustStr.ParseDecimal | src/processing/code.rs:324-329 | `parse::<u16>` of a number's decimal digits gives the number exactly when it is at most 65535 |
| RustStr.SaturateU16 | src/processing/execution.rs:175 | a width becomes itself when it fits in `u16`, and `u16::MAX` otherwise |
| Separator.SaturatingSub | src/processing/separator.rs:53 | the subtraction is exact when it cannot underflow, and zero otherwise |
| Separator.Dashes | src/processing/separator.rs:51 | the repeated rule character has the requested length and holds only dashes |
| Separator.SeparatorColumns | src/processing/separator.rs:41-49 | a fit-to-window rule spans the window's columns; a fixed one spans the smaller of its width and the layout's maximum line length |
| Separator.SeparatorText | src/processing/separator.rs:50-65 | a zero-width heading gives `columns` dashes. Otherwise the heading's runs sit unchanged between a left and a right run of dashes. The right run is as long as the left one or one longer. Their total is the saturating difference of columns and heading width, so a heading that fits fills the rule exactly |
| Separator.SeparatorOperations | src/processing/separator.rs:38-75 | one block line, centred, with no prefix, padding or colour, whose block length is the rule's column count and whose text is the rule |
| CodeLanguage.FromStr | src/processing/code.rs:488-556 | every tag parses; an `Unknown` result carries the tag itself, and no tag gives the unreachable `BatchFile` |
| CodeLanguage.UnknownIsUnrecognised | src/processing/code.rs:553 | a tag becomes `Unknown`, carrying the tag, exactly when it is none of the known names or aliases |
| CodeLanguage.FromStrAlias | src/processing/code.rs:500 | `c++` and `cpp` both name C++ |
| CodeLanguage.FromStrKnownExample | src/processing/code.rs:678-681 | the tag `rust` is Rust |
| CodeLanguage.FromStrUnknownExample | src/processing/code.rs:673-676 | the unknown tag `potato` is kept verbatim |
| CodeSnippet.Contains | src/processing/code.rs:601-611 | a group contains a line exactly when one of its highlights covers it |
| CodeSnippet.GroupContains | src/processing/code.rs:601-611 | the early-returning loop answers exactly whether some highlight covers the line |
| CodeSnippet.Unhidden | src/processing/code.rs:393-401 | the visible lines are the lines that do not start with the hidden prefix, and their count plus the hidden count is the total; without a prefix, every line is visible |
| CodeSnippet.UnhiddenAppend | src/processing/code.rs:401 | filtering works line by line in order: the visible lines of two runs of lines are those of the first followed by those of the second |
| CodeSnippet.UnhiddenSingle | src/processing/code.rs:401 | one line is kept exactly when it does not start with the prefix |
| CodeSnippet.VisibleLines | src/processing/code.rs:393-401 | the visible lines are the snippet's `str::lines` without those starting with the hidden prefix (all of them when there is no prefix); their order and multiplicity follow from `UnhiddenAppend` and `UnhiddenSingle` |
| CodeSnippet.StripHidden | src/processing/code.rs:406 | a line loses the prefix once when it starts with it, and is otherwise unchanged |
| CodeSnippet.StripAll | src/processing/code.rs:405-409 | each line is stripped, one for one |
| CodeSnippet.ExecutableContents | src/processing/code.rs:403-413 | without a prefix, the contents as they are; with one, a newline-terminated text (its lines are given by `ExecutableContentsLines`) |
| CodeSnippet.ExecutableContentsLines | src/processing/code.rs:403-413 | with a prefix, the executable text is newline-terminated; whenever no line of the contents keeps a `\r` at its end, which includes `\n` and `\r\n` endings, its lines are the snippet's lines, each with the prefix stripped once |
| CodeSnippet.ExecutableContentsUnchanged | src/processing/code.rs:403-413 | when no line carries the prefix, stripping leaves a newline-terminated `\r`-free snippet's text as it was |
| CodeParser.NextIdentifier | src/processing/code.rs:341-346 | the identifier is the longest space-free prefix of the input |
| CodeParser.ParseLanguage | src/processing/code.rs:214-220 | the identifier followed by the rest is the input, and the language is the identifier read by `FromStr` (so an unknown language carries the identifier) |
| CodeParser.ParseNumber | src/processing/code.rs:324-329 | succeeds exactly when the trimmed text parses as `u16`, with that value; otherwise the error quotes the untrimmed input |
| CodeParser.ParseWidth | src/processing/code.rs:331-335 | the width is the next identifier (the text up to the first space or the end) read as a percentage, and the rest starts right after it; when it does not read, the error is an invalid width naming that text |
| CodeParser.IdentifierEnd | src/processing/code.rs:332 | the first space, or the end when there is none, is where the next identifier ends |
| CodeParser.HighlightOf | src/processing/code.rs:300-319 | a piece that trims to `all` is every line; a range parsed from a piece always ends past line 0, and every failure is an invalid-highlighted-lines error |
| CodeParser.NumberedOf | src/processing/code.rs:306-318 | as above, for a piece that is not `all` |
| CodeParser.HighlightOfRange | src/processing/code.rs:306-313 | `a-b` is the half-open range from `a` to `b+1`, and is refused as too large when `b` is 65535 |
| CodeParser.RangeText | src/processing/code.rs:301-308 | two runs of digits around `-` are left alone by trimming, are not `all`, and split back into the two runs at the `-` |
| CodeParser.HighlightOfSingle | src/processing/code.rs:315-317 | a number alone is that single line |
| CodeParser.HighlightOfParts | src/processing/code.rs:300-314 | a piece that trims to `left-right` (split at the first `-`) reads each side with `parse_number`, reports a bad left side before a bad right one, and otherwise is the range from the left number to one past the right one, refused when that is 65536 |
| CodeParser.NumberedOfParts | src/processing/code.rs:306-314 | the same for the trimmed piece |
| CodeParser.HighlightOfLone | src/processing/code.rs:315-318 | a piece that trims to a text without `-` (other than `all`) is the single line its trimmed text denotes, or the not-a-number error quoting that text |
| CodeParser.HighlightOfThreeParts | src/processing/code.rs:306-310 | a piece with two dashes, such as `42-3-5`, is refused |
| CodeParser.DashedIsNotNumber | src/processing/code.rs:324-329 | a text holding `-` is not a line number |
| CodeParser.HighlightOfPaddedAll | src/processing/code.rs:302-305 | `all` with blanks around it, as in the test at code.rs:733-746, is every line |
| CodeParser.HighlightOfPaddedRange | src/processing/code.rs:300-314 | a range with blanks around its numbers and its dash, as ` 10 - 12  ` in the test at code.rs:733-746, is read as if the blanks were not there |
| CodeParser.NumberThenBlanks | src/processing/code.rs:324-329 | a number followed by blanks reads as that number |
| CodeParser.BlanksThenNumber | src/processing/code.rs:324-329 | a number after blanks reads as that number |
| CodeParser.HighlightOfTooLarge | src/processing/code.rs:324-329 | a number above 65535 is refused |
| CodeParser.MapAllSpec | src/processing/code.rs:291-294 | collecting with `?` succeeds exactly when every piece parses, giving the results in order, and otherwise gives the first piece's error |
| CodeParser.GroupOf | src/processing/code.rs:298-322 | a group is its comma-separated pieces read in order, as `GroupOfPieces` states |
| CodeParser.GroupOfPieces | src/processing/code.rs:298-322 | a group succeeds exactly when every comma-separated piece is a highlight, and then holds one highlight per piece, each the reading of its piece |
| CodeParser.HighlightsOf | src/processing/code.rs:300-319 | the `?` law for the pieces of one group |
| CodeParser.HighlightGroupsAt | src/processing/code.rs:280-296 | without a `}` the error is "no enclosing '}'"; on success the rest is the text after the first `}`; `HighlightGroupsOf` gives the groups |
| CodeParser.HighlightGroupsOf | src/processing/code.rs:280-296 | for a head before the first `}`: a blank head gives no group; otherwise the call succeeds exactly when every piece of the trimmed head cut at each bar is a group, and then gives one group per piece, in order, followed by the text after the `}` |
| CodeParser.GroupsAtBrace | src/processing/code.rs:282-295 | the head before the first `}` decides the groups, blank or not, and the text after it is the rest |
| CodeParser.GroupsOf | src/processing/code.rs:291-294 | the `?` law for the groups between braces |
| CodeParser.EmptyBraces | src/processing/code.rs:282-288 | `{}` gives no group and leaves the rest untouched |
| CodeParser.FlagOf | src/processing/code.rs:254-260 | the bare flags are never highlight or width attributes |
| CodeParser.AttributeAt | src/processing/code.rs:249-278 | after leading spaces: nothing left ends the attributes, an attribute consumes input, a `+` start is read by `PlusAttributeAt`, a `{` start gives the highlighted lines of `HighlightGroupsAt` after the brace with its rest, or its error, and any other start is an invalid token naming the next identifier |
| CodeParser.PlusAttributeAt | src/processing/code.rs:252-269 | a known flag is read with its name; a name starting with `width:` is read by `WidthAttributeAt`; any other name is an invalid token |
| CodeParser.WidthAttributeAt | src/processing/code.rs:261-265 | the width is the identifier after `+width:` read as a percentage, and the rest starts right after it; when it does not read, the error is an invalid width naming that text. A width attribute always consumes input |
| CodeParser.AttributeReader | src/processing/code.rs:249-278 | reading one attribute always consumes input or ends |
| CodeParser.AttributesOf | src/processing/code.rs:222-247 | parsed attributes always have at least one highlight group |
| CodeParser.LoopOfReads | src/processing/code.rs:225-242 | the attribute loop over attributes that all read succeeds exactly when no kind repeats, and then applies them in order |
| CodeParser.AttributesOfReads | src/processing/code.rs:222-247 | `parse_attributes` succeeds exactly when no attribute kind repeats, and a repeat is reported as a duplicate. Each flag, and the width, is set exactly when it was written, and listing no highlighted lines gives the single all-lines group |
| CodeParser.AttributesOfApplied | src/processing/code.rs:222-247 | on attributes that all read, the result is the duplicate error when a kind repeats, and otherwise the attributes applied in order to the defaults, with the all-lines group added when none was named |
| CodeParser.ApplyFlag | src/processing/code.rs:230-236 | one attribute sets a flag exactly when it is of that flag's kind, and keeps a flag already set |
| CodeParser.ApplyWidth | src/processing/code.rs:238 | one attribute sets the width exactly when it is a width, and keeps a width already set |
| CodeParser.ApplyAllFlag | src/processing/code.rs:230-236 | a flag ends up set exactly when it was set before or its attribute was applied |
| CodeParser.ApplyAllWidth | src/processing/code.rs:238 | the width ends up set exactly when it was set before or a width was applied |
| CodeParser.ApplyAllGroups | src/processing/code.rs:237 | only empty highlight lists leave the groups empty |
| CodeParser.RepeatedKindRefused | src/processing/code.rs:227-229 | any attribute written twice, anywhere, is refused as a duplicate |
| CodeParser.UnreadableRefused | src/processing/code.rs:225 | an attribute that does not read fails the whole parse |
| CodeParser.BlockInfo | src/processing/code.rs:205-212 | the result is `ParseLanguage`'s language with `AttributesOf` the rest: it succeeds exactly when the attributes read and a width comes with `+render`, passes on the attributes' error, and refuses a width without `+render`; a parsed block always has highlight groups |
| CodeParser.SnippetOf | src/processing/code.rs:199-203 | a parsed snippet is the code verbatim with `BlockInfo`'s language and attributes; it succeeds exactly when `BlockInfo` does and otherwise passes on its error |
| CodeParser.ParseHighlightGroup | src/processing/code.rs:298-322 | the loop gives what the group specification gives |
| CodeParser.ParseHighlights | src/processing/code.rs:300-320 | the loop over the pieces stops at the first error and otherwise collects every highlight, in order |
| CodeParser.ParseHighlightGroups | src/processing/code.rs:280-296 | the loop gives what the groups specification gives |
| CodeParser.ParseGroups | src/processing/code.rs:291-294 | the loop over the groups stops at the first error and otherwise collects every group, in order |
| CodeParser.ParseAttribute | src/processing/code.rs:249-278 | gives what the attribute specification gives |
| CodeParser.ParseAttributes | src/processing/code.rs:222-247 | the `while let` loop gives what the attributes specification gives |
| CodeParser.ParseBlockInfo | src/processing/code.rs:205-212 | gives what the block-info specification gives |
| CodeParser.Parse | src/processing/code.rs:199-203 | gives what the snippet specification gives |
| CodePreparer.LineNumberAt | src/processing/code.rs:61 | the line at index `i` is numbered `i + 1` while that fits in `u16` |
| CodePreparer.NumberedLines | src/processing/code.rs:52-64 | one code line per visible line |
| CodePreparer.NumberedLinesShape | src/processing/code.rs:52-64 | each code line is its visible line with tabs expanded and a newline added, so it holds no tab. Lines are numbered consecutively from 1. Each starts with the horizontal padding, then the padded number and a space when line numbers are on, and is padded on the right by as much |
| CodePreparer.PushVisible | src/processing/code.rs:52-64 | the loop appends exactly those code lines, in order, after the lines already there |
| CodePreparer.PushLines | src/processing/code.rs:46-65 | empty contents add nothing; otherwise one code line per visible line is appended |
| CodePreparer.Prepare | src/processing/code.rs:32-44 | the prepared lines are the code lines, between two empty lines when the vertical padding is positive; unset paddings count as zero |
| CodePreparer.PreparedLines | src/processing/code.rs:32-65 | what `prepare` returns; `PreparedShape` and `PlainLinesUnchanged` state its shape |
| CodePreparer.PreparedShape | src/processing/code.rs:32-50 | for every snippet, empty contents included: one line per visible line, plus an empty unnumbered line at each end exactly when there is vertical padding, with the code lines in order in between |
| CodePreparer.PlainLinesUnchanged | src/processing/code.rs:46-65 | without tabs, hidden lines, padding or numbers, the code lines are the snippet's own lines with a newline and no prefix, empty contents included |
| CodeHighlight.HighlightContext.constructor | src/processing/code.rs:103-109 | the context holds the given groups, cursor, block length and alignment, and is valid: the groups are not empty and the cursor indexes one |
| CodeHighlight.NextIndex | src/processing/code.rs:159-167 | a step forward moves one group on, except at the last group, where it stays |
| CodeHighlight.PreviousIndex | src/processing/code.rs:169-177 | a step back moves one group back, except at the first group, where it stays |
| CodeHighlight.ForwardReaches | src/processing/code.rs:159-167 | `n` steps forward reach group `min(current + n, last)` |
| CodeHighlight.StepsUndo | src/processing/code.rs:159-177 | a step forward that moved is undone by a step back, and the other way round |
| CodeHighlight.HighlightMutator.MutateNext | src/processing/code.rs:159-167 | moves forward one group and reports true, unless at the last group; nothing else in the context changes |
| CodeHighlight.HighlightMutator.MutatePrevious | src/processing/code.rs:169-177 | moves back one group and reports true, unless at the first group; nothing else changes |
| CodeHighlight.HighlightMutator.ResetMutations | src/processing/code.rs:179-181 | back to the first group |
| CodeHighlight.HighlightMutator.ApplyAllMutations | src/processing/code.rs:183-186 | to the last group, which is where stepping forward through every group ends |
| CodeHighlight.HighlightMutator.Mutations | src/processing/code.rs:188-191 | the current step is below the number of steps, which is the number of groups |
| CodeHighlight.HighlightedLineOperations | src/processing/code.rs:122-145 | a block line then a line break. The text is highlighted exactly when the line has a number that the current group covers. The block line carries the context's block length cut to 16 bits, its alignment, and the line's prefix, padding and colour |
| CodeHighlight.AllGroupHighlightsNumbered | src/processing/code.rs:243-245 | under the default all-lines group, exactly the numbered lines are highlighted |
| CodeHighlight.RangeIsHalfOpen | src/processing/code.rs:606 | a range highlights its start but not its end |
| Execution.ConstructedBlockLength | src/processing/execution.rs:65-68 | a centred block is at least its minimum size; other alignments keep the given length |
| Execution.MaxWidth | src/processing/execution.rs:172-177 | the widest new line (widths saturated to `u16`) is at least every line's width and is one of them, or 0 for no lines |
| Execution.LongestLine | src/processing/execution.rs:172-177 | the measuring loop computes that widest width |
| Execution.SeparatorOperations | src/processing/execution.rs:101-118 | a line break, the separator with the ` [status] ` heading, a line break |
| Execution.OutputOperations | src/processing/execution.rs:135-146 | two operations per output line |
| Execution.OutputOperationsAt | src/processing/execution.rs:135-146 | the output line at `i` becomes, at `2i` and `2i+1`, a prefix-less block line showing it and a line break |
| Execution.OutputOperationsAppend | src/processing/execution.rs:135-146 | one more output line appends its two operations at the end |
| Execution.PushOutputLines | src/processing/execution.rs:135-146 | the loop appends exactly those operations |
| Execution.RunSnippetOperation.constructor | src/processing/execution.rs:53-88 | not started, with no handle, no output, maximum line length 0 and the default style; described as "not started"; block length as for `ConstructedBlockLength` |
| Execution.RunSnippetOperation.StartRender | src/processing/execution.rs:191-208 | only a run that has not started starts, and the call reports whether it did; a later call changes nothing. A launched run holds its handle and renders unmodified. A failed launch has the error as its only output line, is rendered, and holds no handle |
| Execution.RunSnippetOperation.PollState | src/processing/execution.rs:153-189 | See the note below the table. |
| Execution.RunSnippetOperation.SeparatorWidthOf | src/processing/execution.rs:104-109 | left or right aligned: fit to the window; centred: fixed at the larger of the block length and 32 columns |
| Execution.HasMargin | src/processing/execution.rs:128-132 | whether an alignment reserves room; `RenderedBlockLength` states its effect |
| Execution.RunSnippetOperation.RenderedBlockLength | src/processing/execution.rs:128-134 | the longest output line, raised to the block length when the alignment has a margin |
| Execution.RunSnippetOperation.RenderOperations | src/processing/execution.rs:97-149 | before the start, only the separator, if shown. Afterwards: a line break; the block colours when they have a background; the output lines at the rendered block length; and the default colours restored |
| Execution.SnippetExecutionDisabledOperation.constructor | src/processing/execution.rs:218-222 | not started |
| Execution.SnippetExecutionDisabledOperation.StartRender | src/processing/execution.rs:241-244 | marks the notice started, and reports true only for the first call |
| Execution.SnippetExecutionDisabledOperation.PollState | src/processing/execution.rs:246-248 | always rendered |
| Execution.SnippetExecutionDisabledOperation.RenderOperations | src/processing/execution.rs:224-237 | nothing before the start; afterwards the notice, in its colours and alignment, between two line breaks |
| Execution.Invoke | src/processing/execution.rs:290-308 | the result of handing the terminal to a snippet, as `InvokePrecedence` and `DeinitFailureSkipsRun` state |
| Execution.InvokePrecedence | src/processing/execution.rs:290-308 | a handover failure wins, then a take-back failure, then a cursor-hiding failure, and only then the snippet's own result. The call succeeds exactly when every step that runs succeeds |
| Execution.DeinitFailureSkipsRun | src/processing/execution.rs:291-295 | when the terminal cannot be handed over, the snippet's outcome plays no part |
| Execution.RunAcquireTerminalSnippet.constructor | src/processing/execution.rs:278-287 | not started |
| Execution.RunAcquireTerminalSnippet.StartRender | src/processing/execution.rs:349-360 | runs only when not started, and reports whether it did. A success is remembered, and a failure keeps its error split into lines |
| Execution.RunAcquireTerminalSnippet.PollState | src/processing/execution.rs:362-364 | always rendered |
| Execution.RunAcquireTerminalSnippet.RenderOperations | src/processing/execution.rs:311-345 | the separator, at least 32 columns wide and naming the state. After a failure it is followed by a line break, then each error line, in the failure colour with a quarter-width left margin, each followed by a line break |

`Execution.RunSnippetOperation.PollState` states the following:

- With a handle:
  - The process's output is drained, split starting in the previous ending
    style and appended.
  - That ending style is kept for the next poll.
  - The maximum line length rises to the widest new line.
  - The description names the status.
  - A finished process drops the handle and the run has just finished.
  - Otherwise the run is rendering, modified exactly when there was new
    output.
- Without a handle nothing changes, so a finished run keeps reporting "just
  finished".
- The output only grows, the maximum line length never shrinks, and the
  state never moves back.

## Left out

- `src/input/source.rs` and `src/media/mod.rs` are not part of this model: they are not used by the code above.
- `ExternalFile`, the serde deserialisation of languages and the `+width` percentage syntax (`Percent`'s `FromStr` in the markdown elements) are not part of this model. A percentage is read by the parameter `parsePercent`.
- CodeParser.ParseWidth: the error carries the width's text rather than the percentage parser's own error value, which is not visible here.
- CodeParser.WidthAttributeAt: the error carries the width's text in the same way as `ParseWidth`.
- `NumberPadder` is not part of this model: the padding of a line number is the parameter `pad`, which receives the number and the count of visible lines.
- `CodeLine::width`, `highlight`, `dim` and `dim_prefix` are left out. Display width (`unicode-width`) and syntax highlighting are not visible here.
- `HighlightedLine`'s two renderings are taken as given lines, for the same reason.
- `AnsiSplitter::split_lines` and `WeightedLine::width` are the function-typed fields `split` and `width` of `RunSnippetOperation`. ANSI escape parsing is not modelled.
- `Layout::compute` is left out: the separator's layout width is the parameter `layoutWidth`.
- `Line::width` of a heading is the parameter `textWidth`.
- Process spawning, the background reader thread and the mutex around `ExecutionState` are left out. The handle is the shared record itself, and a poll sees one snapshot of it.
- `SnippetExecutor::execute_async` is the parameter `launch` of `StartRender`.
- The terminal calls in `invoke` (alternate screen, raw mode, cursor, `should_hide_cursor`) and `execute_sync` are the step outcomes in `Steps`.
- `Rc<RefCell<…>>` sharing is left out. Borrowing cannot fail in the model, and the shared context is one object referenced by every line and by the mutator.
- `Margin::is_empty` is not visible here. A margin is taken to be empty when its value is zero.
- CodePreparer.LineNumberAt: `index as u16 + 1` is modelled as wrapping. This is the release-build behaviour; a debug build would panic past 65535 lines. The numbering property is stated below that bound.
- RustStr.Lines: a text ending in a lone `\r` without `\n` keeps that `\r`, as `str::lines` does.
- Strings are sequences of characters, not UTF-8 bytes, and byte offsets are not modelled. Every slice the parser takes is bounded by something it found in the same text: the end of a prefix it matched (an identifier, `+`, `{`, `+width:`) or an ASCII delimiter it searched for (a space, `-`, `,`, `|`, `}`). So the pieces are the same whether positions count bytes or characters.
- `BatchFile` is in the language enumeration but no tag produces it.
- `HighlightContext` and `HighlightMutator` rely on the groups never being empty, which every parsed block guarantees. Their methods require that, because `len() - 1` would underflow on an empty list.
