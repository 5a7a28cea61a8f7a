/** The behaviour of the Rust standard-library string operations that the
    code-block parser and the snippet helpers rely on, over strings as
    sequences of characters.

    Every slice the parser takes is at the end of a matched ASCII prefix or
    separator, so character positions stand in for Rust's byte positions. */
module RustStr {

  datatype Option<+T> = None | Some(value: T)

  /** Rust's `u16`. */
  type u16 = x: int | 0 <= x < 0x1_0000
  const U16_MAX: u16 := 0xFFFF

  /** `u16::try_from(n).unwrap_or(u16::MAX)`: saturation at the top of the range. */
  function SaturateU16(n: nat): (r: u16)
    ensures n <= U16_MAX ==> r == n
    ensures n > U16_MAX ==> r == U16_MAX
  {
    if n <= U16_MAX then n else U16_MAX
  }

  predicate StartsWith(s: string, prefix: string) {
    |prefix| <= |s| && s[..|prefix|] == prefix
  }

  /** `str::strip_prefix`. */
  function StripPrefix(s: string, prefix: string): (r: Option<string>)
    ensures r.Some? <==> StartsWith(s, prefix)
    ensures r.Some? ==> prefix + r.value == s
  {
    if StartsWith(s, prefix) then Some(s[|prefix|..]) else None
  }

  /** `str::find(c)`: the position of the first occurrence of `c`. */
  function Find(s: string, c: char): (r: Option<nat>)
    ensures r.None? <==> c !in s
    ensures r.Some? ==> r.value < |s| && s[r.value] == c && c !in s[..r.value]
  {
    if s == [] then None
    else if s[0] == c then Some(0)
    else match Find(s[1..], c)
      case None => None
      case Some(i) =>
        assert s[..i + 1] == [s[0]] + s[1..][..i];
        Some(i + 1)
  }

  /** The first occurrence is the one `Find` reports. */
  lemma {:induction false} FindFirst(s: string, c: char, k: nat)
    requires k < |s| && s[k] == c && c !in s[..k]
    ensures Find(s, c) == Some(k)
  {
    if k > 0 {
      assert s[0] in s[..k];
      assert s[1..][..k - 1] == s[1..k];
      FindFirst(s[1..], c, k - 1);
    }
  }

  /** `str::split_once(c)`: the text before and after the first `c`. */
  function SplitOnce(s: string, c: char): (r: Option<(string, string)>)
    ensures r.None? <==> c !in s
    ensures r.Some? ==> r.value.0 + [c] + r.value.1 == s && c !in r.value.0
  {
    match Find(s, c)
    case None => None
    case Some(i) =>
      assert s[..i] + [c] + s[i + 1..] == s;
      Some((s[..i], s[i + 1..]))
  }

  /** `split_once` splits at the first `c`, wherever the rest has more. */
  lemma SplitOnceFirst(before: string, c: char, after: string)
    requires c !in before
    ensures SplitOnce(before + [c] + after, c) == Some((before, after))
  {
    var s := before + [c] + after;
    assert s[..|before|] == before;
    FindFirst(s, c, |before|);
    assert s[|before| + 1..] == after;
  }

  /** `str::find(pat)` for a string pattern. */
  function FindStr(s: string, pat: string): (r: Option<nat>)
    ensures r.Some? ==> r.value + |pat| <= |s| && StartsWith(s[r.value..], pat)
    ensures r.Some? ==> forall k :: 0 <= k < r.value ==> !StartsWith(s[k..], pat)
    ensures r.None? ==> forall k :: 0 <= k <= |s| ==> !StartsWith(s[k..], pat)
    decreases |s|
  {
    if StartsWith(s, pat) then Some(0)
    else if s == [] then None
    else match FindStr(s[1..], pat)
      case None =>
        assert forall k :: 1 <= k <= |s| ==> s[k..] == s[1..][k - 1..];
        None
      case Some(i) =>
        assert forall k :: 1 <= k <= |s| ==> s[k..] == s[1..][k - 1..];
        Some(i + 1)
  }

  /** `str::split_once(pat)` for a string pattern. */
  function SplitOnceStr(s: string, pat: string): (r: Option<(string, string)>)
    ensures r.Some? ==> r.value.0 + pat + r.value.1 == s
    ensures StartsWith(s, pat) ==> r == Some(([], s[|pat|..]))
  {
    match FindStr(s, pat)
    case None => None
    case Some(i) =>
      assert s[..i] + pat + s[i + |pat|..] == s by {
        assert s[i..][..|pat|] == s[i..i + |pat|];
      }
      Some((s[..i], s[i + |pat|..]))
  }

  /** `str::split(c)`: every piece between occurrences of `c`, in order. */
  function Split(s: string, c: char): (r: seq<string>)
    ensures |r| >= 1
    decreases |s|
  {
    match SplitOnce(s, c)
    case None => [s]
    case Some((head, tail)) => [head] + Split(tail, c)
  }

  /** The inverse of `Split`: the pieces joined with `c` between them. */
  function JoinWith(pieces: seq<string>, c: char): string
    requires |pieces| >= 1
  {
    if |pieces| == 1 then pieces[0] else pieces[0] + [c] + JoinWith(pieces[1..], c)
  }

  /** Splitting loses nothing and keeps no separator: joining the pieces
      gives back the string, and no piece holds `c`. */
  lemma {:induction false} SplitJoin(s: string, c: char)
    ensures JoinWith(Split(s, c), c) == s
    ensures forall i :: 0 <= i < |Split(s, c)| ==> c !in Split(s, c)[i]
    decreases |s|
  {
    match SplitOnce(s, c)
    case None =>
    case Some((head, tail)) =>
      SplitJoin(tail, c);
      assert Split(s, c)[1..] == Split(tail, c);
  }

  /** Rust's `char::is_whitespace` (the Unicode White_Space property). */
  predicate IsWhitespace(c: char) {
    || ('\t' <= c <= '\r')
    || c == ' ' || c == '\U{0085}' || c == '\U{00A0}' || c == '\U{1680}'
    || ('\U{2000}' <= c <= '\U{200A}')
    || c == '\U{2028}' || c == '\U{2029}' || c == '\U{202F}' || c == '\U{205F}' || c == '\U{3000}'
  }

  function TrimStart(s: string): (r: string)
    ensures |r| <= |s| && r == s[|s| - |r|..]
    ensures r == [] || !IsWhitespace(r[0])
    ensures forall k :: 0 <= k < |s| - |r| ==> IsWhitespace(s[k])
  {
    if s != [] && IsWhitespace(s[0]) then TrimStart(s[1..]) else s
  }

  function TrimEnd(s: string): (r: string)
    ensures |r| <= |s| && r == s[..|r|]
    ensures r == [] || !IsWhitespace(r[|r| - 1])
    ensures forall k :: |r| <= k < |s| ==> IsWhitespace(s[k])
  {
    if s != [] && IsWhitespace(s[|s| - 1]) then TrimEnd(s[..|s| - 1]) else s
  }

  /** `str::trim`: the string without leading and trailing whitespace. */
  function Trim(s: string): (r: string)
    ensures r == [] || (!IsWhitespace(r[0]) && !IsWhitespace(r[|r| - 1]))
    ensures |r| <= |s|
  {
    TrimEnd(TrimStart(s))
  }

  /** What trimming keeps is a piece of the text with only whitespace before
      and after it; with the ends `Trim` guarantees, this is the piece from
      the first to the last character that is not whitespace. */
  lemma TrimIsSlice(s: string)
    ensures exists i :: SliceBetweenWhitespace(s, Trim(s), i)
  {
    var start := TrimStart(s);
    assert SliceBetweenWhitespace(s, Trim(s), |s| - |start|);
  }

  /** `r` is the part of `s` starting at `i`, and only whitespace comes
      before and after it. */
  predicate SliceBetweenWhitespace(s: string, r: string, i: nat) {
    && i + |r| <= |s| && r == s[i..i + |r|]
    && (forall k :: 0 <= k < i ==> IsWhitespace(s[k]))
    && (forall k :: i + |r| <= k < |s| ==> IsWhitespace(s[k]))
  }

  /** Trimming leaves alone a text that neither starts nor ends with
      whitespace. */
  lemma TrimUnchanged(s: string)
    requires s == [] || (!IsWhitespace(s[0]) && !IsWhitespace(s[|s| - 1]))
    ensures Trim(s) == s
  {
    assert TrimStart(s) == s;
  }

  predicate AllWhitespace(s: string) {
    forall k :: 0 <= k < |s| ==> IsWhitespace(s[k])
  }

  /** Whitespace in front of a text that does not start with whitespace is
      what `trim_start` removes. */
  lemma {:induction false} TrimStartOfPadded(pre: string, t: string)
    requires AllWhitespace(pre) && (t == [] || !IsWhitespace(t[0]))
    ensures TrimStart(pre + t) == t
    decreases |pre|
  {
    if pre == [] {
      assert pre + t == t;
    } else {
      assert (pre + t)[1..] == pre[1..] + t;
      TrimStartOfPadded(pre[1..], t);
    }
  }

  /** Whitespace after a text that does not end with whitespace is what
      `trim_end` removes. */
  lemma {:induction false} TrimEndOfPadded(t: string, post: string)
    requires AllWhitespace(post) && (t == [] || !IsWhitespace(t[|t| - 1]))
    ensures TrimEnd(t + post) == t
    decreases |post|
  {
    if post == [] {
      assert t + post == t;
    } else {
      var last := |post| - 1;
      assert (t + post)[..|t + post| - 1] == t + post[..last];
      TrimEndOfPadded(t, post[..last]);
    }
  }

  /** Trimming a text padded with whitespace on both sides gives the text,
      when it neither starts nor ends with whitespace. */
  lemma TrimOfPadded(pre: string, t: string, post: string)
    requires AllWhitespace(pre) && AllWhitespace(post)
    requires t != [] && !IsWhitespace(t[0]) && !IsWhitespace(t[|t| - 1])
    ensures Trim(pre + t + post) == t
  {
    assert pre + t + post == pre + (t + post);
    TrimStartOfPadded(pre, t + post);
    TrimEndOfPadded(t, post);
  }

  /** Trimming twice trims no more than once. */
  lemma TrimIdempotent(s: string)
    ensures Trim(Trim(s)) == Trim(s)
  {
    TrimUnchanged(Trim(s));
  }

  /** Trimming keeps every character that is not whitespace. */
  lemma TrimKeeps(s: string, c: char)
    requires c in s && !IsWhitespace(c)
    ensures c in Trim(s)
  {
    var r := Trim(s);
    TrimIsSlice(s);
    var i :| SliceBetweenWhitespace(s, r, i);
    var k :| 0 <= k < |s| && s[k] == c;
    assert r[k - i] == c;
  }

  /** A text holding a `-` is not a `u16`. */
  lemma DashIsNotU16(s: string)
    requires '-' in s
    ensures ParseU16(s) == None
  {
    var k :| 0 <= k < |s| && s[k] == '-';
    var digits := UnsignedDigits(s);
    if digits != s {
      assert digits[k - 1] == '-';
    } else {
      assert digits[k] == '-';
    }
  }

  /** Trimming leaves a number's digits alone. */
  lemma TrimDigits(s: string)
    requires AllDigits(s)
    ensures Trim(s) == s
  {
    if s != [] {
      assert IsDigit(s[0]) && IsDigit(s[|s| - 1]);
    }
    TrimUnchanged(s);
  }

  /** `str::trim_start_matches(' ')`: only spaces are dropped. */
  function TrimStartSpaces(s: string): (r: string)
    ensures |r| <= |s| && r == s[|s| - |r|..]
    ensures r == [] || r[0] != ' '
    ensures forall k :: 0 <= k < |s| - |r| ==> s[k] == ' '
  {
    if s != [] && s[0] == ' ' then TrimStartSpaces(s[1..]) else s
  }

  /** `str::replace('\t', "    ")`. */
  function ExpandTabs(s: string): (r: string)
    ensures '\t' !in r
  {
    if s == [] then []
    else (if s[0] == '\t' then "    " else [s[0]]) + ExpandTabs(s[1..])
  }

  function CountChar(s: string, c: char): nat {
    if s == [] then 0 else (if s[0] == c then 1 else 0) + CountChar(s[1..], c)
  }

  /** Each tab becomes four spaces and every other character is kept. */
  lemma {:induction false} ExpandTabsLength(s: string)
    ensures |ExpandTabs(s)| == |s| + 3 * CountChar(s, '\t')
    ensures '\t' !in s ==> ExpandTabs(s) == s
  {
    if s != [] {
      ExpandTabsLength(s[1..]);
    }
  }

  // ---------------------------------------------------------------------------
  // str::lines

  /** The line ending `\r\n` loses its `\r` as well as its `\n`. */
  function StripCr(line: string): string {
    if |line| > 0 && line[|line| - 1] == '\r' then line[..|line| - 1] else line
  }

  /** `str::lines`: the pieces ended by `\n` (or `\r\n`), where a final line
      ending is optional and yields no empty last line. */
  function Lines(s: string): (r: seq<string>)
    ensures forall i :: 0 <= i < |r| ==> '\n' !in r[i]
    ensures s == [] <==> r == []
    decreases |s|
  {
    if s == [] then []
    else match SplitOnce(s, '\n')
      case None => [s]
      case Some((line, rest)) =>
        assert StripCr(line) <= line;
        [StripCr(line)] + Lines(rest)
  }

  /** A line ended by `\n` is the first line, without a `\r` before the
      `\n`, and the lines after it follow. */
  lemma LinesOfTerminated(a: string, b: string)
    requires '\n' !in a
    ensures Lines(a + "\n" + b) == [StripCr(a)] + Lines(b)
  {
    SplitOnceFirst(a, '\n', b);
  }

  /** A last line without a line ending is a line of its own, kept as it is
      (even a final `\r`). */
  lemma LinesOfUnterminated(a: string)
    requires '\n' !in a && a != []
    ensures Lines(a) == [a]
  {
  }

  /** Every line written out followed by `\n` (what `writeln!` produces). */
  function JoinLines(lines: seq<string>): (r: string)
    ensures lines == [] <==> r == []
    ensures r != [] ==> r[|r| - 1] == '\n'
  {
    if lines == [] then [] else lines[0] + "\n" + JoinLines(lines[1..])
  }

  predicate EndsWithCr(line: string) {
    |line| > 0 && line[|line| - 1] == '\r'
  }

  /** A text without `\r` that is empty or ends in `\n` is exactly its lines,
      each written back with a `\n`. */
  lemma {:induction false} JoinLinesOfLines(s: string)
    requires '\r' !in s
    requires s == [] || s[|s| - 1] == '\n'
    ensures JoinLines(Lines(s)) == s
    decreases |s|
  {
    if s != [] {
      match SplitOnce(s, '\n')
      case None =>
      case Some((line, rest)) =>
        assert StripCr(line) == line by {
          assert line == s[..|line|];
        }
        assert rest == s[|line| + 1..];
        JoinLinesOfLines(rest);
        assert Lines(s)[1..] == Lines(rest);
    }
  }

  /** Lines written with `\n` endings split back into the same lines. */
  lemma {:induction false} LinesOfJoinLines(lines: seq<string>)
    requires forall i :: 0 <= i < |lines| ==> '\n' !in lines[i] && !EndsWithCr(lines[i])
    ensures Lines(JoinLines(lines)) == lines
  {
    if lines != [] {
      var s := JoinLines(lines);
      var first, rest := lines[0], JoinLines(lines[1..]);
      assert s == first + ['\n'] + rest;
      assert SplitOnce(s, '\n') == Some((first, rest)) by {
        FindFirst(s, '\n', |first|);
        assert s[..|first|] == first;
        assert s[|first| + 1..] == rest;
      }
      LinesOfJoinLines(lines[1..]);
    }
  }

  // ---------------------------------------------------------------------------
  // Decimal numbers: `str::parse::<u16>` and formatting.

  predicate IsDigit(c: char) {
    '0' <= c <= '9'
  }

  predicate AllDigits(s: string) {
    forall i :: 0 <= i < |s| ==> IsDigit(s[i])
  }

  function DigitValue(c: char): nat
    requires IsDigit(c)
  {
    c as int - '0' as int
  }

  /** The number a string of decimal digits denotes (leading zeros allowed). */
  function DigitsValue(s: string): nat
    requires AllDigits(s)
  {
    if s == [] then 0 else DigitsValue(s[..|s| - 1]) * 10 + DigitValue(s[|s| - 1])
  }

  /** `str::parse::<u16>`: one optional `+`, then at least one ASCII digit,
      denoting a value of at most 65535. A lone `+`, a `-`, any other
      character and any larger value are errors. */
  function ParseU16(s: string): (r: Option<u16>)
    ensures r.Some? ==> s != [] && AllDigits(UnsignedDigits(s)) && r.value == DigitsValue(UnsignedDigits(s))
  {
    var digits := UnsignedDigits(s);
    if digits != [] && AllDigits(digits) && DigitsValue(digits) <= U16_MAX
    then Some(DigitsValue(digits))
    else None
  }

  /** The digits of an unsigned number after an optional leading `+`
      (a lone `+` is kept, and is then not a digit). */
  function UnsignedDigits(s: string): string {
    if |s| > 1 && s[0] == '+' then s[1..] else s
  }

  /** `format!("{n}")` for a natural number. */
  function Decimal(n: nat): (r: string)
    ensures r != [] && AllDigits(r)
  {
    if n < 10 then [('0' as int + n) as char]
    else Decimal(n / 10) + [('0' as int + n % 10) as char]
  }

  lemma {:induction false} DecimalValue(n: nat)
    ensures DigitsValue(Decimal(n)) == n
  {
    if n >= 10 {
      DecimalValue(n / 10);
      var d := Decimal(n);
      assert d[..|d| - 1] == Decimal(n / 10);
    }
  }

  /** Parsing a formatted number gives it back exactly when it fits in a
      `u16`; anything above 65535 is rejected. */
  lemma ParseDecimal(n: nat)
    ensures ParseU16(Decimal(n)) == if n <= U16_MAX then Some(n) else None
  {
    DecimalValue(n);
  }
}
