/** A statement printed from its source: split at the newlines between tokens and re-anchored (`format_block.rs`). */
module Reanchoring {
  import Lexing

  /** Where a token or a comment lies in the text. */
  datatype Span = Span(start: nat, end: nat)

  predicate Inside(spans: seq<Span>, offset: int) {
    exists k :: 0 <= k < |spans| && spans[k].start <= offset < spans[k].end
  }

  predicate SortedByStart(spans: seq<Span>) {
    forall i, j :: 0 <= i < j < |spans| ==> spans[i].start <= spans[j].start
  }

  predicate Between(text: string, spans: seq<Span>, offset: int) {
    0 <= offset < |text| && text[offset] == '\n' && !Inside(spans, offset)
  }

  /** The newlines from `from` on that no span covers. */
  function Separators(text: string, spans: seq<Span>, from: nat): (r: seq<nat>)
    requires from <= |text|
    ensures forall i :: 0 <= i < |r| ==> from <= r[i] && Between(text, spans, r[i])
    ensures forall i, j :: 0 <= i < j < |r| ==> r[i] < r[j]
    ensures forall offset: int :: from <= offset && Between(text, spans, offset) ==> offset in r
    decreases |text| - from
  {
    if from == |text| then []
    else (if Between(text, spans, from) then [from] else []) + Separators(text, spans, from + 1)
  }

  /** One pass with two cursors. The spans may overlap, as the two spans of a plain backtick string do:
      that they are sorted by their start is enough. */
  method SeparableNewlines(text: string, spans: seq<Span>) returns (separators: seq<nat>)
    requires SortedByStart(spans)
    ensures separators == Separators(text, spans, 0)
  {
    hide Separators, Inside, SortedByStart;
    separators := [];
    var nextSpan := 0;
    for offset := 0 to |text|
      invariant nextSpan <= |spans| && forall k :: 0 <= k < nextSpan ==> spans[k].end <= offset
      invariant separators + Separators(text, spans, offset) == Separators(text, spans, 0)
    {
      NextSeparator(text, spans, offset);
      if text[offset] != '\n' {
        continue;
      }
      while nextSpan < |spans| && spans[nextSpan].end <= offset
        invariant nextSpan <= |spans| && forall k :: 0 <= k < nextSpan ==> spans[k].end <= offset
      {
        nextSpan := nextSpan + 1;
      }
      var isInside := nextSpan < |spans| && spans[nextSpan].start <= offset;
      FirstDecides(spans, nextSpan, offset);
      if !isInside {
        Regroup(separators, [offset], Separators(text, spans, offset + 1));
        separators := separators + [offset];
      }
    }
    NoSeparator(text, spans);
  }

  /** Of the spans that end behind `offset` the first has the smallest start. */
  lemma FirstDecides(spans: seq<Span>, next: nat, offset: nat)
    requires SortedByStart(spans) && next <= |spans| && forall k :: 0 <= k < next ==> spans[k].end <= offset
    requires next < |spans| ==> offset < spans[next].end
    ensures Inside(spans, offset) <==> next < |spans| && spans[next].start <= offset
  {
  }

  lemma Regroup(a: seq<nat>, b: seq<nat>, c: seq<nat>)
    ensures a + (b + c) == a + b + c
  {
  }

  lemma NextSeparator(text: string, spans: seq<Span>, offset: nat)
    requires offset < |text|
    ensures Separators(text, spans, offset)
            == if Between(text, spans, offset) then [offset] + Separators(text, spans, offset + 1)
               else Separators(text, spans, offset + 1)
  {
  }

  lemma NoSeparator(text: string, spans: seq<Span>)
    ensures Separators(text, spans, |text|) == []
  {
  }

  // ----- the spans -----

  function TokenSpans(lexemes: seq<Lexing.Lexeme>): seq<Span> {
    if lexemes == [] then []
    else
      (if lexemes[0].Piece? && lexemes[0].start < lexemes[0].end then [Span(lexemes[0].start, lexemes[0].end)] else [])
      + TokenSpans(lexemes[1..])
  }

  function CommentSpans(comments: seq<Lexing.Comment>): seq<Span> {
    if comments == [] then []
    else
      (if comments[0].start < comments[0].end then [Span(comments[0].start, comments[0].end)] else [])
      + CommentSpans(comments[1..])
  }

  /** Where the newlines between the tokens of a text are, its own lexer asked; none where that records an
      error. */
  function Breaks(input: Lexing.Input): (r: seq<nat>)
    ensures Ordered(input.source, r)
  {
    var (last, lexemes) := Lexing.All(input, Lexing.Start(input));
    if last.errors != [] then [] else Separators(input.source, TokenSpans(lexemes) + CommentSpans(last.comments), 0)
  }

  method SortByStart(spans: seq<Span>) returns (sorted: seq<Span>)
    ensures SortedByStart(sorted) && forall s :: s in sorted <==> s in spans
  {
    sorted := [];
    for i := 0 to |spans|
      invariant SortedByStart(sorted) && forall s :: s in sorted <==> s in spans[..i]
    {
      var k := |sorted|;
      while k > 0 && spans[i].start < sorted[k - 1].start
        invariant 0 <= k <= |sorted| && forall m :: k <= m < |sorted| ==> spans[i].start < sorted[m].start
      {
        k := k - 1;
      }
      PutIn(sorted, k, spans[i]);
      assert spans[..i + 1] == spans[..i] + [spans[i]];
      sorted := sorted[..k] + [spans[i]] + sorted[k..];
    }
    assert spans[..|spans|] == spans;
  }

  lemma PutIn(sorted: seq<Span>, k: nat, span: Span)
    requires SortedByStart(sorted) && k <= |sorted|
    requires (k > 0 ==> sorted[k - 1].start <= span.start) && forall m :: k <= m < |sorted| ==>
               span.start < sorted[m].start
    ensures SortedByStart(sorted[..k] + [span] + sorted[k..])
    ensures forall s :: s in sorted[..k] + [span] + sorted[k..] <==> s in sorted || s == span
  {
    hide SortedByStart;
    PutInSorted(sorted, k, span);
    PutInMembers(sorted, k, span);
  }

  lemma PutInSorted(sorted: seq<Span>, k: nat, span: Span)
    requires SortedByStart(sorted) && k <= |sorted|
    requires (k > 0 ==> sorted[k - 1].start <= span.start) && forall m :: k <= m < |sorted| ==>
               span.start < sorted[m].start
    ensures SortedByStart(sorted[..k] + [span] + sorted[k..])
  {
    var r := sorted[..k] + [span] + sorted[k..];
    assert forall i :: 0 <= i < |r| ==> r[i] == if i < k then sorted[i] else if i == k then span else sorted[i - 1];
  }

  lemma PutInMembers(sorted: seq<Span>, k: nat, span: Span)
    requires k <= |sorted|
    ensures forall s :: s in sorted[..k] + [span] + sorted[k..] <==> s in sorted || s == span
  {
    assert sorted == sorted[..k] + sorted[k..];
  }

  /** The order of the spans does not matter. */
  lemma {:induction false} SameSeparators(text: string, a: seq<Span>, b: seq<Span>, from: nat)
    requires from <= |text| && forall s :: s in a <==> s in b
    ensures Separators(text, a, from) == Separators(text, b, from)
    decreases |text| - from
  {
    if from < |text| {
      SameInside(a, b, from);
      SameInside(b, a, from);
      SameSeparators(text, a, b, from + 1);
    }
  }

  lemma SameInside(a: seq<Span>, b: seq<Span>, offset: int)
    requires forall s :: s in a ==> s in b
    ensures Inside(a, offset) ==> Inside(b, offset)
  {
    if Inside(a, offset) {
      var k :| 0 <= k < |a| && a[k].start <= offset < a[k].end;
      assert a[k] in b;
    }
  }

  method FindBreaks(input: Lexing.Input) returns (separators: seq<nat>)
    ensures separators == Breaks(input)
  {
    var (last, lexemes) := Lexing.All(input, Lexing.Start(input));
    if last.errors != [] {
      return [];
    }
    var spans := TokenSpans(lexemes) + CommentSpans(last.comments);
    var sorted := SortByStart(spans);
    SameSeparators(input.source, sorted, spans, 0);
    separators := SeparableNewlines(input.source, sorted);
  }

  // ----- the lines -----

  predicate IsIndent(s: string) { forall i :: 0 <= i < |s| ==> s[i] == ' ' || s[i] == '\t' }

  /** Where the line that holds `at` starts. */
  function LineStart(source: string, at: nat): (r: nat)
    requires at <= |source|
    ensures r <= at
  {
    if at == 0 || source[at - 1] == '\n' then at else LineStart(source, at - 1)
  }

  /** What stands before the statement on its line, unless that is earlier code. */
  function BaseIndent(source: string, start: nat): (r: string)
    requires start <= |source|
    ensures IsIndent(r)
  {
    var before := source[LineStart(source, start)..start];
    if IsIndent(before) then before else ""
  }

  function StripReturn(raw: string): string {
    if raw != "" && raw[|raw| - 1] == '\r' then raw[..|raw| - 1] else raw
  }

  function StripIndent(line: string, indent: string): string {
    if indent <= line then line[|indent|..] else line
  }

  predicate Ordered(text: string, separators: seq<nat>) {
    && (forall i, j :: 0 <= i < j < |separators| ==> separators[i] < separators[j])
    && (forall i :: 0 <= i < |separators| ==> separators[i] < |text| && text[separators[i]] == '\n')
  }

  function RawStart(separators: seq<nat>, i: nat): nat
    requires i <= |separators|
  {
    if i == 0 then 0 else separators[i - 1] + 1
  }

  function RawEnd(text: string, separators: seq<nat>, i: nat): nat
    requires i <= |separators|
  {
    if i == |separators| then |text| else separators[i]
  }

  function LineAt(text: string, indent: string, separators: seq<nat>, i: nat): string
    requires Ordered(text, separators) && i <= |separators|
  {
    var line := StripReturn(text[RawStart(separators, i)..RawEnd(text, separators, i)]);
    if i == 0 then line else StripIndent(line, indent)
  }

  function LinesOf(text: string, indent: string, separators: seq<nat>): (r: seq<string>)
    requires Ordered(text, separators)
    ensures |r| == |separators| + 1
  {
    seq(|separators| + 1, i requires 0 <= i <= |separators| => LineAt(text, indent, separators, i))
  }

  method ReindentedLines(input: Lexing.Input, start: nat, end: nat) returns (lines: seq<string>)
    requires start <= end <= |input.source|
    ensures var part := input.(source := input.source[start..end]);
            lines == LinesOf(part.source, BaseIndent(input.source, start), Breaks(part))
  {
    hide Breaks, IsIndent, LineStart, BaseIndent, StripReturn, StripIndent;
    var text := input.source[start..end];
    var indent := BaseIndent(input.source, start);
    var separators := FindBreaks(input.(source := text));
    lines := [];
    var cursor := 0;
    for i := 0 to |separators| + 1
      invariant |lines| == i && (i <= |separators| ==> cursor == RawStart(separators, i))
      invariant forall k :: 0 <= k < i ==> lines[k] == LineAt(text, indent, separators, k)
    {
      var offset := if i < |separators| then separators[i] else |text|;
      var line := StripReturn(text[cursor..offset]);
      lines := lines + [if lines == [] then line else StripIndent(line, indent)];
      cursor := offset + 1;
    }
  }

  /** How many separators come before `at`: the line that `at` is on. */
  function LineOf(separators: seq<nat>, at: int): (i: nat)
    ensures i <= |separators|
    ensures forall k :: 0 <= k < i ==> separators[k] < at
    ensures i < |separators| ==> separators[i] >= at
  {
    if separators == [] || separators[0] >= at then 0
    else
      var rest := LineOf(separators[1..], at);
      assert forall k :: 1 <= k < 1 + rest ==> separators[k] == separators[1..][k - 1];
      1 + rest
  }

  /** Where `part` stands in `whole`. */
  predicate StandsAt(part: string, whole: string, from: int) {
    0 <= from && from + |part| <= |whole| && whole[from..from + |part|] == part
  }

  ghost predicate Contains(whole: string, part: string) { exists from :: StandsAt(part, whole, from) }

  /** A stretch that no separator divides comes out as written, inside one line: re-anchoring takes
      nothing from it. */
  lemma UndividedTextKept(text: string, indent: string, separators: seq<nat>, a: nat, b: nat)
    requires Ordered(text, separators) && IsIndent(indent) && a < b <= |text|
    requires forall i :: 0 <= i < |separators| ==> !(a <= separators[i] < b)
    requires text[a] != ' ' && text[a] != '\t' && text[b - 1] != '\r'
    ensures Contains(LineAt(text, indent, separators, LineOf(separators, a)), text[a..b])
  {
    hide StandsAt, StripReturn, StripIndent, IsIndent;
    var i := LineOf(separators, a);
    var from := StandsInLine(text, indent, separators, i, a, b);
    assert StandsAt(text[a..b], LineAt(text, indent, separators, i), from);
  }

  /** The lexer has found a token or a comment of some length there. */
  predicate Found(lexemes: seq<Lexing.Lexeme>, comments: seq<Lexing.Comment>, span: Span) {
    && span.start < span.end
    && ((exists i :: 0 <= i < |lexemes| && lexemes[i].Piece? && lexemes[i].start == span.start
           && lexemes[i].end == span.end)
        || (exists i :: 0 <= i < |comments| && comments[i].start == span.start && comments[i].end == span.end))
  }

  lemma {:induction false} TokenSpansAre(lexemes: seq<Lexing.Lexeme>, span: Span)
    ensures span in TokenSpans(lexemes) <==> Found(lexemes, [], span)
    decreases |lexemes|
  {
    if lexemes != [] {
      var rest := lexemes[1..];
      TokenSpansAre(rest, span);
      assert forall i :: 0 <= i < |rest| ==> rest[i] == lexemes[i + 1];
      if Found(lexemes, [], span) {
        var i :| 0 <= i < |lexemes| && lexemes[i].Piece? && lexemes[i].start == span.start
          && lexemes[i].end == span.end;
        assert i > 0 ==> rest[i - 1] == lexemes[i];
      }
    }
  }

  lemma {:induction false} CommentSpansAre(comments: seq<Lexing.Comment>, span: Span)
    ensures span in CommentSpans(comments) <==> Found([], comments, span)
    decreases |comments|
  {
    if comments != [] {
      var rest := comments[1..];
      CommentSpansAre(rest, span);
      assert forall i :: 0 <= i < |rest| ==> rest[i] == comments[i + 1];
      if Found([], comments, span) {
        var i :| 0 <= i < |comments| && comments[i].start == span.start && comments[i].end == span.end;
        assert i > 0 ==> rest[i - 1] == comments[i];
      }
    }
  }

  lemma SpansAreFound(lexemes: seq<Lexing.Lexeme>, comments: seq<Lexing.Comment>, span: Span)
    ensures span in TokenSpans(lexemes) + CommentSpans(comments) <==> Found(lexemes, comments, span)
  {
    hide TokenSpans, CommentSpans;
    TokenSpansAre(lexemes, span);
    CommentSpansAre(comments, span);
  }

  /** A text is split at exactly the newlines that no token and no comment holds. */
  lemma BreaksAre(input: Lexing.Input, at: nat)
    ensures var (last, lexemes) := Lexing.All(input, Lexing.Start(input));
            last.errors == []
            ==> (at in Breaks(input)
                 <==> at < |input.source| && input.source[at] == '\n'
                      && forall span :: Found(lexemes, last.comments, span) ==> !(span.start <= at < span.end))
  {
    hide Lexing.All, TokenSpans, CommentSpans, Found;
    var (last, lexemes) := Lexing.All(input, Lexing.Start(input));
    var spans := TokenSpans(lexemes) + CommentSpans(last.comments);
    forall span
      ensures span in spans <==> Found(lexemes, last.comments, span)
    {
      SpansAreFound(lexemes, last.comments, span);
    }
    if Inside(spans, at) {
      var k :| 0 <= k < |spans| && spans[k].start <= at < spans[k].end;
      assert spans[k] in spans;
    }
    if span :| span in spans && span.start <= at < span.end {
      var k :| 0 <= k < |spans| && spans[k] == span;
      assert Inside(spans, at);
    }
  }

  /** Every token and comment that the lexer finds comes out as written, inside one line: the newlines of
      a long string or a long comment split nothing. */
  lemma TokenTextKept(input: Lexing.Input, indent: string, span: Span)
    requires IsIndent(indent) && span.start < span.end <= |input.source|
    requires var (last, lexemes) := Lexing.All(input, Lexing.Start(input));
             Found(lexemes, last.comments, span)
    requires var text := input.source;
             text[span.start] != ' ' && text[span.start] != '\t' && text[span.end - 1] != '\r'
    ensures Contains(LineAt(input.source, indent, Breaks(input), LineOf(Breaks(input), span.start)),
                     input.source[span.start..span.end])
  {
    hide Lexing.All, Contains, IsIndent, LineAt;
    var text, separators := input.source, Breaks(input);
    var (last, lexemes) := Lexing.All(input, Lexing.Start(input));
    var spans := TokenSpans(lexemes) + CommentSpans(last.comments);
    SpansAreFound(lexemes, last.comments, span);
    var k :| 0 <= k < |spans| && spans[k] == span;
    if last.errors == [] {
      forall i | 0 <= i < |separators|
        ensures !(span.start <= separators[i] < span.end)
      {
        assert Between(text, spans, separators[i]) && !Inside(spans, separators[i]);
      }
    }
    UndividedTextKept(text, indent, separators, span.start, span.end);
  }

  /** `text[a..b]` lies on the line `i`. */
  lemma StandsInLine(text: string, indent: string, separators: seq<nat>, i: nat, a: nat, b: nat)
    returns (from: nat)
    requires Ordered(text, separators) && IsIndent(indent) && i <= |separators|
    requires RawStart(separators, i) <= a < b <= RawEnd(text, separators, i) <= |text|
    requires text[a] != ' ' && text[a] != '\t' && text[b - 1] != '\r'
    ensures StandsAt(text[a..b], LineAt(text, indent, separators, i), from)
  {
    hide Ordered, StandsAt, StripReturn, StripIndent, IsIndent;
    var (lo, hi) := (RawStart(separators, i), RawEnd(text, separators, i));
    var raw := text[lo..hi];
    SliceOfSlice(text, lo, hi, a, b);
    StandsInStripped(raw, a - lo, b - lo);
    var line := StripReturn(raw);
    assert line[a - lo..b - lo] == text[a..b];
    if i > 0 {
      assert line[a - lo] == raw[a - lo..b - lo][0];
      from := StandsPastIndent(line, indent, a - lo, b - lo);
    } else {
      StandsWithin(line, a - lo, b - lo);
      from := a - lo;
    }
  }

  lemma SliceOfSlice(text: string, lo: nat, hi: nat, a: nat, b: nat)
    requires lo <= a < b <= hi <= |text|
    ensures text[lo..hi][a - lo..b - lo] == text[a..b] && text[lo..hi][b - lo - 1] == text[b - 1]
  {
    var (one, two) := (text[lo..hi][a - lo..b - lo], text[a..b]);
    assert |one| == |two|;
    forall k | 0 <= k < |two|
      ensures one[k] == two[k]
    {
      assert text[lo..hi][a - lo + k] == text[a + k];
    }
  }

  lemma StandsWithin(line: string, a: nat, b: nat)
    requires a < b <= |line|
    ensures StandsAt(line[a..b], line, a)
  {
    assert a + |line[a..b]| == b;
  }

  lemma StandsPastIndent(line: string, indent: string, a: nat, b: nat) returns (from: nat)
    requires IsIndent(indent) && a < b <= |line| && line[a] != ' ' && line[a] != '\t'
    ensures StandsAt(line[a..b], StripIndent(line, indent), from)
  {
    if indent <= line {
      assert |indent| <= a;
      assert line[|indent|..][a - |indent|..b - |indent|] == line[a..b];
      from := a - |indent|;
    } else {
      from := a;
    }
  }

  lemma StandsInStripped(raw: string, a: nat, b: nat)
    requires a < b <= |raw| && raw[b - 1] != '\r'
    ensures b <= |StripReturn(raw)| && StripReturn(raw)[a..b] == raw[a..b]
  {
    var n := |raw| - 1;
    if raw[n] == '\r' {
      assert b <= n;
      assert raw[..n][a..b] == raw[a..b];
    }
  }

  // ----- only white space moves -----

  predicate IsSpace(c: char) { c == ' ' || c == '\t' || c == '\r' || c == '\n' }

  /** The text without its white space. */
  function Ink(s: string): string {
    if s == "" then "" else (if IsSpace(s[0]) then "" else [s[0]]) + Ink(s[1..])
  }

  lemma {:induction false} InkCat(a: string, b: string)
    ensures Ink(a + b) == Ink(a) + Ink(b)
  {
    if a == "" {
      assert a + b == b;
    } else {
      assert (a + b)[1..] == a[1..] + b;
      InkCat(a[1..], b);
    }
  }

  lemma {:induction false} SpaceHasNoInk(s: string)
    requires forall i :: 0 <= i < |s| ==> IsSpace(s[i])
    ensures Ink(s) == ""
  {
    if s != "" {
      SpaceHasNoInk(s[1..]);
    }
  }

  lemma StrippingKeepsInk(raw: string, indent: string)
    requires IsIndent(indent)
    ensures Ink(StripReturn(raw)) == Ink(raw) && Ink(StripIndent(StripReturn(raw), indent)) == Ink(raw)
  {
    var line := StripReturn(raw);
    if line != raw {
      assert raw == line + "\r";
      InkCat(line, "\r");
      SpaceHasNoInk("\r");
    }
    if indent <= line {
      assert line == indent + line[|indent|..];
      InkCat(indent, line[|indent|..]);
      SpaceHasNoInk(indent);
    }
  }

  /** The first `n` lines, as the printer writes them. */
  function Joined(text: string, indent: string, separators: seq<nat>, n: nat): string
    requires Ordered(text, separators) && n <= |separators| + 1
  {
    if n == 0 then "" else Joined(text, indent, separators, n - 1) + "\n" + LineAt(text, indent, separators, n - 1)
  }

  /** Re-anchoring changes white space only. */
  lemma {:induction false} OnlyWhiteSpaceMoves(text: string, indent: string, separators: seq<nat>, n: nat)
    requires Ordered(text, separators) && IsIndent(indent) && n <= |separators| + 1
    ensures Ink(Joined(text, indent, separators, n))
            == Ink(text[..if n == 0 then 0 else RawEnd(text, separators, n - 1)])
    ensures n == |separators| + 1 ==> Ink(Joined(text, indent, separators, n)) == Ink(text)
  {
    hide Ordered, IsIndent, StripReturn, StripIndent, Ink;
    if n == 0 {
      assert text[..0] == "";
    } else {
      OnlyWhiteSpaceMoves(text, indent, separators, n - 1);
      var before := Joined(text, indent, separators, n - 1);
      var (lo, hi) := (RawStart(separators, n - 1), RawEnd(text, separators, n - 1));
      RawBounds(text, separators, n - 1);
      StrippingKeepsInk(text[lo..hi], indent);
      InkCat(before + "\n", LineAt(text, indent, separators, n - 1));
      InkCat(before, "\n");
      SpaceHasNoInk("\n");
      InkCat(text[..lo], text[lo..hi]);
      assert text[..hi] == text[..lo] + text[lo..hi];
      if n > 1 {
        assert text[..lo] == text[..lo - 1] + "\n";
        InkCat(text[..lo - 1], "\n");
      } else {
        assert text[..lo] == "";
      }
      assert text[..|text|] == text;
    }
  }

  lemma RawBounds(text: string, separators: seq<nat>, i: nat)
    requires Ordered(text, separators) && i <= |separators|
    ensures RawStart(separators, i) <= RawEnd(text, separators, i) <= |text|
    ensures i > 0 ==> RawStart(separators, i) - 1 == RawEnd(text, separators, i - 1) < |text|
    ensures i > 0 ==> text[RawStart(separators, i) - 1] == '\n'
  {
  }

  // ----- how much is taken off -----

  /** A line starts at `k` and nothing but blanks stands between it and `start`. */
  predicate BlankFrom(source: string, k: int, start: nat) {
    && 0 <= k <= start <= |source| && (k == 0 || source[k - 1] == '\n')
    && forall i :: k <= i < start ==> source[i] == ' ' || source[i] == '\t'
  }

  /** The base indent is what stands in front of the statement on its line, where that is blank. */
  lemma BaseIndentIs(source: string, start: nat)
    requires start <= |source|
    ensures forall k :: BlankFrom(source, k, start) ==> BaseIndent(source, start) == source[k..start]
    ensures (forall k :: !BlankFrom(source, k, start)) ==> BaseIndent(source, start) == ""
  {
    var at := LineStart(source, start);
    LineStartIs(source, start);
    var before := source[at..start];
    assert forall i :: at <= i < start ==> source[i] == before[i - at];
    if IsIndent(before) {
      assert BlankFrom(source, at, start);
    }
    forall k | BlankFrom(source, k, start)
      ensures BaseIndent(source, start) == source[k..start]
    {
      assert k == at;
    }
  }

  lemma {:induction false} LineStartIs(source: string, at: nat)
    requires at <= |source|
    ensures var r := LineStart(source, at);
            (r == 0 || source[r - 1] == '\n') && forall i :: r <= i < at ==> source[i] != '\n'
    decreases at
  {
    if at > 0 && source[at - 1] != '\n' {
      LineStartIs(source, at - 1);
    }
  }

  lemma ReturnIsCut(raw: string, indent: string)
    requires '\r' !in indent
    ensures raw == StripReturn(raw) + if raw != "" && raw[|raw| - 1] == '\r' then "\r" else ""
    ensures indent <= raw <==> indent <= StripReturn(raw)
  {
    if raw != "" && raw[|raw| - 1] == '\r' {
      assert '\r' in raw && indent != raw;
    }
  }

  /** The stretch of a line, put together again from the indent that was taken off, what is printed and the
      carriage return that was dropped: a later line loses the base indent exactly where it starts with it. */
  lemma LineIsCut(text: string, indent: string, separators: seq<nat>, i: nat)
    requires Ordered(text, separators) && i <= |separators| && '\r' !in indent
    ensures RawStart(separators, i) <= RawEnd(text, separators, i) <= |text|
    ensures var raw := text[RawStart(separators, i)..RawEnd(text, separators, i)];
            raw == (if i > 0 && indent <= raw then indent else "")
                   + LinesOf(text, indent, separators)[i]
                   + (if raw != "" && raw[|raw| - 1] == '\r' then "\r" else "")
  {
    hide Ordered, RawStart, RawEnd;
    RawBounds(text, separators, i);
    var raw := text[RawStart(separators, i)..RawEnd(text, separators, i)];
    ReturnIsCut(raw, indent);
    if i > 0 && indent <= StripReturn(raw) {
      assert StripReturn(raw) == indent + StripReturn(raw)[|indent|..];
    }
  }
}
