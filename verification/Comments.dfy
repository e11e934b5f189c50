/** The comment ledger of the formatter (`comments.rs`): a cursor over the comments of the source, kept
    in step with the element stream. */
module Comments {
  import opened Document
  import opened Reanchoring
  import Lexing
  import Literals

  datatype Position = Leading | Trailing

  datatype Kind = Shebang | LineComment | SingleLineBlock | MultiLineBlock

  datatype Entry = Entry(text: string, attachedTo: nat, start: nat, end: nat, position: Position, kind: Kind)

  /** The text of a comment tells its kind. */
  function KindOf(text: string): Kind
    requires text != ""
  {
    if text[0] == '#' then Shebang
    else if Lexing.RunsToLineEnd(text) then LineComment
    else if HasBreak(text) then MultiLineBlock
    else SingleLineBlock
  }

  /** Nothing can stand behind it on its line. */
  predicate EndsItsLine(k: Kind) { k == Shebang || k == LineComment }

  /** An entry is a stretch of the source that starts like a comment and does not end with a `\r`; one that
      goes to the end of its line ends there. */
  predicate IsComment(e: Entry, source: string) {
    && e.start < e.end <= |source| && e.text == source[e.start..e.end]
    && (source[e.start] == '-' || source[e.start] == '#') && source[e.end - 1] != '\r'
    && e.kind == KindOf(e.text)
    && (EndsItsLine(e.kind) ==>
          !HasBreak(e.text) && (e.end == |source| || source[e.end] == '\n' || source[e.end] == '\r'))
  }

  /** The comments in source order, none overlapping the next. */
  predicate WellOrdered(entries: seq<Entry>, source: string) {
    && (forall i :: 0 <= i < |entries| ==> entries[i].start <= entries[i].end <= |source|)
    && (forall i :: 0 <= i < |entries| ==> IsComment(entries[i], source))
    && (forall i, j :: 0 <= i < j < |entries| ==> entries[i].end <= entries[j].start)
  }

  /** The entry of a comment as the lexer has recorded it. */
  function EntryOf(source: string, c: Lexing.Comment): Entry {
    var text := if c.start <= c.end <= |source| then source[c.start..c.end] else "";
    Entry(text, c.attachedTo, c.start, c.end, if c.leading then Leading else Trailing,
          if text == "" then LineComment else KindOf(text))
  }

  /** `from_source`: the comments of a file. */
  function EntriesOf(file: Lexing.Input): seq<Entry> {
    var comments := Lexing.All(file, Lexing.Start(file)).0.comments;
    seq(|comments|, i requires 0 <= i < |comments| => EntryOf(file.source, comments[i]))
  }

  /** The first token behind a leading comment, the last one before a trailing comment. */
  predicate Belongs(e: Entry, tokens: seq<Lexing.Lexeme>) {
    exists i :: 0 <= i < |tokens| && Neighbours(e, tokens, i)
  }

  predicate Neighbours(e: Entry, tokens: seq<Lexing.Lexeme>, i: int)
    requires 0 <= i < |tokens|
  {
    && e.attachedTo == tokens[i].start
    && (if e.position == Leading then e.end <= tokens[i].start && (i > 0 ==> tokens[i - 1].start < e.start)
        else tokens[i].start < e.start && (i + 1 < |tokens| ==> e.end <= tokens[i + 1].start))
  }

  lemma EntryBelongs(source: string, c: Lexing.Comment, tokens: seq<Lexing.Lexeme>)
    requires Lexing.WellAttached(c, tokens)
    ensures Belongs(EntryOf(source, c), tokens)
  {
    var i :| 0 <= i < |tokens| && Lexing.AttachedAt(c, tokens, i);
    assert Neighbours(EntryOf(source, c), tokens, i);
  }

  lemma EntryIsComment(source: string, c: Lexing.Comment)
    requires Lexing.CommentAt(source, c.start, c.end)
    ensures var e := EntryOf(source, c);
            IsComment(e, source) && e.start == c.start <= e.end == c.end <= |source|
  {
  }

  /** The entries of every file are in order and lie apart, and each is attached to a token of the file. */
  lemma EntriesAreOrdered(file: Lexing.Input)
    ensures WellOrdered(EntriesOf(file), file.source)
    ensures forall i :: 0 <= i < |EntriesOf(file)| ==>
              Belongs(EntriesOf(file)[i], Lexing.All(file, Lexing.Start(file)).1)
  {
    hide Lexing.All, Lexing.Start, Lexing.WellAttached, Lexing.CommentAt, Lexing.Drained, EntryOf, IsComment,
         Belongs;
    Lexing.CommentsLookIt(file);
    Lexing.CommentsAreAttached(file);
    var comments, entries := Lexing.All(file, Lexing.Start(file)).0.comments, EntriesOf(file);
    forall i | 0 <= i < |entries|
      ensures IsComment(entries[i], file.source)
      ensures entries[i].start == comments[i].start <= entries[i].end == comments[i].end <= |file.source|
    {
      EntryIsComment(file.source, comments[i]);
    }
    forall i, j | 0 <= i < j < |entries|
      ensures entries[i].end <= entries[j].start
    {
      assert comments[i].end <= comments[j].start;
    }
    forall i | 0 <= i < |entries|
      ensures Belongs(entries[i], Lexing.All(file, Lexing.Start(file)).1)
    {
      EntryBelongs(file.source, comments[i], Lexing.All(file, Lexing.Start(file)).1);
    }
  }

  /** A stretch of source without a token: a comment may cross it. */
  predicate CodeFree(s: string) { forall k :: 0 <= k < |s| ==> Literals.IsAsciiWhitespace(s[k]) || s[k] == ';' }

  predicate HasBreak(s: string) { '\n' in s || '\r' in s }

  // ----- how many comments an operation takes, from the cursor on -----

  /** Comments that lead the token at `anchor`. */
  function LeadingRun(entries: seq<Entry>, p: nat, anchor: nat): (n: nat)
    requires p <= |entries|
    ensures p + n <= |entries|
    decreases |entries| - p
  {
    if p < |entries| && entries[p].attachedTo == anchor && entries[p].position.Leading?
    then 1 + LeadingRun(entries, p + 1, anchor) else 0
  }

  /** Comments that start in `start..limit`; one before `start` stops the run. */
  function InsideRun(entries: seq<Entry>, p: nat, start: nat, limit: nat): (n: nat)
    requires p <= |entries|
    ensures p + n <= |entries|
    decreases |entries| - p
  {
    if p < |entries| && start <= entries[p].start < limit then 1 + InsideRun(entries, p + 1, start, limit) else 0
  }

  /** Comments on the line the statement ends on. */
  function TrailingRun(entries: seq<Entry>, source: string, p: nat, end: nat): (n: nat)
    requires p <= |entries| && WellOrdered(entries, source) && end <= |source|
    ensures p + n <= |entries|
    decreases |entries| - p
  {
    if p < |entries| && entries[p].position.Trailing? && end <= entries[p].start
       && !HasBreak(source[end..entries[p].start]) && CodeFree(source[end..entries[p].start])
    then 1 + TrailingRun(entries, source, p + 1, end) else 0
  }

  /** Single-line block comments directly behind `from`. */
  function InlineRun(entries: seq<Entry>, source: string, p: nat, from: nat): (n: nat)
    requires p <= |entries| && WellOrdered(entries, source) && from <= |source|
    ensures p + n <= |entries|
    decreases |entries| - p
  {
    if p < |entries| && from <= entries[p].start && entries[p].kind.SingleLineBlock?
       && CodeFree(source[from..entries[p].start])
    then 1 + InlineRun(entries, source, p + 1, entries[p].end) else 0
  }

  /** Comments on the same line as `from`, before `limit`. */
  function SameLineRun(entries: seq<Entry>, source: string, p: nat, from: nat, limit: nat): (n: nat)
    requires p <= |entries| && WellOrdered(entries, source) && from <= |source|
    ensures p + n <= |entries|
    decreases |entries| - p
  {
    if p < |entries| && from <= entries[p].start < limit && !HasBreak(source[from..entries[p].start])
    then 1 + SameLineRun(entries, source, p + 1, entries[p].end, limit) else 0
  }

  /** Comments before `anchor` that do not lead it. */
  function StalledCandidates(entries: seq<Entry>, p: nat, anchor: nat): (n: nat)
    requires p <= |entries|
    ensures p + n <= |entries|
    decreases |entries| - p
  {
    if p < |entries| && entries[p].start < anchor && !(entries[p].attachedTo == anchor && entries[p].position.Leading?)
    then 1 + StalledCandidates(entries, p + 1, anchor) else 0
  }

  /** The next `n` comments and then `last` are apart by nothing but whitespace and `;`. */
  predicate Movable(entries: seq<Entry>, source: string, p: nat, n: nat, last: nat)
    requires p + n <= |entries| && WellOrdered(entries, source) && last <= |source|
    decreases n
  {
    n > 0 ==>
      var next := if n == 1 then last else entries[p + 1].start;
      && entries[p].end <= next && CodeFree(source[entries[p].end..next])
      && Movable(entries, source, p + 1, n - 1, last)
  }

  /** All the candidates where they can move up to the statement, else none. */
  function StalledRun(entries: seq<Entry>, source: string, p: nat, anchor: nat): (n: nat)
    requires p <= |entries| && WellOrdered(entries, source) && anchor <= |source|
    ensures p + n <= |entries|
  {
    var n := StalledCandidates(entries, p, anchor);
    var follower := if p + n < |entries| && entries[p + n].start < anchor then entries[p + n].start else anchor;
    if Movable(entries, source, p, n, follower) then n else 0
  }

  function BeforeRun(entries: seq<Entry>, p: nat, end: nat): (n: nat)
    requires p <= |entries|
    ensures p + n <= |entries|
    decreases |entries| - p
  {
    if p < |entries| && entries[p].start < end then 1 + BeforeRun(entries, p + 1, end) else 0
  }

  /** `dangling_run`: all the comments before `end` where they can move down to it, else none. */
  function DanglingRun(entries: seq<Entry>, source: string, p: nat, end: nat): (n: nat)
    requires p <= |entries| && WellOrdered(entries, source) && end <= |source|
    ensures p + n <= |entries|
  {
    var n := BeforeRun(entries, p, end);
    if Movable(entries, source, p, n, end) then n else 0
  }

  // ----- the ledger -----

  /** Where a comment went: an element of the stream of its own, or one that holds source text. A comment
      in source text is `whole` where the text was split nowhere inside it. */
  datatype Place = InElement(at: nat) | InSlice(at: nat, whole: bool)

  datatype Ledger = Ledger(printed: nat, elements: seq<Element>, places: seq<Place>)

  const EMPTY := Ledger(0, [], [])

  datatype Shape = OnLineBefore | OnLineAfter | Inline | Suffix | Bare

  function Shaped(shape: Shape, text: string): seq<Element> {
    match shape
    case OnLineBefore => [Plain(Text(text)), Plain(Line(Hard))]
    case OnLineAfter => [Plain(Line(Hard)), Plain(Text(text))]
    case Inline => [Plain(Space), Plain(Text(text))]
    case Suffix => [Mark(StartLineSuffix), Plain(Space), Plain(Text(text)), Mark(EndLineSuffix)]
    case Bare => [Plain(Text(text))]
  }

  /** The index of the text in a shape. */
  function TextAt(shape: Shape): nat {
    match shape
    case OnLineBefore => 0
    case OnLineAfter => 1
    case Inline => 1
    case Suffix => 2
    case Bare => 0
  }

  function Pushed(l: Ledger, es: seq<Element>): Ledger { l.(elements := l.elements + es) }

  /** The next comment is written in `shape`. */
  function Written(entries: seq<Entry>, l: Ledger, shape: Shape): Ledger
    requires l.printed < |entries|
  {
    Ledger(l.printed + 1,
           l.elements + Shaped(shape, entries[l.printed].text),
           l.places + [InElement(|l.elements| + TextAt(shape))])
  }

  function WrittenRun(entries: seq<Entry>, l: Ledger, n: nat, shape: Shape): Ledger
    requires l.printed + n <= |entries|
    decreases n
  {
    if n == 0 then l else WrittenRun(entries, Written(entries, l, shape), n - 1, shape)
  }

  /** Texts on lines of their own, a line break between them and, where `before`, in front. */
  function WrittenLines(entries: seq<Entry>, l: Ledger, n: nat, before: bool): Ledger
    requires l.printed + n <= |entries|
  {
    if n == 0 then l
    else if before then WrittenRun(entries, l, n, OnLineAfter)
    else WrittenRun(entries, Written(entries, l, Bare), n - 1, OnLineAfter)
  }

  /** Source text from `start` to `end` that has been printed: its lines from the element `base` on, and
      the newlines they were split at. */
  datatype Slice = Slice(start: nat, end: nat, base: nat, separators: seq<nat>, lines: seq<string>)

  /** The lines of a statement as text, hard breaks between them; empty lines have no text. */
  function Lines(lines: seq<string>): seq<Element> {
    if lines == [] then []
    else
      Lines(lines[..|lines| - 1])
      + (if |lines| > 1 then [Plain(Line(Hard))] else [])
      + (if lines[|lines| - 1] == "" then [] else [Plain(Text(lines[|lines| - 1]))])
  }

  /** Where among the elements of `lines` the text of the line `k` is. */
  function LineIndex(lines: seq<string>, k: nat): nat {
    if k < |lines| then |Lines(lines[..k])| + (if k > 0 then 1 else 0) else 0
  }

  /** The element that the character at `at` of the source is in. */
  function Home(slice: Slice, at: nat): nat {
    slice.base + LineIndex(slice.lines, LineOf(slice.separators, at - slice.start))
  }

  predicate InOneLine(slice: Slice, e: Entry) {
    && e.end <= slice.end
    && (forall i :: 0 <= i < |slice.separators| ==> !(e.start <= slice.start + slice.separators[i] < e.end))
  }

  function PlaceIn(slice: Slice, e: Entry): Place { InSlice(Home(slice, e.start), InOneLine(slice, e)) }

  /** The next `n` comments are part of source text that has been printed. */
  function Marked(entries: seq<Entry>, l: Ledger, n: nat, slice: Slice): Ledger
    requires l.printed + n <= |entries|
  {
    l.(printed := l.printed + n,
       places := l.places + seq(n, k requires 0 <= k < n => PlaceIn(slice, entries[l.printed + k])))
  }

  /** The element at a place holds the comment: on its own, or inside source text that was not split in
      it. */
  ghost predicate Holds(e: Entry, place: Place, elements: seq<Element>) {
    && place.at < |elements| && elements[place.at].Plain? && elements[place.at].atom.Text?
    && (place.InElement? ==> elements[place.at].atom.content == e.text)
    && (place.InSlice? && place.whole ==> Contains(elements[place.at].atom.content, e.text))
  }

  /** Two comments in one element are both part of the same source text. */
  predicate Follows(a: Place, b: Place) { a.at < b.at || (a.InSlice? && b.InSlice? && a.at == b.at) }

  /** Every comment before the cursor has one place that holds it, and the places are in order. */
  ghost predicate Consistent(entries: seq<Entry>, l: Ledger) {
    && l.printed <= |entries| && |l.places| == l.printed
    && (forall i :: 0 <= i < l.printed ==> Holds(entries[i], l.places[i], l.elements))
    && (forall i, j :: 0 <= i < j < l.printed ==> Follows(l.places[i], l.places[j]))
  }

  /** No comment inside source text has been split. */
  predicate Intact(l: Ledger) { forall i :: 0 <= i < |l.places| && l.places[i].InSlice? ==> l.places[i].whole }

  predicate Extends(a: Ledger, b: Ledger) {
    && a.printed <= b.printed && a.elements <= b.elements && a.places <= b.places
  }

  lemma {:induction false} RunExtends(entries: seq<Entry>, l: Ledger, n: nat, shape: Shape)
    requires l.printed + n <= |entries|
    ensures Extends(l, WrittenRun(entries, l, n, shape))
    ensures WrittenRun(entries, l, n, shape).printed == l.printed + n
    decreases n
  {
    if n > 0 {
      RunExtends(entries, Written(entries, l, shape), n - 1, shape);
    }
  }

  /** `WrittenRun` with what it keeps. */
  function Run(entries: seq<Entry>, l: Ledger, n: nat, shape: Shape): (r: Ledger)
    requires l.printed + n <= |entries|
    ensures r == WrittenRun(entries, l, n, shape) && Extends(l, r) && r.printed == l.printed + n
  {
    RunExtends(entries, l, n, shape);
    WrittenRun(entries, l, n, shape)
  }

  function LinesRun(entries: seq<Entry>, l: Ledger, n: nat, before: bool): (r: Ledger)
    requires l.printed + n <= |entries|
    ensures r == WrittenLines(entries, l, n, before) && Extends(l, r) && r.printed == l.printed + n
  {
    if n == 0 then l
    else if before then Run(entries, l, n, OnLineAfter)
    else Run(entries, Written(entries, l, Bare), n - 1, OnLineAfter)
  }

  // ----- the operations -----

  datatype Op =
    | Push(element: Element)
    | EmitShebang
    | EmitLeading(anchor: nat)
    | EmitStalled(anchor: nat)
    | EmitTrailing(anchor: nat, end: nat)
    | EmitOwnLine(start: nat, limit: nat)
    | EmitInline(position: nat)
    | EmitSameLine(position: nat, limit: nat)
    | EmitDangling(end: nat)
    | EmitRemaining(before: bool)
    | Attempt(body: Ops)
    | VerbatimOr(start: nat, end: nat, optedOut: bool, body: Ops)

  datatype Ops = NoOps | MoreOps(head: Op, tail: Ops)

  /** The offsets lie in the source. */
  predicate InSource(op: Op, n: nat)
    decreases op
  {
    match op
    case EmitStalled(anchor) => anchor <= n
    case EmitTrailing(anchor, end) => anchor <= end <= n
    case EmitInline(position) => position <= n
    case EmitSameLine(position, _) => position <= n
    case EmitDangling(end) => end <= n
    case Attempt(body) => AllInSource(body, n)
    case VerbatimOr(start, end, _, body) => start <= end <= n && AllInSource(body, n)
    case _ => true
  }

  predicate AllInSource(ops: Ops, n: nat)
    decreases ops
  {
    ops.MoreOps? ==> InSource(ops.head, n) && AllInSource(ops.tail, n)
  }

  function Trail(entries: seq<Entry>, source: string, l: Ledger, anchor: nat, end: nat): Ledger
    requires WellOrdered(entries, source) && l.printed <= |entries| && end <= |source|
  {
    var inner := InsideRun(entries, l.printed, anchor, end);
    var after := Run(entries, l, inner, OnLineAfter);
    Run(entries, after, TrailingRun(entries, source, after.printed, end), if inner > 0 then OnLineAfter else Suffix)
  }

  /** Some comment not yet printed starts in `start..end`. */
  predicate Unhandled(entries: seq<Entry>, l: Ledger, start: nat, end: nat) {
    exists i :: l.printed <= i < |entries| && start <= entries[i].start < end
  }

  function MarkedInside(entries: seq<Entry>, l: Ledger, start: nat, end: nat, slice: Slice): Ledger
    requires l.printed <= |entries|
  {
    Marked(entries, l, InsideRun(entries, l.printed, start, end), slice)
  }

  /** The text of a statement, to be read by itself. */
  function Part(file: Lexing.Input, start: nat, end: nat): Lexing.Input
    requires start <= end <= |file.source|
  {
    file.(source := file.source[start..end])
  }

  /** The statement re-anchored, to be pushed behind `base` elements. */
  function Reanchored(file: Lexing.Input, start: nat, end: nat, base: nat): Slice
    requires start <= end <= |file.source|
  {
    var part := Part(file, start, end);
    Slice(start, end, base, Breaks(part), LinesOf(part.source, BaseIndent(file.source, start), Breaks(part)))
  }

  /** The statement as it stands, one text. */
  function AsItStands(file: Lexing.Input, start: nat, end: nat, base: nat): Slice
    requires start <= end <= |file.source|
  {
    Slice(start, end, base, [], [file.source[start..end]])
  }

  /** Back to the lengths of a checkpoint. */
  function Restored(l: Ledger, checkpoint: Ledger): (r: Ledger)
    requires Extends(checkpoint, l)
    ensures r.printed == checkpoint.printed && Extends(checkpoint, r)
  {
    Ledger(checkpoint.printed, l.elements[..|checkpoint.elements|], l.places[..|checkpoint.places|])
  }

  lemma ExtendsOn(a: Ledger, b: Ledger, c: Ledger)
    requires Extends(a, b) && Extends(b, c)
    ensures Extends(a, c)
  {
  }

  /** The statement pushed as source text, and the comments in it marked as far as the cursor gets. */
  function PutAsItStands(entries: seq<Entry>, file: Lexing.Input, l: Ledger, start: nat, end: nat): (r: Ledger)
    requires l.printed <= |entries| && start <= end <= |file.source|
    ensures Extends(l, r) && r.printed <= |entries|
  {
    var text := Plain(Text(file.source[start..end]));
    MarkedInside(entries, Pushed(l, [text]), start, end, AsItStands(file, start, end, |l.elements|))
  }

  function PutReanchored(entries: seq<Entry>, file: Lexing.Input, l: Ledger, start: nat, end: nat): (r: Ledger)
    requires l.printed <= |entries| && start <= end <= |file.source|
    ensures Extends(l, r) && r.printed <= |entries|
  {
    var slice := Reanchored(file, start, end, |l.elements|);
    MarkedInside(entries, Pushed(l, Lines(slice.lines)), start, end, slice)
  }

  /** The operations that emit comments. */
  predicate Emission(op: Op) { !op.Push? && !op.Attempt? && !op.VerbatimOr? }

  function Emitted(entries: seq<Entry>, source: string, l: Ledger, op: Op): (r: Ledger)
    requires WellOrdered(entries, source) && l.printed <= |entries| && InSource(op, |source|) && Emission(op)
    ensures r.printed <= |entries| && Extends(l, r)
  {
    var p := l.printed;
    match op
    case EmitShebang =>
      if p < |entries| && entries[p].kind.Shebang? then Run(entries, l, 1, OnLineBefore) else l
    case EmitLeading(anchor) => Run(entries, l, LeadingRun(entries, p, anchor), OnLineBefore)
    case EmitStalled(anchor) => Run(entries, l, StalledRun(entries, source, p, anchor), OnLineBefore)
    case EmitTrailing(anchor, end) => Trail(entries, source, l, anchor, end)
    case EmitOwnLine(start, limit) => Run(entries, l, InsideRun(entries, p, start, limit), OnLineAfter)
    case EmitInline(position) => Run(entries, l, InlineRun(entries, source, p, position), Inline)
    case EmitSameLine(position, limit) => Run(entries, l, SameLineRun(entries, source, p, position, limit), Suffix)
    case EmitDangling(end) => LinesRun(entries, l, DanglingRun(entries, source, p, end), false)
    case EmitRemaining(before) => LinesRun(entries, l, |entries| - p, before)
    case _ => l
  }

  function Exec(entries: seq<Entry>, file: Lexing.Input, l: Ledger, op: Op): (r: Ledger)
    requires WellOrdered(entries, file.source) && l.printed <= |entries| && InSource(op, |file.source|)
    ensures r.printed <= |entries| && Extends(l, r)
    decreases op, 1
  {
    match op
    case Push(element) => Pushed(l, [element])
    case Attempt(body) => Restored(ExecAll(entries, file, l, body), l)
    case VerbatimOr(start, end, optedOut, body) =>
      if optedOut then PutAsItStands(entries, file, l, start, end)
      else
        var formatted := ExecAll(entries, file, l, body);
        if !Unhandled(entries, formatted, start, end) then formatted
        else
          var restored := Restored(formatted, l);
          var put := PutReanchored(entries, file, restored, start, end);
          ExtendsOn(l, restored, put);
          put
    case _ => Emitted(entries, file.source, l, op)
  }

  function ExecAll(entries: seq<Entry>, file: Lexing.Input, l: Ledger, ops: Ops): (r: Ledger)
    requires WellOrdered(entries, file.source) && l.printed <= |entries| && AllInSource(ops, |file.source|)
    ensures r.printed <= |entries| && Extends(l, r)
    decreases ops, 0
  {
    match ops
    case NoOps => l
    case MoreOps(head, tail) => ExecAll(entries, file, Exec(entries, file, l, head), tail)
  }

  // ----- what every run keeps -----

  /** Consistent and, where asked for, intact. */
  ghost predicate Kept(intact: bool, entries: seq<Entry>,
                       l: Ledger) { Consistent(entries, l) && (intact ==> Intact(l)) }

  lemma WrittenKeeps(intact: bool, entries: seq<Entry>, l: Ledger, shape: Shape)
    requires Kept(intact, entries, l) && l.printed < |entries|
    ensures Kept(intact, entries, Written(entries, l, shape))
  {
    hide Shaped, Contains;
    var text := entries[l.printed].text;
    ShapedHolds(shape, text);
    var r := Written(entries, l, shape);
    assert r.elements[|l.elements| + TextAt(shape)] == Plain(Text(text));
    assert Holds(entries[l.printed], r.places[l.printed], r.elements);
    PlacesKept(entries, l, r.elements);
  }

  lemma ShapedHolds(shape: Shape, text: string)
    ensures TextAt(shape) < |Shaped(shape, text)| && Shaped(shape, text)[TextAt(shape)] == Plain(Text(text))
    ensures Contains(text, text)
  {
    assert StandsAt(text, text, 0);
  }

  /** More elements behind take no place away. */
  lemma PlacesKept(entries: seq<Entry>, l: Ledger, elements: seq<Element>)
    requires Consistent(entries, l) && l.elements <= elements
    ensures forall i :: 0 <= i < l.printed ==> Holds(entries[i], l.places[i], elements) && l.places[i].at < |l.elements|
  {
    hide Contains;
    forall i | 0 <= i < l.printed
      ensures Holds(entries[i], l.places[i], elements) && l.places[i].at < |l.elements|
    {
      assert Holds(entries[i], l.places[i], l.elements);
      assert elements[l.places[i].at] == l.elements[l.places[i].at];
    }
  }

  lemma {:induction false} RunKeeps(intact: bool, entries: seq<Entry>, l: Ledger, n: nat, shape: Shape)
    requires Kept(intact, entries, l) && l.printed + n <= |entries|
    ensures Kept(intact, entries, WrittenRun(entries, l, n, shape))
    decreases n
  {
    hide Kept, Consistent, Intact;
    if n > 0 {
      WrittenKeeps(intact, entries, l, shape);
      RunKeeps(intact, entries, Written(entries, l, shape), n - 1, shape);
    }
  }

  lemma LinesKeep(intact: bool, entries: seq<Entry>, l: Ledger, n: nat, before: bool)
    requires Kept(intact, entries, l) && l.printed + n <= |entries|
    ensures Kept(intact, entries, WrittenLines(entries, l, n, before))
  {
    hide Kept, Consistent, Intact;
    if n > 0 && !before {
      WrittenKeeps(intact, entries, l, Bare);
      RunKeeps(intact, entries, Written(entries, l, Bare), n - 1, OnLineAfter);
    } else {
      RunKeeps(intact, entries, l, n, OnLineAfter);
    }
  }

  lemma PushKeeps(intact: bool, entries: seq<Entry>, l: Ledger, es: seq<Element>)
    requires Kept(intact, entries, l)
    ensures Kept(intact, entries, Pushed(l, es))
  {
    hide Holds;
    PlacesKept(entries, l, l.elements + es);
  }

  // ----- source text holds the comments in it -----

  lemma {:induction false} LineElement(lines: seq<string>, k: nat)
    requires k < |lines| && lines[k] != ""
    ensures LineIndex(lines, k) < |Lines(lines)| && Lines(lines)[LineIndex(lines, k)] == Plain(Text(lines[k]))
    decreases |lines|
  {
    var n := |lines| - 1;
    if k < n {
      LineElement(lines[..n], k);
      assert lines[..n][..k] == lines[..k];
    }
  }

  lemma {:induction false} LinesGrow(lines: seq<string>, i: nat, k: nat)
    requires i <= k < |lines|
    ensures LineIndex(lines, i) <= LineIndex(lines, k)
    decreases k - i
  {
    if i < k {
      LinesGrow(lines, i, k - 1);
      assert lines[..k][..k - 1] == lines[..k - 1];
    }
  }

  predicate Split(slice: Slice) { |slice.lines| == |slice.separators| + 1 }

  /** Further on in the source is no earlier in the stream. */
  lemma HomesRise(slice: Slice, a: nat, b: nat)
    requires a <= b && Split(slice)
    ensures slice.base <= Home(slice, a) <= Home(slice, b)
  {
    LinesGrow(slice.lines, LineOf(slice.separators, a - slice.start), LineOf(slice.separators, b - slice.start));
  }

  /** The lexer, given the statement alone, finds the comment again. */
  predicate FoundAgain(file: Lexing.Input, start: nat, end: nat, e: Entry)
    requires start <= end <= |file.source|
  {
    var (last, _) := Lexing.All(Part(file, start, end), Lexing.Start(Part(file, start, end)));
    last.errors == [] && start <= e.start <= e.end ==>
      Span(e.start - start, e.end - start) in CommentSpans(last.comments)
  }

  /** The statement ends in none of the comments that start in it, and the lexer, given the statement
      alone, finds those of several lines again. */
  predicate Whole(entries: seq<Entry>, file: Lexing.Input, start: nat, end: nat)
    requires start <= end <= |file.source|
  {
    forall i :: 0 <= i < |entries| && start <= entries[i].start < end ==>
      && entries[i].end <= end
      && ('\n' in entries[i].text ==> FoundAgain(file, start, end, entries[i]))
  }

  predicate AllWhole(entries: seq<Entry>, file: Lexing.Input, op: Op)
    requires InSource(op, |file.source|)
    decreases op
  {
    match op
    case Attempt(body) => EachWhole(entries, file, body)
    case VerbatimOr(start, end, _, body) => Whole(entries, file, start, end) && EachWhole(entries, file, body)
    case _ => true
  }

  predicate EachWhole(entries: seq<Entry>, file: Lexing.Input, ops: Ops)
    requires AllInSource(ops, |file.source|)
    decreases ops
  {
    ops.MoreOps? ==> AllWhole(entries, file, ops.head) && EachWhole(entries, file, ops.tail)
  }

  lemma BreakIsBetween(input: Lexing.Input, i: nat) returns (spans: seq<Span>)
    requires i < |Breaks(input)|
    ensures Between(input.source, spans, Breaks(input)[i])
    ensures var (last, lexemes) := Lexing.All(input, Lexing.Start(input));
            last.errors == [] && spans == TokenSpans(lexemes) + CommentSpans(last.comments)
  {
    hide Lexing.All, Inside;
    var (last, lexemes) := Lexing.All(input, Lexing.Start(input));
    spans := TokenSpans(lexemes) + CommentSpans(last.comments);
  }

  /** No newline that splits the statement stands inside the comment. */
  lemma NotDivided(file: Lexing.Input, start: nat, end: nat, e: Entry)
    requires start <= e.start < e.end <= end <= |file.source| && e.text == file.source[e.start..e.end]
    requires '\n' in e.text ==> FoundAgain(file, start, end, e)
    ensures forall i :: 0 <= i < |Breaks(Part(file, start, end))| ==>
              !(e.start - start <= Breaks(Part(file, start, end))[i] < e.end - start)
  {
    hide Breaks, Inside, TokenSpans, CommentSpans, FoundAgain, Lexing.All, Lexing.Start;
    var part := Part(file, start, end);
    var (a, b) := (e.start - start, e.end - start);
    forall i | 0 <= i < |Breaks(part)|
      ensures !(a <= Breaks(part)[i] < b)
    {
      var at := Breaks(part)[i];
      var spans := BreakIsBetween(part, i);
      if a <= at < b {
        SameCharacter(file.source, start, end, e, at);
        FoundIsSpan(file, start, end, e, spans);
        IsInside(spans, Span(a, b), at);
      }
    }
  }

  lemma SameCharacter(source: string, start: nat, end: nat, e: Entry, at: nat)
    requires start <= e.start < e.end <= end <= |source| && e.text == source[e.start..e.end]
    requires e.start - start <= at < e.end - start
    ensures source[start..end][at] in e.text
  {
    assert e.text[at - (e.start - start)] == source[start + at] == source[start..end][at];
  }

  lemma FoundIsSpan(file: Lexing.Input, start: nat, end: nat, e: Entry, spans: seq<Span>)
    requires start <= e.start <= e.end <= end <= |file.source| && FoundAgain(file, start, end, e)
    requires var (last, lexemes) := Lexing.All(Part(file, start, end), Lexing.Start(Part(file, start, end)));
             last.errors == [] && spans == TokenSpans(lexemes) + CommentSpans(last.comments)
    ensures Span(e.start - start, e.end - start) in spans
  {
    hide Lexing.All, Lexing.Start;
  }

  lemma IsInside(spans: seq<Span>, span: Span, at: int)
    requires span in spans && span.start <= at < span.end
    ensures Inside(spans, at)
  {
    var k :| 0 <= k < |spans| && spans[k] == span;
  }

  /** The re-anchored statement has the comment on one of its lines, if it is not split, else at least its
      first character. */
  lemma LinesHold(file: Lexing.Input, start: nat, end: nat, e: Entry, before: seq<Element>)
    requires start <= e.start < end <= |file.source| && IsComment(e, file.source)
    ensures var slice := Reanchored(file, start, end, |before|);
            Holds(e, PlaceIn(slice, e), before + Lines(slice.lines))
  {
    hide Contains, LineAt, Breaks, IsIndent, BaseIndent, LineOf, LineIndex, Lines, KindOf, EndsItsLine;
    var slice := Reanchored(file, start, end, |before|);
    var text, indent := file.source[start..end], BaseIndent(file.source, start);
    var a := e.start - start;
    var b := if InOneLine(slice, e) then e.end - start else a + 1;
    assert text[a] == file.source[e.start];
    forall i | 0 <= i < |slice.separators|
      ensures !(a <= slice.separators[i] < b)
    {
      assert text[slice.separators[i]] == '\n';
    }
    UndividedTextKept(text, indent, slice.separators, a, b);
    assert InOneLine(slice, e) ==> text[a..b] == e.text;
    var k := LineOf(slice.separators, a);
    assert slice.lines[k] == LineAt(text, indent, slice.separators, k);
    ContainerIsNotEmpty(slice.lines[k], text[a..b]);
    LineElement(slice.lines, k);
    var i := LineIndex(slice.lines, k);
    assert (before + Lines(slice.lines))[|before| + i] == Lines(slice.lines)[i];
  }

  lemma ContainerIsNotEmpty(whole: string, part: string)
    requires Contains(whole, part) && part != ""
    ensures whole != ""
  {
  }

  /** The statement as it stands holds the comment, if it does not end inside it. */
  lemma SliceHolds(file: Lexing.Input, start: nat, end: nat, e: Entry, before: seq<Element>)
    requires start <= e.start < end <= |file.source| && IsComment(e, file.source)
    ensures var slice := AsItStands(file, start, end, |before|);
            Holds(e, PlaceIn(slice, e), before + [Plain(Text(file.source[start..end]))])
  {
    var slice := AsItStands(file, start, end, |before|);
    var text := file.source[start..end];
    assert Home(slice, e.start) == |before| by {
      assert slice.lines[..0] == [];
      assert LineIndex(slice.lines, 0) == 0;
    }
    assert (before + [Plain(Text(text))])[|before|] == Plain(Text(text));
    if e.end <= end {
      assert text[e.start - start..e.end - start] == e.text;
      assert StandsAt(e.text, text, e.start - start);
    }
  }

  lemma MarksFollow(entries: seq<Entry>, source: string, l: Ledger, es: seq<Element>, n: nat, slice: Slice)
    requires WellOrdered(entries, source) && Consistent(entries, l) && l.printed + n <= |entries|
    requires slice.base == |l.elements| && Split(slice)
    ensures var r := Marked(entries, Pushed(l, es), n, slice);
            forall i, j :: 0 <= i < j < r.printed ==> Follows(r.places[i], r.places[j])
  {
    hide Holds, Home, IsComment, InOneLine;
    var r := Marked(entries, Pushed(l, es), n, slice);
    PlacesKept(entries, l, r.elements);
    forall i, j | 0 <= i < j < r.printed
      ensures Follows(r.places[i], r.places[j])
    {
      assert j >= l.printed ==> r.places[j] == PlaceIn(slice, entries[j]);
      if l.printed <= i {
        assert r.places[i] == PlaceIn(slice, entries[i]);
        HomesRise(slice, entries[i].start, entries[j].start);
      } else if l.printed <= j {
        HomesRise(slice, entries[j].start, entries[j].start);
      }
    }
  }

  /** Source text pushed, and the comments in it marked. */
  lemma MarkKeeps(intact: bool, entries: seq<Entry>, source: string, l: Ledger, es: seq<Element>, n: nat, slice: Slice)
    requires WellOrdered(entries, source) && Kept(intact, entries, l) && l.printed + n <= |entries|
    requires slice.base == |l.elements| && Split(slice)
    requires forall k :: l.printed <= k < l.printed + n ==>
               Holds(entries[k], PlaceIn(slice, entries[k]), l.elements + es)
                 && (intact ==> InOneLine(slice, entries[k]))
    ensures Kept(intact, entries, Marked(entries, Pushed(l, es), n, slice))
  {
    hide Holds, Home, IsComment, Follows, Contains;
    var r := Marked(entries, Pushed(l, es), n, slice);
    PlacesKept(entries, l, r.elements);
    forall i | 0 <= i < r.printed
      ensures Holds(entries[i], r.places[i], r.elements)
    {
      assert i >= l.printed ==> r.places[i] == PlaceIn(slice, entries[i]);
    }
    MarksFollow(entries, source, l, es, n, slice);
  }

  lemma {:induction false} RunIsInside(entries: seq<Entry>, p: nat, start: nat, limit: nat)
    requires p <= |entries|
    ensures forall k :: p <= k < p + InsideRun(entries, p, start, limit) ==> start <= entries[k].start < limit
    decreases |entries| - p
  {
    if p < |entries| && start <= entries[p].start < limit {
      RunIsInside(entries, p + 1, start, limit);
    }
  }

  lemma VerbatimKeeps(intact: bool, entries: seq<Entry>, file: Lexing.Input, l: Ledger, start: nat, end: nat)
    requires WellOrdered(entries, file.source) && Kept(intact, entries, l)
    requires start <= end <= |file.source| && (intact ==> Whole(entries, file, start, end))
    ensures Kept(intact, entries, PutAsItStands(entries, file, l, start, end))
    ensures Kept(intact, entries, PutReanchored(entries, file, l, start, end))
  {
    hide Kept, Consistent, Intact, Holds, FoundAgain, Breaks, Lines, Home, LinesOf;
    CursorInside(intact, entries, l);
    var p, n := l.printed, InsideRun(entries, l.printed, start, end);
    RunIsInside(entries, p, start, end);
    var text := Plain(Text(file.source[start..end]));
    var kept, moved := AsItStands(file, start, end, |l.elements|), Reanchored(file, start, end, |l.elements|);
    forall k | p <= k < p + n
      ensures Holds(entries[k], PlaceIn(kept, entries[k]), l.elements + [text])
      ensures Holds(entries[k], PlaceIn(moved, entries[k]), l.elements + Lines(moved.lines))
      ensures intact ==> InOneLine(kept, entries[k]) && InOneLine(moved, entries[k])
    {
      assert IsComment(entries[k], file.source);
      SliceHolds(file, start, end, entries[k], l.elements);
      LinesHold(file, start, end, entries[k], l.elements);
      if intact {
        NotDivided(file, start, end, entries[k]);
      }
    }
    MarkKeeps(intact, entries, file.source, l, [text], n, kept);
    MarkKeeps(intact, entries, file.source, l, Lines(moved.lines), n, moved);
  }

  lemma TrailKeeps(intact: bool, entries: seq<Entry>, source: string, l: Ledger, anchor: nat, end: nat)
    requires WellOrdered(entries, source) && Kept(intact, entries, l) && end <= |source|
    ensures Kept(intact, entries, Trail(entries, source, l, anchor, end))
  {
    hide Kept, Consistent, Intact;
    CursorInside(intact, entries, l);
    var inner := InsideRun(entries, l.printed, anchor, end);
    RunKeeps(intact, entries, l, inner, OnLineAfter);
    var after := Run(entries, l, inner, OnLineAfter);
    RunKeeps(intact, entries, after, TrailingRun(entries, source, after.printed, end),
             if inner > 0 then OnLineAfter else Suffix);
  }

  /** Restoring a checkpoint undoes whatever was done since: stream, cursor and record alike. */
  lemma RestoreRewinds(a: Ledger, b: Ledger)
    requires Extends(a, b)
    ensures Restored(b, a) == a
  {
    assert b.elements[..|a.elements|] == a.elements;
    assert b.places[..|a.places|] == a.places;
  }

  lemma {:induction false} StepKeeps(intact: bool, entries: seq<Entry>, file: Lexing.Input, l: Ledger, op: Op)
    requires WellOrdered(entries, file.source) && Kept(intact, entries, l)
    requires InSource(op, |file.source|) && (intact ==> AllWhole(entries, file, op))
    ensures Kept(intact, entries, Exec(entries, file, l, op))
    decreases op, 1
  {
    hide Kept, Consistent, Intact, Extends, WellOrdered, Emitted, AllWhole;
    CursorInside(intact, entries, l);
    match op
    case Push(element) => PushKeeps(intact, entries, l, [element]);
    case Attempt(body) => RestoreRewinds(l, ExecAll(entries, file, l, body));
    case VerbatimOr(start, end, optedOut, body) =>
      if intact {
        WholeInside(entries, file, op);
      }
      VerbatimKeeps(intact, entries, file, l, start, end);
      if !optedOut {
        AllKeep(intact, entries, file, l, body);
        RestoreRewinds(l, ExecAll(entries, file, l, body));
      }
    case _ => EmittedKeeps(intact, entries, file.source, l, op);
  }

  lemma WholeInside(entries: seq<Entry>, file: Lexing.Input, op: Op)
    requires op.VerbatimOr? && InSource(op, |file.source|) && AllWhole(entries, file, op)
    ensures Whole(entries, file, op.start, op.end) && EachWhole(entries, file, op.body)
  {
    hide Whole, EachWhole;
  }

  lemma EmittedKeeps(intact: bool, entries: seq<Entry>, source: string, l: Ledger, op: Op)
    requires WellOrdered(entries, source) && Kept(intact, entries, l) && InSource(op, |source|) && Emission(op)
    requires l.printed <= |entries|
    ensures Kept(intact, entries, Emitted(entries, source, l, op))
  {
    hide Kept, Consistent, Intact, Extends, WellOrdered;
    var p := l.printed;
    match op
    case EmitShebang =>
      if p < |entries| {
        RunKeeps(intact, entries, l, 1, OnLineBefore);
      }
    case EmitLeading(anchor) => RunKeeps(intact, entries, l, LeadingRun(entries, p, anchor), OnLineBefore);
    case EmitStalled(anchor) => RunKeeps(intact, entries, l, StalledRun(entries, source, p, anchor), OnLineBefore);
    case EmitTrailing(anchor, end) => TrailKeeps(intact, entries, source, l, anchor, end);
    case EmitOwnLine(start, limit) => RunKeeps(intact, entries, l, InsideRun(entries, p, start, limit), OnLineAfter);
    case EmitInline(position) => RunKeeps(intact, entries, l, InlineRun(entries, source, p, position), Inline);
    case EmitSameLine(position, limit) =>
      RunKeeps(intact, entries, l, SameLineRun(entries, source, p, position, limit), Suffix);
    case EmitDangling(end) => LinesKeep(intact, entries, l, DanglingRun(entries, source, p, end), false);
    case EmitRemaining(before) => LinesKeep(intact, entries, l, |entries| - p, before);
  }

  lemma CursorInside(intact: bool, entries: seq<Entry>, l: Ledger)
    requires Kept(intact, entries, l)
    ensures l.printed <= |entries|
  {
  }

  lemma {:induction false} AllKeep(intact: bool, entries: seq<Entry>, file: Lexing.Input, l: Ledger, ops: Ops)
    requires WellOrdered(entries, file.source) && Kept(intact, entries, l)
    requires AllInSource(ops, |file.source|) && (intact ==> EachWhole(entries, file, ops))
    ensures Kept(intact, entries, ExecAll(entries, file, l, ops))
    decreases ops, 0
  {
    hide Kept, Consistent, Intact, Exec, WellOrdered;
    CursorInside(intact, entries, l);
    if ops.MoreOps? {
      StepKeeps(intact, entries, file, l, ops.head);
      AllKeep(intact, entries, file, Exec(entries, file, l, ops.head), ops.tail);
    }
  }

  /** Over every run the comments before the cursor are exactly the ones placed, in source order along the
      stream: each in a text of its own, or in a text taken from the source, unchanged unless that was split
      inside it; and it never is where the lexer finds the comments of a statement in its own text again. */
  lemma RunsKeepLedger(entries: seq<Entry>, file: Lexing.Input, l: Ledger, op: Op)
    requires WellOrdered(entries, file.source) && Consistent(entries, l) && InSource(op, |file.source|)
    ensures Consistent(entries, Exec(entries, file, l, op))
    ensures Intact(l) && AllWhole(entries, file, op) ==> Intact(Exec(entries, file, l, op))
  {
    hide Exec, Consistent, WellOrdered, AllWhole, InSource, Intact;
    StepKeeps(false, entries, file, l, op);
    if Intact(l) && AllWhole(entries, file, op) {
      StepKeeps(true, entries, file, l, op);
    }
  }

  lemma NothingPlaced(entries: seq<Entry>)
    ensures Consistent(entries, EMPTY) && Intact(EMPTY)
  {
  }

  lemma OnePlaceEach(entries: seq<Entry>, l: Ledger)
    requires Consistent(entries, l)
    ensures |l.places| == l.printed <= |entries|
  {
  }

  lemma RemainingTakesAll(entries: seq<Entry>, file: Lexing.Input, l: Ledger, before: bool)
    requires WellOrdered(entries, file.source) && l.printed <= |entries|
    ensures Exec(entries, file, l, EmitRemaining(before)).printed == |entries|
  {
    hide WrittenLines;
  }

  /** A whole format run: when the remaining comments have been flushed, every comment has a place. */
  lemma EveryCommentPlaced(entries: seq<Entry>, file: Lexing.Input, ops: Ops, before: bool)
    requires WellOrdered(entries, file.source) && AllInSource(ops, |file.source|)
    ensures var last := Exec(entries, file, ExecAll(entries, file, EMPTY, ops), EmitRemaining(before));
            && Consistent(entries, last) && last.printed == |entries| && |last.places| == |entries|
            && (EachWhole(entries, file, ops) ==> Intact(last))
  {
    hide Exec, ExecAll, Consistent, WellOrdered, EachWhole, AllInSource, Intact;
    NothingPlaced(entries);
    AllKeep(false, entries, file, EMPTY, ops);
    if EachWhole(entries, file, ops) {
      AllKeep(true, entries, file, EMPTY, ops);
    }
    var l := ExecAll(entries, file, EMPTY, ops);
    OnePlaceEach(entries, l);
    RunsKeepLedger(entries, file, l, EmitRemaining(before));
    RemainingTakesAll(entries, file, l, before);
    OnePlaceEach(entries, Exec(entries, file, l, EmitRemaining(before)));
  }

  // ----- an emission appends exactly the run the cursor passes -----

  function Texts(es: seq<Element>): seq<string> {
    if es == [] then []
    else (if es[0].Plain? && es[0].atom.Text? then [es[0].atom.content] else []) + Texts(es[1..])
  }

  function TextsOf(entries: seq<Entry>): seq<string> {
    if entries == [] then [] else [entries[0].text] + TextsOf(entries[1..])
  }

  lemma {:induction false} TextsAppend(a: seq<Element>, b: seq<Element>)
    ensures Texts(a + b) == Texts(a) + Texts(b)
  {
    if a == [] {
      assert a + b == b;
    } else {
      assert (a + b)[0] == a[0] && (a + b)[1..] == a[1..] + b;
      TextsAppend(a[1..], b);
    }
  }

  lemma SingleText(e: Element)
    ensures Texts([e]) == if e.Plain? && e.atom.Text? then [e.atom.content] else []
  {
    assert [e][1..] == [];
  }

  lemma ShapedTexts(shape: Shape, text: string)
    ensures Texts(Shaped(shape, text)) == [text]
  {
    hide Texts;
    var t := Plain(Text(text));
    SingleText(t);
    SingleText(Plain(Line(Hard)));
    SingleText(Plain(Space));
    SingleText(Mark(StartLineSuffix));
    SingleText(Mark(EndLineSuffix));
    match shape
    case OnLineBefore =>
      TextsAppend([t], [Plain(Line(Hard))]);
      assert [t] + [Plain(Line(Hard))] == Shaped(shape, text);
    case OnLineAfter =>
      TextsAppend([Plain(Line(Hard))], [t]);
      assert [Plain(Line(Hard))] + [t] == Shaped(shape, text);
    case Inline =>
      TextsAppend([Plain(Space)], [t]);
      assert [Plain(Space)] + [t] == Shaped(shape, text);
    case Suffix =>
      TextsAppend([Plain(Space)], [t]);
      TextsAppend([Mark(StartLineSuffix)], [Plain(Space)] + [t]);
      TextsAppend([Mark(StartLineSuffix)] + ([Plain(Space)] + [t]), [Mark(EndLineSuffix)]);
      assert [Mark(StartLineSuffix)] + ([Plain(Space)] + [t]) + [Mark(EndLineSuffix)] == Shaped(shape, text);
    case Bare =>
  }

  /** `r` is `l` with the texts of the comments between the two cursors appended, in order. */
  predicate AppendsRun(entries: seq<Entry>, l: Ledger, r: Ledger) {
    && l.printed <= r.printed <= |entries|
    && Texts(r.elements) == Texts(l.elements) + TextsOf(entries[l.printed..r.printed])
  }

  lemma {:induction false} RunAppends(entries: seq<Entry>, l: Ledger, n: nat, shape: Shape)
    requires l.printed + n <= |entries|
    ensures AppendsRun(entries, l, WrittenRun(entries, l, n, shape))
    ensures WrittenRun(entries, l, n, shape).printed == l.printed + n
    decreases n
  {
    hide Shaped, Texts;
    if n == 0 {
      assert entries[l.printed..l.printed] == [];
    } else {
      var next := Written(entries, l, shape);
      WrittenAppends(entries, l, shape);
      RunAppends(entries, next, n - 1, shape);
      var run := entries[l.printed..l.printed + n];
      assert run[0] == entries[l.printed] && run[1..] == entries[l.printed + 1..l.printed + n];
    }
  }

  lemma WrittenAppends(entries: seq<Entry>, l: Ledger, shape: Shape)
    requires l.printed < |entries|
    ensures Texts(Written(entries, l, shape).elements) == Texts(l.elements) + [entries[l.printed].text]
    ensures AppendsRun(entries, l, Written(entries, l, shape))
  {
    hide Shaped, Texts;
    TextsAppend(l.elements, Shaped(shape, entries[l.printed].text));
    ShapedTexts(shape, entries[l.printed].text);
    var run := entries[l.printed..l.printed + 1];
    assert run == [entries[l.printed]] && run[1..] == [];
    assert TextsOf(run[1..]) == [];
  }

  lemma AppendsRunTwice(entries: seq<Entry>, a: Ledger, b: Ledger, c: Ledger)
    requires AppendsRun(entries, a, b) && AppendsRun(entries, b, c)
    ensures AppendsRun(entries, a, c)
  {
    hide Texts, TextsOf;
    var first, second := entries[a.printed..b.printed], entries[b.printed..c.printed];
    TextsOfAppend(first, second);
    assert entries[a.printed..c.printed] == first + second;
    ThreeTexts(Texts(a.elements), TextsOf(first), TextsOf(second));
  }

  lemma ThreeTexts(a: seq<string>, b: seq<string>, c: seq<string>)
    ensures (a + b) + c == a + (b + c)
  {
  }

  lemma {:induction false} TextsOfAppend(a: seq<Entry>, b: seq<Entry>)
    ensures TextsOf(a + b) == TextsOf(a) + TextsOf(b)
  {
    if a == [] {
      assert a + b == b;
    } else {
      assert (a + b)[0] == a[0] && (a + b)[1..] == a[1..] + b;
      TextsOfAppend(a[1..], b);
    }
  }

  lemma EmissionAppendsExactly(entries: seq<Entry>, file: Lexing.Input, l: Ledger, op: Op)
    requires WellOrdered(entries, file.source) && l.printed <= |entries| && InSource(op, |file.source|) && Emission(op)
    ensures AppendsRun(entries, l, Exec(entries, file, l, op))
  {
    hide AppendsRun, WellOrdered, Extends, WrittenRun, LeadingRun, StalledRun, InsideRun, TrailingRun, InlineRun,
         SameLineRun, DanglingRun, Written, WrittenLines, Trail;
    var p := l.printed;
    RunAppends(entries, l, 0, Bare);
    ZeroRun(entries, l, Bare);
    match op
    case EmitShebang =>
      if p < |entries| {
        RunAppends(entries, l, 1, OnLineBefore);
      }
    case EmitLeading(anchor) => RunAppends(entries, l, LeadingRun(entries, p, anchor), OnLineBefore);
    case EmitStalled(anchor) => RunAppends(entries, l, StalledRun(entries, file.source, p, anchor), OnLineBefore);
    case EmitTrailing(anchor, end) => TrailAppends(entries, file.source, l, anchor, end);
    case EmitOwnLine(start, limit) => RunAppends(entries, l, InsideRun(entries, p, start, limit), OnLineAfter);
    case EmitInline(position) => RunAppends(entries, l, InlineRun(entries, file.source, p, position), Inline);
    case EmitSameLine(position, limit) =>
      RunAppends(entries, l, SameLineRun(entries, file.source, p, position, limit), Suffix);
    case EmitDangling(end) => LinesAppend(entries, l, DanglingRun(entries, file.source, p, end), false);
    case EmitRemaining(before) => LinesAppend(entries, l, |entries| - p, before);
  }

  lemma TrailAppends(entries: seq<Entry>, source: string, l: Ledger, anchor: nat, end: nat)
    requires WellOrdered(entries, source) && l.printed <= |entries| && InSource(EmitTrailing(anchor, end), |source|)
    ensures AppendsRun(entries, l, Trail(entries, source, l, anchor, end))
  {
    hide AppendsRun, WellOrdered, WrittenRun, InsideRun, TrailingRun;
    var inner := InsideRun(entries, l.printed, anchor, end);
    RunAppends(entries, l, inner, OnLineAfter);
    var after := WrittenRun(entries, l, inner, OnLineAfter);
    var shape := if inner > 0 then OnLineAfter else Suffix;
    RunAppends(entries, after, TrailingRun(entries, source, after.printed, end), shape);
    AppendsRunTwice(entries, l, after,
                    WrittenRun(entries, after, TrailingRun(entries, source, after.printed, end), shape));
  }

  lemma ZeroRun(entries: seq<Entry>, l: Ledger, shape: Shape)
    requires l.printed <= |entries|
    ensures WrittenRun(entries, l, 0, shape) == l
  {
  }

  lemma LinesAppend(entries: seq<Entry>, l: Ledger, n: nat, before: bool)
    requires l.printed + n <= |entries|
    ensures AppendsRun(entries, l, WrittenLines(entries, l, n, before))
  {
    hide AppendsRun, WrittenRun;
    RunAppends(entries, l, n, OnLineAfter);
    ZeroRun(entries, l, OnLineAfter);
    if n > 0 && !before {
      var next := Written(entries, l, Bare);
      WrittenAppends(entries, l, Bare);
      RunAppends(entries, next, n - 1, OnLineAfter);
      AppendsRunTwice(entries, l, next, WrittenRun(entries, next, n - 1, OnLineAfter));
    }
  }

  // ----- the verbatim fallback -----

  /** A comment from before `start` is still pending: it stops the sequential cursor. */
  predicate EarlierPending(entries: seq<Entry>, l: Ledger, start: nat) {
    l.printed < |entries| && entries[l.printed].start < start
  }

  lemma {:induction false} InsideRunReaches(entries: seq<Entry>, source: string, p: nat, start: nat, end: nat)
    requires WellOrdered(entries, source) && p <= |entries| && (p < |entries| ==> start <= entries[p].start)
    ensures var q := p + InsideRun(entries, p, start, end);
            forall i :: q <= i < |entries| ==> end <= entries[i].start
    decreases |entries| - p
  {
    if p < |entries| && entries[p].start < end {
      assert p + 1 < |entries| ==> entries[p].end <= entries[p + 1].start;
      InsideRunReaches(entries, source, p + 1, start, end);
    }
  }

  /** Whether the statement went out as source text. */
  predicate WentVerbatim(entries: seq<Entry>, file: Lexing.Input, l: Ledger, op: Op)
    requires op.VerbatimOr? && WellOrdered(entries, file.source) && l.printed <= |entries|
             && InSource(op, |file.source|)
  {
    op.optedOut || Unhandled(entries, ExecAll(entries, file, l, op.body), op.start, op.end)
  }

  /** A comment of the statement is left pending exactly when the statement goes out as source text
      while an earlier comment is still pending. */
  lemma VerbatimOrLeavesPending(entries: seq<Entry>, file: Lexing.Input, l: Ledger, op: Op)
    requires op.VerbatimOr? && WellOrdered(entries, file.source) && l.printed <= |entries|
             && InSource(op, |file.source|)
    ensures Unhandled(entries, Exec(entries, file, l, op), op.start, op.end)
            <==> WentVerbatim(entries, file, l, op) && EarlierPending(entries, l, op.start)
                 && Unhandled(entries, l, op.start, op.end)
  {
    hide WellOrdered;
    if WentVerbatim(entries, file, l, op) {
      var formatted := ExecAll(entries, file, l, op.body);
      RestoreRewinds(l, formatted);
      if !EarlierPending(entries, l, op.start) {
        InsideRunReaches(entries, file.source, l.printed, op.start, op.end);
      }
    }
  }
}
