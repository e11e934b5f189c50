/** Where the comments of an emission stand: on lines of their own, behind one space, at the end of a line;
    and that nothing is ever written behind a comment that goes to the end of its line. */
module CommentLines {
  import opened Wrappers
  import opened Document
  import opened Comments
  import Lexing

  // ----- the elements around a comment -----

  function InFront(shape: Shape): nat {
    match shape
    case OnLineBefore => 0
    case OnLineAfter => 1
    case Inline => 1
    case Suffix => 2
    case Bare => 0
  }

  function Behind(shape: Shape): nat {
    match shape
    case OnLineBefore => 1
    case OnLineAfter => 0
    case Inline => 0
    case Suffix => 1
    case Bare => 0
  }

  /** A line break behind the comment, or in front of it; one space in front; one space in front of a comment
      that is put off to the end of its line. */
  predicate Sits(shape: Shape, es: seq<Element>, at: nat) {
    && InFront(shape) <= at && at + Behind(shape) < |es|
    && match shape
       case OnLineBefore => es[at + 1] == Plain(Line(Hard))
       case OnLineAfter => es[at - 1] == Plain(Line(Hard))
       case Inline => es[at - 1] == Plain(Space)
       case Suffix =>
         es[at - 2] == Mark(StartLineSuffix) && es[at - 1] == Plain(Space) && es[at + 1] == Mark(EndLineSuffix)
       case Bare => true
  }

  /** How the comments of an emission are to stand. Behind a statement they stand at the end of its line,
      unless one that lies inside the statement comes first: then all get lines of their own. */
  function Manner(op: Op, entries: seq<Entry>, l: Ledger): Shape
    requires Emission(op)
  {
    match op
    case EmitShebang => OnLineBefore
    case EmitLeading(_) => OnLineBefore
    case EmitStalled(_) => OnLineBefore
    case EmitTrailing(anchor, end) =>
      if l.printed < |entries| && anchor <= entries[l.printed].start < end then OnLineAfter else Suffix
    case EmitOwnLine(_, _) => OnLineAfter
    case EmitInline(_) => Inline
    case EmitSameLine(_, _) => Suffix
    case EmitDangling(_) => OnLineAfter
    case EmitRemaining(_) => OnLineAfter
    case _ => Bare
  }

  /** The first comment has nothing in front: the caller has broken the line. */
  predicate FirstIsBare(op: Op) { op.EmitDangling? || op == EmitRemaining(false) }

  /** The comments between the cursors of `l` and `r` stand as `shape` says, the first one alone where `bare`,
      and nothing else has been pushed. */
  predicate Laid(l: Ledger, r: Ledger, shape: Shape, bare: bool)
    requires l.printed <= r.printed && |r.places| == r.printed
  {
    && (forall k :: l.printed <= k < r.printed ==>
          r.places[k].InElement? && Sits(if bare && k == l.printed then Bare else shape, r.elements, r.places[k].at))
    && (forall k :: l.printed < k < r.printed ==>
          r.places[k].at == r.places[k - 1].at + 1 + Behind(shape) + InFront(shape))
    && (if r.printed == l.printed then r.elements == l.elements
        else
          && r.places[l.printed].at == |l.elements| + (if bare then 0 else InFront(shape))
          && |r.elements| == r.places[r.printed - 1].at + 1 + Behind(shape))
  }

  lemma OneLaid(entries: seq<Entry>, l: Ledger, shape: Shape)
    requires l.printed < |entries| && |l.places| == l.printed
    ensures Laid(l, Written(entries, l, shape), shape, false)
  {
  }

  lemma {:induction false} RunLaid(entries: seq<Entry>, l: Ledger, n: nat, shape: Shape)
    requires l.printed + n <= |entries| && |l.places| == l.printed
    ensures Extends(l, WrittenRun(entries, l, n, shape)) && WrittenRun(entries, l, n, shape).printed == l.printed + n
    ensures |WrittenRun(entries, l, n, shape).places| == l.printed + n
    ensures Laid(l, WrittenRun(entries, l, n, shape), shape, false)
    decreases n
  {
    hide Sits, Shaped;
    if n > 0 {
      var next := Written(entries, l, shape);
      OneLaid(entries, l, shape);
      RunLaid(entries, next, n - 1, shape);
      LaidOn(l, next, WrittenRun(entries, next, n - 1, shape), shape, false);
    }
  }

  /** One comment and then more. */
  lemma LaidOn(l: Ledger, next: Ledger, r: Ledger, shape: Shape, bare: bool)
    requires next.printed == l.printed + 1 && Extends(l, next) && Extends(next, r)
    requires |next.places| == next.printed && |r.places| == r.printed
    requires Laid(l, next, if bare then Bare else shape, false) && Laid(next, r, shape, false)
    requires bare ==> Behind(shape) == 0
    ensures Laid(l, r, shape, bare)
  {
    hide Sits;
    assert r.places[l.printed] == next.places[l.printed];
    SitsOn(if bare then Bare else shape, next.elements, r.elements, next.places[l.printed].at);
  }

  lemma SitsOn(shape: Shape, es: seq<Element>, more: seq<Element>, at: nat)
    requires Sits(shape, es, at) && es <= more
    ensures Sits(shape, more, at)
  {
  }

  /** Two runs in the same shape are one. */
  lemma LaidTwice(l: Ledger, mid: Ledger, r: Ledger, shape: Shape)
    requires l.printed <= mid.printed <= r.printed && Extends(l, mid) && Extends(mid, r)
    requires |mid.places| == mid.printed && |r.places| == r.printed
    requires Laid(l, mid, shape, false) && Laid(mid, r, shape, false)
    ensures Laid(l, r, shape, false)
  {
    hide Sits;
    forall k | l.printed <= k < mid.printed
      ensures r.places[k] == mid.places[k] && Sits(shape, r.elements, r.places[k].at)
    {
      SitsOn(shape, mid.elements, r.elements, mid.places[k].at);
    }
  }

  lemma LinesLaid(entries: seq<Entry>, l: Ledger, n: nat, before: bool)
    requires l.printed + n <= |entries| && |l.places| == l.printed
    ensures WrittenLines(entries, l, n, before).printed == l.printed + n
    ensures |WrittenLines(entries, l, n, before).places| == l.printed + n
    ensures Laid(l, WrittenLines(entries, l, n, before), OnLineAfter, !before)
  {
    hide Sits, Shaped;
    if n > 0 {
      if before {
        RunLaid(entries, l, n, OnLineAfter);
      } else {
        var next := Written(entries, l, Bare);
        OneLaid(entries, l, Bare);
        RunLaid(entries, next, n - 1, OnLineAfter);
        LaidOn(l, next, WrittenRun(entries, next, n - 1, OnLineAfter), OnLineAfter, true);
      }
    }
  }

  /** Every emission: its comments stand where they belong. A comment on a line of its own has the line breaks
      it claims, one behind other text has exactly one space in front. */
  lemma EmissionIsLaid(entries: seq<Entry>, file: Lexing.Input, l: Ledger, op: Op)
    requires WellOrdered(entries, file.source) && l.printed <= |entries| && |l.places| == l.printed
    requires InSource(op, |file.source|) && Emission(op)
    ensures var r := Exec(entries, file, l, op);
            && l.printed <= r.printed == |r.places|
            && Laid(l, r, Manner(op, entries, l), FirstIsBare(op))
  {
    hide WellOrdered, WrittenRun, WrittenLines, LeadingRun, StalledRun, TrailingRun, InlineRun, SameLineRun,
         DanglingRun, Laid, Trail;
    var p, source := l.printed, file.source;
    NoneLaid(l, Manner(op, entries, l), FirstIsBare(op));
    match op
    case EmitShebang => if p < |entries| { RunLaid(entries, l, 1, OnLineBefore); }
    case EmitLeading(anchor) => RunLaid(entries, l, LeadingRun(entries, p, anchor), OnLineBefore);
    case EmitStalled(anchor) => RunLaid(entries, l, StalledRun(entries, source, p, anchor), OnLineBefore);
    case EmitTrailing(anchor, end) => TrailLaid(entries, source, l, anchor, end);
    case EmitOwnLine(start, limit) => RunLaid(entries, l, InsideRun(entries, p, start, limit), OnLineAfter);
    case EmitInline(position) => RunLaid(entries, l, InlineRun(entries, source, p, position), Inline);
    case EmitSameLine(position, limit) =>
      RunLaid(entries, l, SameLineRun(entries, source, p, position, limit), Suffix);
    case EmitDangling(end) => LinesLaid(entries, l, DanglingRun(entries, source, p, end), false);
    case EmitRemaining(before) => LinesLaid(entries, l, |entries| - p, before);
  }

  lemma NoneLaid(l: Ledger, shape: Shape, bare: bool)
    requires |l.places| == l.printed
    ensures Laid(l, l, shape, bare)
  {
  }

  lemma TrailLaid(entries: seq<Entry>, source: string, l: Ledger, anchor: nat, end: nat)
    requires WellOrdered(entries, source) && l.printed <= |entries| && |l.places| == l.printed
    requires anchor <= end <= |source|
    ensures var r, op := Trail(entries, source, l, anchor, end), EmitTrailing(anchor, end);
            && l.printed <= r.printed == |r.places|
            && Laid(l, r, Manner(op, entries, l), FirstIsBare(op))
  {
    hide WellOrdered, WrittenRun, TrailingRun, Laid;
    var inner := InsideRun(entries, l.printed, anchor, end);
    RunLaid(entries, l, inner, OnLineAfter);
    var after := WrittenRun(entries, l, inner, OnLineAfter);
    var shape := if inner > 0 then OnLineAfter else Suffix;
    RunLaid(entries, after, TrailingRun(entries, source, after.printed, end), shape);
    if inner > 0 {
      LaidTwice(l, after, Trail(entries, source, l, anchor, end), OnLineAfter);
    } else {
      ZeroRun(entries, l, OnLineAfter);
    }
  }

  // ----- nothing behind a comment on its line -----

  /** The open line: whether a comment that goes to the end of the line stands on it; whether something waits
      for its end, and whether such a comment does; whether what comes is put off like that. */
  datatype OpenLine = OpenLine(closed: bool, waiting: bool, waitingClosed: bool, puttingOff: bool)

  const FRESH := OpenLine(false, false, false, false)

  predicate GoesToLineEnd(s: string) { s != "" && EndsItsLine(KindOf(s)) }

  /** A text on the line, which goes to the end of it or not: none where it would be part of a comment, or
      something that waits would be part of it. */
  function Put(line: OpenLine, last: bool): Option<OpenLine> {
    if line.closed then None
    else if line.puttingOff then
      if line.waitingClosed then None else Some(line.(waitingClosed := last))
    else if line.waiting && last then None
    else Some(line.(closed := last))
  }

  /** The line behind an element; none where a comment has swallowed something. */
  function Step(line: OpenLine, e: Element): Option<OpenLine> {
    match e
    case Plain(Text(s)) => Put(line, GoesToLineEnd(s))
    case Plain(Token(_)) => Put(line, false)
    case Plain(Line(Hard)) => Some(if line.puttingOff then line else FRESH)
    case Plain(Line(Empty)) => Some(if line.puttingOff then line else FRESH)
    case Mark(StartLineSuffix) => if line.closed then None else Some(line.(waiting := true, puttingOff := true))
    case Mark(EndLineSuffix) => Some(line.(puttingOff := false))
    case _ => Some(line)
  }

  function Follow(es: seq<Element>, line: OpenLine): Option<OpenLine>
    decreases |es|
  {
    if es == [] then Some(line)
    else match Step(line, es[0])
      case None => None
      case Some(next) => Follow(es[1..], next)
  }

  function FollowOn(es: seq<Element>, line: Option<OpenLine>): Option<OpenLine> {
    if line.None? then None else Follow(es, line.value)
  }

  lemma {:induction false} FollowCat(a: seq<Element>, b: seq<Element>, line: OpenLine)
    ensures Follow(a + b, line) == FollowOn(b, Follow(a, line))
    decreases |a|
  {
    if a == [] {
      assert a + b == b;
    } else {
      assert (a + b)[0] == a[0] && (a + b)[1..] == a[1..] + b;
      if Step(line, a[0]).Some? {
        FollowCat(a[1..], b, Step(line, a[0]).value);
      }
    }
  }

  /** What an emission has pushed. */
  function Pushes(l: Ledger, r: Ledger): seq<Element>
    requires |l.elements| <= |r.elements|
  {
    r.elements[|l.elements|..]
  }

  lemma PushesAre(l: Ledger, es: seq<Element>)
    ensures Pushes(l, Pushed(l, es)) == es
  {
  }

  /** Where a comment in this shape may come. */
  predicate Open(line: OpenLine, shape: Shape) {
    && !line.puttingOff
    && match shape
       case OnLineBefore => line == FRESH
       case OnLineAfter => true
       case Inline => !line.closed
       case Suffix => !line.closed && !line.waitingClosed
       case Bare => line == FRESH
  }

  /** The line behind a comment. */
  function LineBehind(line: OpenLine, shape: Shape, last: bool): OpenLine {
    match shape
    case OnLineBefore => FRESH
    case OnLineAfter => FRESH.(closed := last)
    case Inline => line
    case Suffix => line.(waiting := true, waitingClosed := last)
    case Bare => FRESH.(closed := last)
  }

  lemma ShapeFollows(shape: Shape, text: string, line: OpenLine)
    requires Open(line, shape) && text != "" && (shape == Inline ==> !GoesToLineEnd(text))
    ensures Follow(Shaped(shape, text), line) == Some(LineBehind(line, shape, GoesToLineEnd(text)))
  {
    hide GoesToLineEnd;
    var es := Shaped(shape, text);
    assert Follow([], LineBehind(line, shape, GoesToLineEnd(text)))
           == Some(LineBehind(line, shape, GoesToLineEnd(text)));
    match shape
    case OnLineBefore => assert es[1..] == [Plain(Line(Hard))] && es[1..][1..] == [];
    case OnLineAfter => assert es[1..] == [Plain(Text(text))] && es[1..][1..] == [];
    case Inline => assert es[1..] == [Plain(Text(text))] && es[1..][1..] == [];
    case Suffix =>
      assert es[1..] == [Plain(Space), Plain(Text(text)), Mark(EndLineSuffix)];
      assert es[1..][1..] == [Plain(Text(text)), Mark(EndLineSuffix)];
      assert es[1..][1..][1..] == [Mark(EndLineSuffix)] && es[1..][1..][1..][1..] == [];
      var off := line.(waiting := true, puttingOff := true);
      var written := off.(waitingClosed := GoesToLineEnd(text));
      assert Follow(es[1..][1..][1..], written) == Some(LineBehind(line, shape, GoesToLineEnd(text)));
      assert Follow(es[1..][1..], off) == Follow(es[1..][1..][1..], written);
    case Bare => assert es[1..] == [];
  }

  /** The comments of a run that others follow: in line, or put off to the same line end, they are none that
      go to the end of it. */
  predicate Lets(entries: seq<Entry>, p: nat, n: nat, shape: Shape)
    requires p + n <= |entries|
  {
    && (shape == Inline ==> forall k :: p <= k < p + n ==> !EndsItsLine(entries[k].kind))
    && (shape == Suffix ==> forall k :: p <= k < p + n - 1 ==> !EndsItsLine(entries[k].kind))
  }

  function LastEnds(entries: seq<Entry>, p: nat, n: nat): bool
    requires 0 < n && p + n <= |entries|
  {
    EndsItsLine(entries[p + n - 1].kind)
  }

  lemma {:induction false} RunFollows(entries: seq<Entry>, source: string, l: Ledger, n: nat, shape: Shape,
                                      line: OpenLine)
    requires WellOrdered(entries, source) && l.printed + n <= |entries| && shape != Bare
    requires Open(line, shape) && Lets(entries, l.printed, n, shape)
    ensures l.elements <= WrittenRun(entries, l, n, shape).elements
    ensures Follow(Pushes(l, WrittenRun(entries, l, n, shape)), line)
            == Some(if n == 0 then line else LineBehind(line, shape, LastEnds(entries, l.printed, n)))
    decreases n
  {
    hide Shaped, Step, WellOrdered, Open, KindOf, Follow, LineBehind, GoesToLineEnd;
    if n == 0 {
      NothingPushed(l, line);
    } else {
      var next, e := Written(entries, l, shape), entries[l.printed];
      EntryKnown(entries, source, l.printed);
      ShapeFollows(shape, e.text, line);
      assert Pushes(l, next) == Shaped(shape, e.text);
      var behind := LineBehind(line, shape, EndsItsLine(e.kind));
      if n > 1 {
        OpenAgain(line, shape, EndsItsLine(e.kind));
        RunFollows(entries, source, next, n - 1, shape, behind);
        LastDecides(line, shape, EndsItsLine(e.kind), LastEnds(entries, l.printed, n));
      } else {
        ZeroRun(entries, next, shape);
        NothingPushed(next, behind);
      }
      RunExtends(entries, next, n - 1, shape);
      FollowTwice(l, next, WrittenRun(entries, next, n - 1, shape), line);
    }
  }

  lemma EntryKnown(entries: seq<Entry>, source: string, k: nat)
    requires WellOrdered(entries, source) && k < |entries|
    ensures entries[k].text != "" && GoesToLineEnd(entries[k].text) == EndsItsLine(entries[k].kind)
  {
    hide KindOf;
    assert IsComment(entries[k], source);
  }

  /** The last comment of a run decides what the line is like. */
  lemma LastDecides(line: OpenLine, shape: Shape, first: bool, last: bool)
    ensures LineBehind(LineBehind(line, shape, first), shape, last) == LineBehind(line, shape, last)
  {
  }

  lemma OpenAgain(line: OpenLine, shape: Shape, last: bool)
    requires Open(line, shape) && shape != Bare && (shape == Inline || shape == Suffix ==> !last)
    ensures Open(LineBehind(line, shape, last), shape)
  {
  }

  // ----- which comments share a line -----

  lemma {:induction false} InlineLets(entries: seq<Entry>, source: string, p: nat, from: nat)
    requires p <= |entries| && WellOrdered(entries, source) && from <= |source|
    ensures Lets(entries, p, InlineRun(entries, source, p, from), Inline)
    decreases |entries| - p
  {
    if InlineRun(entries, source, p, from) > 0 {
      InlineLets(entries, source, p + 1, entries[p].end);
    }
  }

  /** Something more on the line behind a comment: it does not go to the end of it. */
  lemma SharedLine(entries: seq<Entry>, source: string, k: nat)
    requires WellOrdered(entries, source) && k + 1 < |entries|
    requires !HasBreak(source[entries[k].end..entries[k + 1].start])
    ensures !EndsItsLine(entries[k].kind)
  {
    hide KindOf;
    var e, next := entries[k], entries[k + 1];
    assert IsComment(e, source) && IsComment(next, source) && e.end <= next.start;
    assert e.end < next.start ==> source[e.end..next.start][0] == source[e.end];
  }

  lemma {:induction false} SameLineLets(entries: seq<Entry>, source: string, p: nat, from: nat, limit: nat)
    requires p <= |entries| && WellOrdered(entries, source) && from <= |source|
    ensures Lets(entries, p, SameLineRun(entries, source, p, from, limit), Suffix)
    decreases |entries| - p
  {
    hide WellOrdered, HasBreak, EndsItsLine;
    var n := SameLineRun(entries, source, p, from, limit);
    if n > 0 {
      EntryInside(entries, source, p);
      SameLineLets(entries, source, p + 1, entries[p].end, limit);
      if n > 1 {
        SharedLine(entries, source, p);
      }
    }
  }

  lemma EntryInside(entries: seq<Entry>, source: string, k: nat)
    requires WellOrdered(entries, source) && k < |entries|
    ensures entries[k].start < entries[k].end <= |source|
    ensures source[entries[k].start] == '-' || source[entries[k].start] == '#'
    ensures k + 1 < |entries| ==> entries[k].end <= entries[k + 1].start
  {
    assert IsComment(entries[k], source);
  }

  /** At most one comment trails a statement: behind it there is no longer only white space. */
  lemma TrailingIsOne(entries: seq<Entry>, source: string, p: nat, end: nat)
    requires p <= |entries| && WellOrdered(entries, source) && end <= |source|
    ensures TrailingRun(entries, source, p, end) <= 1
  {
    hide WellOrdered, HasBreak;
    if p + 1 < |entries| {
      EntryInside(entries, source, p);
      EntryInside(entries, source, p + 1);
      var at := entries[p].start;
      if end <= at {
        var gap := source[end..entries[p + 1].start];
        assert gap[at - end] == source[at];
        assert !CodeFree(gap);
      }
    }
  }

  // ----- nothing is swallowed -----

  /** Where the first comment of an emission may come. */
  predicate MayEmit(op: Op, entries: seq<Entry>, l: Ledger, line: OpenLine)
    requires Emission(op)
  {
    Open(line, if FirstIsBare(op) then Bare else Manner(op, entries, l))
  }

  /** Every emission: no comment that goes to the end of its line has anything behind it, neither text nor
      another comment; and what the line is like behind the last one. */
  lemma EmissionSwallowsNothing(entries: seq<Entry>, file: Lexing.Input, l: Ledger, op: Op, line: OpenLine)
    requires WellOrdered(entries, file.source) && l.printed <= |entries|
    requires InSource(op, |file.source|) && Emission(op) && MayEmit(op, entries, l, line)
    ensures var r := Exec(entries, file, l, op);
            && l.printed <= r.printed <= |entries| && l.elements <= r.elements
            && Follow(Pushes(l, r), line)
               == Some(if r.printed == l.printed then line
                       else LineBehind(line, Manner(op, entries, l), EndsItsLine(entries[r.printed - 1].kind)))
  {
    hide WellOrdered, WrittenRun, WrittenLines, LeadingRun, StalledRun, TrailingRun, InlineRun, SameLineRun,
         DanglingRun, Lets, Trail, Open, LineBehind, Follow, EndsItsLine;
    var p, source := l.printed, file.source;
    NothingPushed(l, line);
    match op
    case EmitShebang => if p < |entries| { RunOf(entries, source, l, 1, OnLineBefore, line); }
    case EmitLeading(anchor) => RunOf(entries, source, l, LeadingRun(entries, p, anchor), OnLineBefore, line);
    case EmitStalled(anchor) => RunOf(entries, source, l, StalledRun(entries, source, p, anchor), OnLineBefore, line);
    case EmitTrailing(anchor, end) => TrailFollows(entries, source, l, anchor, end, line);
    case EmitOwnLine(start, limit) =>
      RunOf(entries, source, l, InsideRun(entries, p, start, limit), OnLineAfter, line);
    case EmitInline(position) =>
      InlineLets(entries, source, p, position);
      RunFollows(entries, source, l, InlineRun(entries, source, p, position), Inline, line);
    case EmitSameLine(position, limit) =>
      SameLineLets(entries, source, p, position, limit);
      RunFollows(entries, source, l, SameLineRun(entries, source, p, position, limit), Suffix, line);
    case EmitDangling(end) => LinesFollow(entries, source, l, DanglingRun(entries, source, p, end), false, line);
    case EmitRemaining(before) => LinesFollow(entries, source, l, |entries| - p, before, line);
  }

  lemma NothingPushed(l: Ledger, line: OpenLine)
    ensures Pushes(l, l) == [] && Follow([], line) == Some(line)
  {
  }

  /** A run of comments with lines of their own. */
  lemma RunOf(entries: seq<Entry>, source: string, l: Ledger, n: nat, shape: Shape, line: OpenLine)
    requires WellOrdered(entries, source) && l.printed + n <= |entries| && Open(line, shape)
    requires shape == OnLineBefore || shape == OnLineAfter
    ensures l.elements <= WrittenRun(entries, l, n, shape).elements
    ensures Follow(Pushes(l, WrittenRun(entries, l, n, shape)), line)
            == Some(if n == 0 then line else LineBehind(line, shape, LastEnds(entries, l.printed, n)))
  {
    hide WellOrdered, WrittenRun, Follow, LineBehind;
    RunFollows(entries, source, l, n, shape, line);
  }

  /** What two stages push is followed one after the other. */
  lemma FollowTwice(l: Ledger, mid: Ledger, r: Ledger, line: OpenLine)
    requires l.elements <= mid.elements && mid.elements <= r.elements
    ensures Follow(Pushes(l, r), line) == FollowOn(Pushes(mid, r), Follow(Pushes(l, mid), line))
  {
    hide Follow;
    assert Pushes(l, r) == Pushes(l, mid) + Pushes(mid, r);
    FollowCat(Pushes(l, mid), Pushes(mid, r), line);
  }

  lemma TrailFollows(entries: seq<Entry>, source: string, l: Ledger, anchor: nat, end: nat, line: OpenLine)
    requires WellOrdered(entries, source) && l.printed <= |entries| && anchor <= end <= |source|
    requires MayEmit(EmitTrailing(anchor, end), entries, l, line)
    ensures var r := Trail(entries, source, l, anchor, end);
            && l.printed <= r.printed <= |entries| && l.elements <= r.elements
            && Follow(Pushes(l, r), line)
               == Some(if r.printed == l.printed then line
                       else LineBehind(line, Manner(EmitTrailing(anchor, end), entries, l),
                                       EndsItsLine(entries[r.printed - 1].kind)))
  {
    hide WellOrdered, WrittenRun, TrailingRun, Follow, EndsItsLine;
    var inner := InsideRun(entries, l.printed, anchor, end);
    var after := Run(entries, l, inner, OnLineAfter);
    var n := TrailingRun(entries, source, after.printed, end);
    TrailingIsOne(entries, source, after.printed, end);
    NothingPushed(l, line);
    if inner > 0 {
      RunFollows(entries, source, l, inner, OnLineAfter, line);
      var behind := LineBehind(line, OnLineAfter, LastEnds(entries, l.printed, inner));
      RunFollows(entries, source, after, n, OnLineAfter, behind);
      FollowTwice(l, after, Run(entries, after, n, OnLineAfter), line);
    } else {
      ZeroRun(entries, l, OnLineAfter);
      RunFollows(entries, source, l, n, Suffix, line);
    }
  }

  lemma LinesFollow(entries: seq<Entry>, source: string, l: Ledger, n: nat, before: bool, line: OpenLine)
    requires WellOrdered(entries, source) && l.printed + n <= |entries|
    requires Open(line, if before then OnLineAfter else Bare)
    ensures var r := WrittenLines(entries, l, n, before);
            && r.printed == l.printed + n && l.elements <= r.elements
            && Follow(Pushes(l, r), line)
               == Some(if n == 0 then line else LineBehind(line, OnLineAfter, LastEnds(entries, l.printed, n)))
  {
    hide WellOrdered, WrittenRun, Follow, Shaped;
    NothingPushed(l, line);
    if n > 0 {
      if before {
        RunFollows(entries, source, l, n, OnLineAfter, line);
        RunExtends(entries, l, n, OnLineAfter);
      } else {
        var next, e := Written(entries, l, Bare), entries[l.printed];
        EntryKnown(entries, source, l.printed);
        ShapeFollows(Bare, e.text, line);
        assert Pushes(l, next) == Shaped(Bare, e.text);
        var behind := LineBehind(line, Bare, EndsItsLine(e.kind));
        RunFollows(entries, source, next, n - 1, OnLineAfter, behind);
        RunExtends(entries, next, n - 1, OnLineAfter);
        FollowTwice(l, next, WrittenRun(entries, next, n - 1, OnLineAfter), line);
      }
    }
  }
}
