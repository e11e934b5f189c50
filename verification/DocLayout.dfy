/** Measuring and printing by recursion on the document, and the proof that walking the flat
    stream of a document does exactly that. */
module DocLayout {
  import opened Wrappers
  import opened Document
  import opened Layout

  function Check(budget: Option<int>): Option<int> {
    if budget.None? then None else Charge(budget.value, Some(0))
  }

  // ----- measuring a document -----

  /** Flat width of a whole document, counting both outcomes of every conditional and the text of
      every line suffix, as a detached variant is measured. */
  function SliceCost(o: Options, d: Doc, budget: int): Option<int>
    decreases d, 0
  {
    match d
    case Nothing => Some(budget)
    case Cat(a, b) =>
      var left := SliceCost(o, a, budget);
      if left.None? then None else SliceCost(o, b, left.value)
    case Leaf(a) => Charge(budget, AtomCost(o, a))
    case Fill(sep, es) => if budget < 0 then None else Check(SliceCostEntries(o, sep, es, budget))
    case Best(NoDocs) => Check(Some(budget))
    case Best(Docs(v, _)) => Check(SliceCost(o, v, budget))
    case Group(_, b) => if budget < 0 then None else Check(SliceCost(o, b, budget))
    case Indented(_, b) => if budget < 0 then None else Check(SliceCost(o, b, budget))
    case Conditional(_, _, b) => if budget < 0 then None else Check(SliceCost(o, b, budget))
    case LineSuffix(b) => if budget < 0 then None else Check(SliceCost(o, b, budget))
  }

  function SliceCostEntries(o: Options, sep: LineMode, es: Docs, budget: int): Option<int>
    decreases es, 0
  {
    match es
    case NoDocs => Some(budget)
    case Docs(d, rest) =>
      if budget < 0 then None
      else
        var left := Check(SliceCost(o, d, budget));
        if left.None? || rest == NoDocs then left
        else
          var left' := Charge(left.value, AtomCost(o, Line(sep)));
          if left'.None? then None else SliceCostEntries(o, sep, rest, left'.value)
  }

  /** Flat width of a document inside a measured region: conditionals are resolved against the
      decisions so far and line suffixes cost nothing. */
  function Measure(o: Options, gm: map<GroupId, PrintMode>, d: Doc, budget: int): Option<int>
    decreases d, 0
  {
    match d
    case Nothing => Some(budget)
    case Cat(a, b) =>
      var left := Measure(o, gm, a, budget);
      if left.None? then None else Measure(o, gm, b, left.value)
    case Leaf(a) => Charge(budget, AtomCost(o, a))
    case Fill(sep, es) => if budget < 0 then None else Check(MeasureEntries(o, gm, sep, es, budget))
    case Best(NoDocs) => Check(Some(budget))
    case Best(Docs(v, _)) => Check(SliceCost(o, v, budget))
    case Group(_, b) => if budget < 0 then None else Check(Measure(o, gm, b, budget))
    case Indented(_, b) => if budget < 0 then None else Check(Measure(o, gm, b, budget))
    case Conditional(m, id, b) =>
      if Effective(gm, id) != m then Some(budget)
      else if budget < 0 then None else Check(Measure(o, gm, b, budget))
    case LineSuffix(_) => Check(Some(budget))
  }

  function MeasureEntries(o: Options, gm: map<GroupId, PrintMode>, sep: LineMode, es: Docs, budget: int): Option<int>
    decreases es, 0
  {
    match es
    case NoDocs => Some(budget)
    case Docs(d, rest) =>
      if budget < 0 then None
      else
        var left := Check(Measure(o, gm, d, budget));
        if left.None? || rest == NoDocs then left
        else
          var left' := Charge(left.value, AtomCost(o, Line(sep)));
          if left'.None? then None else MeasureEntries(o, gm, sep, rest, left'.value)
  }

  predicate Fits(o: Options, st: State, d: Doc, extra: int) {
    Measure(o, st.groupModes, d, RemainingWidth(o, st) - extra).Some?
  }

  // ----- printing a document -----

  function DocGroupMode(o: Options, st: State, id: GroupId, body: Doc): PrintMode {
    match Decided(st.groupModes, id)
    case Some(m) => m
    case None => if CurrentMode(st) == Flat || Fits(o, st, body, 0) then Flat else Expanded
  }

  function PrintDoc(o: Options, d: Doc, st: State): State
    decreases d, 0
  {
    match d
    case Nothing => st
    case Cat(a, b) => PrintDoc(o, b, PrintDoc(o, a, st))
    case Leaf(a) => PrintAtom(o, st, a)
    case Group(id, b) => PopMode(PrintDoc(o, b, EnterGroup(st, id, DocGroupMode(o, st, id, b))))
    case Indented(how, b) => PopIndent(PrintDoc(o, b, PushIndent(st, IndentFor(st, how))))
    case Conditional(m, id, b) => if Decided(st.groupModes, id) == Some(m) then PrintDoc(o, b, st) else st
    case Fill(sep, es) => PrintEntries(o, sep, es, st)
    case Best(vs) => PrintBest(o, vs, st)
    case LineSuffix(b) => QueueSuffix(st, Stream(b))
  }

  function PrintEntry(o: Options, d: Doc, st: State): State
    decreases d, 1
  {
    PopMode(PrintDoc(o, d, PushMode(st, if Fits(o, st, d, 0) then Flat else Expanded)))
  }

  function PrintEntries(o: Options, sep: LineMode, es: Docs, st: State): State
    decreases es, 0
  {
    match es
    case NoDocs => st
    case Docs(d, NoDocs) => PrintEntry(o, d, st)
    case Docs(d, rest) => PrintEntries(o, sep, rest, PrintSeparator(o, sep, rest.head, PrintEntry(o, d, st)))
  }

  function PrintSeparator(o: Options, sep: LineMode, next: Doc, st: State): State {
    match sep
    case Hard => EmitNewline(o, st, false)
    case Empty => EmitNewline(o, st, true)
    case _ =>
      if Fits(o, st, next, if sep == SoftOrSpace then 1 else 0) then
        if sep == SoftOrSpace then st.(pendingSpace := true) else st
      else EmitNewline(o, st, false)
  }

  function PrintVariant(o: Options, d: Doc, m: PrintMode, st: State): State
    decreases d, 1
  {
    PopMode(PrintDoc(o, d, PushMode(st, m)))
  }

  function PrintBest(o: Options, vs: Docs, st: State): State
    decreases vs, 0
  {
    match vs
    case NoDocs => st
    case Docs(v, NoDocs) => PrintVariant(o, v, Expanded, st)
    case Docs(v, rest) => if Fits(o, st, v, 0) then PrintVariant(o, v, Flat, st) else PrintBest(o, rest, st)
  }

  // ----- the shape of a stream -----

  lemma Shapes(d: Doc, tail: seq<Element>)
    ensures d.Nothing? ==> Stream(d) + tail == tail
    ensures d.Cat? ==> Stream(d) + tail == Stream(d.first) + (Stream(d.second) + tail)
    ensures d.Leaf? ==> Stream(d) + tail == [Plain(d.atom)] + tail
    ensures d.Best? ==> Stream(d) + tail == [BestFitting(VariantStreams(d.variants))] + tail
    ensures d.Group? ==> Stream(d) + tail == [Mark(StartGroup(d.id))] + Stream(d.body) + [Mark(EndGroup)] + tail
    ensures d.Indented? ==> Stream(d) + tail == [Mark(Opening(d.how))] + Stream(d.body) + [Mark(Closing(d.how))] + tail
    ensures d.Conditional? ==>
              Stream(d) + tail == [Mark(StartConditional(d.mode, d.id))] + Stream(d.body) + [Mark(EndConditional)]
                + tail
    ensures d.LineSuffix? ==>
              Stream(d) + tail == [Mark(StartLineSuffix)] + Stream(d.body) + [Mark(EndLineSuffix)] + tail
    ensures d.Fill? ==>
              Stream(d) + tail == [Mark(StartFill)] + EntryStream(d.separator, d.entries) + [Mark(EndFill)] + tail
  {
    if d.Cat? {
      assert Stream(d) + tail == Stream(d.first) + (Stream(d.second) + tail);
    }
  }

  lemma Lengths(d: Doc)
    ensures d.Nothing? ==> |Stream(d)| == 0
    ensures d.Cat? ==> |Stream(d)| == |Stream(d.first)| + |Stream(d.second)|
    ensures d.Leaf? || d.Best? ==> |Stream(d)| == 1
    ensures d.Group? || d.Indented? || d.Conditional? || d.LineSuffix? ==> |Stream(d)| == |Stream(d.body)| + 2
    ensures d.Fill? ==> |Stream(d)| == |EntryStream(d.separator, d.entries)| + 2
  {
  }

  lemma Nested(left: Element, body: seq<Element>, right: Element, tail: seq<Element>)
    ensures [left] + body + [right] + tail == [left] + (body + ([right] + tail))
  {
  }

  // ----- the flat walks do the same -----

  function Onward(o: Options, left: Option<int>, tail: seq<Element>): Option<int> {
    if left.None? then None else SliceFits(o, tail, left.value)
  }

  lemma SliceMark(o: Options, e: Element, tail: seq<Element>, budget: int)
    requires e.Mark?
    ensures SliceFits(o, [e] + tail, budget) == if budget < 0 then None else SliceFits(o, tail, budget)
  {
    assert ([e] + tail)[1..] == tail;
  }

  lemma SliceAtom(o: Options, a: Atom, tail: seq<Element>, budget: int)
    ensures SliceFits(o, [Plain(a)] + tail, budget) == Onward(o, Charge(budget, AtomCost(o, a)), tail)
  {
    assert ([Plain(a)] + tail)[1..] == tail;
  }

  lemma {:induction false} SliceBest(o: Options, vs: Docs, tail: seq<Element>, budget: int)
    ensures SliceFits(o, [BestFitting(VariantStreams(vs))] + tail, budget)
            == Onward(o, SliceCost(o, Best(vs), budget), tail)
    decreases vs, 1
  {
    assert ([BestFitting(VariantStreams(vs))] + tail)[1..] == tail;
    if vs.Docs? {
      SliceStream(o, vs.head, [], budget);
      assert Stream(vs.head) + [] == Stream(vs.head);
    }
  }

  lemma {:induction false} SliceStream(o: Options, d: Doc, tail: seq<Element>, budget: int)
    ensures SliceFits(o, Stream(d) + tail, budget) == Onward(o, SliceCost(o, d, budget), tail)
    decreases d, 0
  {
    hide SliceFits, Stream, EntryStream, AtomCost;
    Shapes(d, tail);
    match d
    case Nothing =>
    case Cat(a, b) =>
      SliceStream(o, a, Stream(b) + tail, budget);
      var left := SliceCost(o, a, budget);
      if left.Some? { SliceStream(o, b, tail, left.value); }
    case Leaf(a) => SliceAtom(o, a, tail, budget);
    case Best(vs) => SliceBest(o, vs, tail, budget);
    case Group(id, b) => SliceBracketed(o, Mark(StartGroup(id)), b, Mark(EndGroup), tail, budget);
    case Indented(how, b) => SliceBracketed(o, Mark(Opening(how)), b, Mark(Closing(how)), tail, budget);
    case Conditional(m, id, b) =>
      SliceBracketed(o, Mark(StartConditional(m, id)), b, Mark(EndConditional), tail, budget);
    case LineSuffix(b) => SliceBracketed(o, Mark(StartLineSuffix), b, Mark(EndLineSuffix), tail, budget);
    case Fill(sep, es) =>
      var after := [Mark(EndFill)] + tail;
      Nested(Mark(StartFill), EntryStream(sep, es), Mark(EndFill), tail);
      SliceMark(o, Mark(StartFill), EntryStream(sep, es) + after, budget);
      if budget >= 0 {
        SliceEntries(o, sep, es, after, budget);
        if SliceCostEntries(o, sep, es, budget).Some? {
          SliceMark(o, Mark(EndFill), tail, SliceCostEntries(o, sep, es, budget).value);
        }
      }
  }

  lemma {:induction false} SliceBracketed(o: Options, left: Element, b: Doc, right: Element, tail: seq<Element>,
                                          budget: int)
    requires left.Mark? && right.Mark?
    ensures SliceFits(o, [left] + Stream(b) + [right] + tail, budget)
         == Onward(o, if budget < 0 then None else Check(SliceCost(o, b, budget)), tail)
    decreases b, 1
  {
    hide SliceFits, Stream, SliceCost;
    var after := [right] + tail;
    Nested(left, Stream(b), right, tail);
    SliceMark(o, left, Stream(b) + after, budget);
    if budget >= 0 {
      SliceStream(o, b, after, budget);
      if SliceCost(o, b, budget).Some? { SliceMark(o, right, tail, SliceCost(o, b, budget).value); }
    }
  }

  lemma {:induction false} SliceEntries(o: Options, sep: LineMode, es: Docs, tail: seq<Element>, budget: int)
    ensures SliceFits(o, EntryStream(sep, es) + tail, budget) == Onward(o, SliceCostEntries(o, sep, es, budget), tail)
    decreases es, 0
  {
    match es
    case NoDocs => assert EntryStream(sep, es) + tail == tail;
    case Docs(d, rest) =>
      if rest == NoDocs {
        assert EntryStream(sep, es) + tail == [Mark(StartEntry)] + Stream(d) + [Mark(EndEntry)] + tail;
        SliceBracketed(o, Mark(StartEntry), d, Mark(EndEntry), tail, budget);
      } else {
        var after := EntryStream(sep, rest) + tail;
        var next := [Plain(Line(sep))] + after;
        assert EntryStream(sep, es) + tail == [Mark(StartEntry)] + Stream(d) + [Mark(EndEntry)] + next;
        SliceBracketed(o, Mark(StartEntry), d, Mark(EndEntry), next, budget);
        assert next[1..] == after;
        var left := if budget < 0 then None else Check(SliceCost(o, d, budget));
        if left.Some? && Charge(left.value, AtomCost(o, Line(sep))).Some? {
          SliceEntries(o, sep, rest, tail, Charge(left.value, AtomCost(o, Line(sep))).value);
        }
      }
  }

  // ----- skipping -----

  predicate Closes(close: Tag, e: Element) { Opens(close, e) || e == Mark(close) }

  lemma SkipOne(e: Element, tail: seq<Element>, close: Tag, depth: nat)
    requires !Closes(close, e)
    ensures SkipRegion([e] + tail, close, depth) == 1 + SkipRegion(tail, close, depth)
  {
    assert ([e] + tail)[1..] == tail;
  }

  lemma SkipDeeper(e: Element, tail: seq<Element>, close: Tag, depth: nat)
    requires Opens(close, e)
    ensures SkipRegion([e] + tail, close, depth) == 1 + SkipRegion(tail, close, depth + 1)
  {
    assert ([e] + tail)[1..] == tail;
  }

  lemma SkipBack(tail: seq<Element>, close: Tag, depth: nat)
    requires depth >= 2 && !Opens(close, Mark(close))
    ensures SkipRegion([Mark(close)] + tail, close, depth) == 1 + SkipRegion(tail, close, depth - 1)
  {
    assert ([Mark(close)] + tail)[1..] == tail;
  }

  /** A balanced body never closes a region that was open before it. */
  lemma {:induction false} SkipStream(d: Doc, tail: seq<Element>, close: Tag, depth: nat)
    requires close in {EndConditional, EndLineSuffix} && depth >= 1
    ensures SkipRegion(Stream(d) + tail, close, depth) == |Stream(d)| + SkipRegion(tail, close, depth)
    decreases d, 0
  {
    hide SkipRegion, Stream, EntryStream;
    Shapes(d, tail);
    Lengths(d);
    match d
    case Nothing =>
    case Cat(a, b) =>
      SkipStream(a, Stream(b) + tail, close, depth);
      SkipStream(b, tail, close, depth);
    case Leaf(a) => SkipOne(Plain(a), tail, close, depth);
    case Best(vs) => SkipOne(BestFitting(VariantStreams(vs)), tail, close, depth);
    case Group(id, b) => SkipBracketed(StartGroup(id), b, EndGroup, tail, close, depth);
    case Indented(how, b) => SkipBracketed(Opening(how), b, Closing(how), tail, close, depth);
    case Conditional(m, id, b) => SkipBracketed(StartConditional(m, id), b, EndConditional, tail, close, depth);
    case LineSuffix(b) => SkipBracketed(StartLineSuffix, b, EndLineSuffix, tail, close, depth);
    case Fill(sep, es) => SkipFill(sep, es, tail, close, depth);
  }

  lemma {:induction false} SkipFill(sep: LineMode, es: Docs, tail: seq<Element>, close: Tag, depth: nat)
    requires close in {EndConditional, EndLineSuffix} && depth >= 1
    ensures SkipRegion([Mark(StartFill)] + EntryStream(sep, es) + [Mark(EndFill)] + tail, close, depth)
         == |EntryStream(sep, es)| + 2 + SkipRegion(tail, close, depth)
    decreases es, 1
  {
    hide SkipRegion, EntryStream;
    var after := [Mark(EndFill)] + tail;
    Nested(Mark(StartFill), EntryStream(sep, es), Mark(EndFill), tail);
    SkipOne(Mark(StartFill), EntryStream(sep, es) + after, close, depth);
    SkipEntries(sep, es, after, close, depth);
    SkipOne(Mark(EndFill), tail, close, depth);
  }

  lemma {:induction false} SkipBracketed(left: Tag, b: Doc, right: Tag, tail: seq<Element>, close: Tag, depth: nat)
    requires close in {EndConditional, EndLineSuffix} && depth >= 1
    requires left != close && (Opens(close, Mark(left)) <==> right == close) && !Opens(close, Mark(right))
    ensures SkipRegion([Mark(left)] + Stream(b) + [Mark(right)] + tail, close, depth)
         == |Stream(b)| + 2 + SkipRegion(tail, close, depth)
    decreases b, 1
  {
    hide SkipRegion, Stream;
    var after := [Mark(right)] + tail;
    Nested(Mark(left), Stream(b), Mark(right), tail);
    if right == close {
      SkipDeeper(Mark(left), Stream(b) + after, close, depth);
      SkipStream(b, after, close, depth + 1);
      SkipBack(tail, close, depth + 1);
    } else {
      SkipOne(Mark(left), Stream(b) + after, close, depth);
      SkipStream(b, after, close, depth);
      SkipOne(Mark(right), tail, close, depth);
    }
  }

  lemma {:induction false} SkipEntries(sep: LineMode, es: Docs, tail: seq<Element>, close: Tag, depth: nat)
    requires close in {EndConditional, EndLineSuffix} && depth >= 1
    ensures SkipRegion(EntryStream(sep, es) + tail, close, depth)
            == |EntryStream(sep, es)| + SkipRegion(tail, close, depth)
    decreases es, 0
  {
    hide SkipRegion, Stream;
    match es
    case NoDocs => assert EntryStream(sep, es) + tail == tail;
    case Docs(d, rest) =>
      var next := (if rest == NoDocs then [] else [Plain(Line(sep))] + EntryStream(sep, rest)) + tail;
      EntryShape(sep, es, tail, next);
      SkipBracketed(StartEntry, d, EndEntry, next, close, depth);
      if rest == NoDocs {
        assert next == tail;
      } else {
        assert next == [Plain(Line(sep))] + (EntryStream(sep, rest) + tail);
        SkipOne(Plain(Line(sep)), EntryStream(sep, rest) + tail, close, depth);
        SkipEntries(sep, rest, tail, close, depth);
      }
  }

  lemma EntryShape(sep: LineMode, es: Docs, tail: seq<Element>, next: seq<Element>)
    requires es.Docs?
    requires next == (if es.tail == NoDocs then [] else [Plain(Line(sep))] + EntryStream(sep, es.tail)) + tail
    ensures EntryStream(sep, es) + tail == [Mark(StartEntry)] + Stream(es.head) + [Mark(EndEntry)] + next
    ensures EntryStream(sep, es) + tail == [Mark(StartEntry)] + (Stream(es.head) + ([Mark(EndEntry)] + next))
  {
  }

  lemma SkipToClose(d: Doc, close: Tag, tail: seq<Element>)
    requires close in {EndConditional, EndLineSuffix}
    ensures SkipRegion(Stream(d) + ([Mark(close)] + tail), close, 1) == |Stream(d)| + 1
  {
    SkipStream(d, [Mark(close)] + tail, close, 1);
  }

  // ----- measuring -----

  /** Whether the measured region ends at this element. */
  predicate Ends(r: Region, e: Element, depth: int) {
    Track(r, e, depth) == (0, true)
  }

  /** Inside a line suffix the measuring walk only passes over elements. */
  lemma PassOne(o: Options, gm: map<GroupId, PrintMode>, e: Element, tail: seq<Element>, r: Region, depth: int,
                sd: nat, budget: int)
    requires sd >= 1 && budget >= 0 && !Ends(r, e, depth)
    ensures FitsFrom(o, gm, [e] + tail, r, depth, sd, budget)
         == FitsFrom(o, gm, tail, r, Track(r, e, depth).0,
                     if e == Mark(StartLineSuffix) then sd + 1 else if e == Mark(EndLineSuffix) then sd - 1
                       else sd, budget)
  {
    assert ([e] + tail)[1..] == tail;
  }

  /** An element that neither opens nor closes anything the walk counts. */
  lemma PassPlain(o: Options, gm: map<GroupId, PrintMode>, e: Element, tail: seq<Element>, r: Region, depth: int,
                  sd: nat, budget: int)
    requires sd >= 1 && budget >= 0
    requires e.Mark? ==> e.tag == StartFill || e.tag == EndFill
    ensures FitsFrom(o, gm, [e] + tail, r, depth, sd, budget) == FitsFrom(o, gm, tail, r, depth, sd, budget)
  {
    hide FitsFrom;
    PassOne(o, gm, e, tail, r, depth, sd, budget);
  }

  lemma {:induction false} PassStream(o: Options, gm: map<GroupId, PrintMode>, d: Doc, tail: seq<Element>, r: Region,
                                      depth: int, sd: nat, budget: int)
    requires depth >= 1 && sd >= 1 && budget >= 0
    ensures FitsFrom(o, gm, Stream(d) + tail, r, depth, sd, budget) == FitsFrom(o, gm, tail, r, depth, sd, budget)
    decreases d, 0
  {
    hide FitsFrom, Stream, EntryStream, Track;
    Shapes(d, tail);
    match d
    case Nothing =>
    case Cat(a, b) =>
      PassStream(o, gm, a, Stream(b) + tail, r, depth, sd, budget);
      PassStream(o, gm, b, tail, r, depth, sd, budget);
    case Leaf(a) => PassPlain(o, gm, Plain(a), tail, r, depth, sd, budget);
    case Best(vs) => PassPlain(o, gm, BestFitting(VariantStreams(vs)), tail, r, depth, sd, budget);
    case Group(id, b) => PassBracketed(o, gm, StartGroup(id), b, EndGroup, tail, r, depth, sd, budget);
    case Indented(how, b) => PassBracketed(o, gm, Opening(how), b, Closing(how), tail, r, depth, sd, budget);
    case Conditional(m, id, b) =>
      PassBracketed(o, gm, StartConditional(m, id), b, EndConditional, tail, r, depth, sd, budget);
    case LineSuffix(b) => PassBracketed(o, gm, StartLineSuffix, b, EndLineSuffix, tail, r, depth, sd, budget);
    case Fill(sep, es) =>
      Nested(Mark(StartFill), EntryStream(sep, es), Mark(EndFill), tail);
      PassPlain(o, gm, Mark(StartFill), EntryStream(sep, es) + ([Mark(EndFill)] + tail), r, depth, sd, budget);
      PassEntries(o, gm, sep, es, [Mark(EndFill)] + tail, r, depth, sd, budget);
      PassPlain(o, gm, Mark(EndFill), tail, r, depth, sd, budget);
  }

  predicate Pair(left: Tag, right: Tag) {
    && (left.StartGroup? <==> right == EndGroup)
    && (left.StartEntry? <==> right == EndEntry)
    && (left.StartLineSuffix? <==> right == EndLineSuffix)
    && !left.EndGroup? && !left.EndEntry? && !left.EndLineSuffix?
    && !right.StartGroup? && !right.StartEntry? && !right.StartLineSuffix?
  }

  lemma {:induction false} PassBracketed(o: Options, gm: map<GroupId, PrintMode>, left: Tag, b: Doc, right: Tag,
                                         tail: seq<Element>, r: Region, depth: int, sd: nat, budget: int)
    requires depth >= 1 && sd >= 1 && budget >= 0 && Pair(left, right)
    ensures FitsFrom(o, gm, [Mark(left)] + Stream(b) + [Mark(right)] + tail, r, depth, sd, budget)
         == FitsFrom(o, gm, tail, r, depth, sd, budget)
    decreases b, 1
  {
    hide FitsFrom, Stream;
    var after := [Mark(right)] + tail;
    Nested(Mark(left), Stream(b), Mark(right), tail);
    var depth' := Track(r, Mark(left), depth).0;
    var sd' := if left.StartLineSuffix? then sd + 1 else sd;
    PassOne(o, gm, Mark(left), Stream(b) + after, r, depth, sd, budget);
    PassStream(o, gm, b, after, r, depth', sd', budget);
    PassOne(o, gm, Mark(right), tail, r, depth', sd', budget);
  }

  lemma {:induction false} PassEntries(o: Options, gm: map<GroupId, PrintMode>, sep: LineMode, es: Docs,
                                       tail: seq<Element>, r: Region, depth: int, sd: nat, budget: int)
    requires depth >= 1 && sd >= 1 && budget >= 0
    ensures FitsFrom(o, gm, EntryStream(sep, es) + tail, r, depth, sd, budget)
            == FitsFrom(o, gm, tail, r, depth, sd, budget)
    decreases es, 0
  {
    hide FitsFrom, Stream, Track;
    match es
    case NoDocs => assert EntryStream(sep, es) + tail == tail;
    case Docs(d, rest) =>
      var next := (if rest == NoDocs then [] else [Plain(Line(sep))] + EntryStream(sep, rest)) + tail;
      EntryShape(sep, es, tail, next);
      PassBracketed(o, gm, StartEntry, d, EndEntry, next, r, depth, sd, budget);
      if rest == NoDocs {
        assert next == tail;
      } else {
        assert next == [Plain(Line(sep))] + (EntryStream(sep, rest) + tail);
        PassPlain(o, gm, Plain(Line(sep)), EntryStream(sep, rest) + tail, r, depth, sd, budget);
        PassEntries(o, gm, sep, rest, tail, r, depth, sd, budget);
      }
  }

  predicate FitsOn(o: Options, gm: map<GroupId, PrintMode>, left: Option<int>, tail: seq<Element>, r: Region,
                   depth: int) {
    left.Some? && FitsFrom(o, gm, tail, r, depth, 0, left.value)
  }

  lemma MeasureEnd(o: Options, gm: map<GroupId, PrintMode>, e: Element, tail: seq<Element>, r: Region, depth: int,
                   sd: nat, budget: int)
    requires Ends(r, e, depth)
    ensures FitsFrom(o, gm, [e] + tail, r, depth, sd, budget)
  {
  }

  lemma MeasureNothing(o: Options, gm: map<GroupId, PrintMode>, r: Region, depth: int, sd: nat, budget: int)
    ensures FitsFrom(o, gm, [], r, depth, sd, budget)
  {
  }

  /** A tag the measuring walk merely passes, checking the budget. */
  lemma MeasureTag(o: Options, gm: map<GroupId, PrintMode>, t: Tag, tail: seq<Element>, r: Region, depth: int,
                   budget: int)
    requires !Ends(r, Mark(t), depth) && !t.StartConditional?
    ensures FitsFrom(o, gm, [Mark(t)] + tail, r, depth, 0, budget)
         == (budget >= 0 && FitsFrom(o, gm, tail, r, Track(r, Mark(t), depth).0, if t == StartLineSuffix then 1 else 0,
                                     budget))
  {
    assert ([Mark(t)] + tail)[1..] == tail;
  }

  lemma MeasureAtom(o: Options, gm: map<GroupId, PrintMode>, a: Atom, tail: seq<Element>, r: Region, depth: int,
                    budget: int)
    ensures FitsFrom(o, gm, [Plain(a)] + tail, r, depth, 0, budget)
         == FitsOn(o, gm, Charge(budget, AtomCost(o, a)), tail, r, depth)
  {
    assert ([Plain(a)] + tail)[1..] == tail;
  }

  lemma MeasureVariants(o: Options, gm: map<GroupId, PrintMode>, vs: seq<Variant>, tail: seq<Element>, r: Region,
                        depth: int, budget: int)
    ensures FitsFrom(o, gm, [BestFitting(vs)] + tail, r, depth, 0, budget)
         == FitsOn(o, gm, Check(if vs == [] then Some(budget) else SliceFits(o, vs[0].elements, budget)), tail, r,
                   depth)
  {
    assert ([BestFitting(vs)] + tail)[1..] == tail;
  }

  lemma MeasureSkip(o: Options, gm: map<GroupId, PrintMode>, m: PrintMode, id: GroupId, tail: seq<Element>, r: Region,
                    depth: int, budget: int)
    requires Effective(gm, id) != m
    ensures FitsFrom(o, gm, [Mark(StartConditional(m, id))] + tail, r, depth, 0, budget)
         == FitsFrom(o, gm, tail[SkipRegion(tail, EndConditional, 1)..], r, depth, 0, budget)
  {
    assert ([Mark(StartConditional(m, id))] + tail)[1..] == tail;
  }

  function ElementCost(o: Options, e: Element, sd: nat, budget: int): Option<int> {
    if sd > 0 then Some(budget)
    else
      match e
      case Plain(a) => var cost := AtomCost(o, a); if cost.None? then None else Some(budget - cost.value)
      case BestFitting(vs) => if vs == [] then Some(budget) else SliceFits(o, vs[0].elements, budget)
      case Mark(_) => Some(budget)
  }

  function SuffixDepth(e: Element, sd: nat): nat {
    if e == Mark(StartLineSuffix) then sd + 1
    else if e == Mark(EndLineSuffix) && sd > 0 then sd - 1
    else sd
  }

  /** A conditional that the measuring walk passes over. */
  predicate Skips(gm: map<GroupId, PrintMode>, e: Element) {
    e.Mark? && e.tag.StartConditional? && Effective(gm, e.tag.id) != e.tag.mode
  }

  /** One element that neither ends the region nor opens a skipped conditional. */
  lemma MeasureOn(o: Options, gm: map<GroupId, PrintMode>, e: Element, tail: seq<Element>, r: Region, depth: int,
                  sd: nat, budget: int)
    requires !Ends(r, e, depth) && (sd > 0 ==> budget >= 0) && (sd == 0 ==> !Skips(gm, e))
    ensures var left := ElementCost(o, e, sd, budget);
            FitsFrom(o, gm, [e] + tail, r, depth, sd, budget)
            == (left.Some? && left.value >= 0
                && FitsFrom(o, gm, tail, r, Track(r, e, depth).0, SuffixDepth(e, sd), left.value))
  {
    hide FitsFrom, SliceFits, AtomCost;
    if sd > 0 {
      PassOne(o, gm, e, tail, r, depth, sd, budget);
    } else {
      match e
      case Plain(a) => MeasureAtom(o, gm, a, tail, r, depth, budget);
      case BestFitting(vs) => MeasureVariants(o, gm, vs, tail, r, depth, budget);
      case Mark(t) =>
        if t.StartConditional? {
          MeasureKept(o, gm, t.mode, t.id, tail, r, depth, budget);
        } else {
          MeasureTag(o, gm, t, tail, r, depth, budget);
        }
    }
  }

  lemma MeasureBest(o: Options, gm: map<GroupId, PrintMode>, vs: Docs, tail: seq<Element>, r: Region, depth: int,
                    budget: int)
    ensures FitsFrom(o, gm, Stream(Best(vs)) + tail, r, depth, 0, budget)
         == FitsOn(o, gm, Measure(o, gm, Best(vs), budget), tail, r, depth)
  {
    MeasureVariants(o, gm, VariantStreams(vs), tail, r, depth, budget);
    if vs.Docs? {
      SliceStream(o, vs.head, [], budget);
      assert Stream(vs.head) + [] == Stream(vs.head);
    }
  }

  lemma MeasureKept(o: Options, gm: map<GroupId, PrintMode>, m: PrintMode, id: GroupId, tail: seq<Element>, r: Region,
                    depth: int, budget: int)
    requires Effective(gm, id) == m
    ensures FitsFrom(o, gm, [Mark(StartConditional(m, id))] + tail, r, depth, 0, budget)
         == (budget >= 0 && FitsFrom(o, gm, tail, r, depth, 0, budget))
  {
    assert ([Mark(StartConditional(m, id))] + tail)[1..] == tail;
  }

  lemma MeasureSkipped(o: Options, gm: map<GroupId, PrintMode>, m: PrintMode, id: GroupId, b: Doc, tail: seq<Element>,
                       r: Region, depth: int, budget: int)
    requires Effective(gm, id) != m
    ensures FitsFrom(o, gm, Stream(Conditional(m, id, b)) + tail, r, depth, 0, budget)
            == FitsFrom(o, gm, tail, r, depth, 0, budget)
  {
    SkipToClose(b, EndConditional, tail);
    var rest := Stream(b) + ([Mark(EndConditional)] + tail);
    assert Stream(Conditional(m, id, b)) + tail == [Mark(StartConditional(m, id))] + rest;
    MeasureSkip(o, gm, m, id, rest, r, depth, budget);
    assert rest[|Stream(b)| + 1..] == tail;
  }

  /** Measuring the stream of a document is measuring the document. */
  lemma {:induction false} MeasureStream(o: Options, gm: map<GroupId, PrintMode>, d: Doc, tail: seq<Element>,
                                         r: Region, depth: int, budget: int)
    requires depth >= 1
    ensures FitsFrom(o, gm, Stream(d) + tail, r, depth, 0, budget)
         == FitsOn(o, gm, Measure(o, gm, d, budget), tail, r, depth)
    decreases d, 0
  {
    hide FitsFrom, Stream, EntryStream, SliceCost, MeasureEntries, Track, AtomCost, Charge;
    Shapes(d, tail);
    match d
    case Nothing =>
    case Cat(a, b) =>
      MeasureStream(o, gm, a, Stream(b) + tail, r, depth, budget);
      var left := Measure(o, gm, a, budget);
      if left.Some? { MeasureStream(o, gm, b, tail, r, depth, left.value); }
    case Leaf(a) => MeasureAtom(o, gm, a, tail, r, depth, budget);
    case Best(vs) => MeasureBest(o, gm, vs, tail, r, depth, budget);
    case Group(id, b) => MeasureBracketed(o, gm, StartGroup(id), b, EndGroup, tail, r, depth, budget);
    case Indented(how, b) => MeasureBracketed(o, gm, Opening(how), b, Closing(how), tail, r, depth, budget);
    case Conditional(m, id, b) => MeasureConditional(o, gm, m, id, b, tail, r, depth, budget);
    case LineSuffix(b) => MeasureSuffix(o, gm, b, tail, r, depth, budget);
    case Fill(sep, es) => MeasureFill(o, gm, sep, es, tail, r, depth, budget);
  }

  lemma {:induction false} MeasureConditional(o: Options, gm: map<GroupId, PrintMode>, m: PrintMode, id: GroupId,
                                              b: Doc, tail: seq<Element>, r: Region, depth: int, budget: int)
    requires depth >= 1
    ensures FitsFrom(o, gm, Stream(Conditional(m, id, b)) + tail, r, depth, 0, budget)
         == FitsOn(o, gm, Measure(o, gm, Conditional(m, id, b), budget), tail, r, depth)
    decreases b, 1
  {
    hide FitsFrom, Stream;
    Shapes(Conditional(m, id, b), tail);
    if Effective(gm, id) == m {
      var after := [Mark(EndConditional)] + tail;
      Nested(Mark(StartConditional(m, id)), Stream(b), Mark(EndConditional), tail);
      MeasureKept(o, gm, m, id, Stream(b) + after, r, depth, budget);
      if budget >= 0 { MeasureStream(o, gm, b, after, r, depth, budget); }
      var left := if budget < 0 then None else Measure(o, gm, b, budget);
      if left.Some? { MeasureTag(o, gm, EndConditional, tail, r, depth, left.value); }
    } else {
      MeasureSkipped(o, gm, m, id, b, tail, r, depth, budget);
    }
  }

  lemma MeasureSuffix(o: Options, gm: map<GroupId, PrintMode>, b: Doc, tail: seq<Element>, r: Region, depth: int,
                      budget: int)
    requires depth >= 1
    ensures FitsFrom(o, gm, Stream(LineSuffix(b)) + tail, r, depth, 0, budget)
         == FitsOn(o, gm, Measure(o, gm, LineSuffix(b), budget), tail, r, depth)
  {
    hide FitsFrom, Stream;
    Shapes(LineSuffix(b), tail);
    var after := [Mark(EndLineSuffix)] + tail;
    Nested(Mark(StartLineSuffix), Stream(b), Mark(EndLineSuffix), tail);
    MeasureTag(o, gm, StartLineSuffix, Stream(b) + after, r, depth, budget);
    if budget >= 0 {
      PassStream(o, gm, b, after, r, depth, 1, budget);
      PassOne(o, gm, Mark(EndLineSuffix), tail, r, depth, 1, budget);
    }
  }

  lemma {:induction false} MeasureFill(o: Options, gm: map<GroupId, PrintMode>, sep: LineMode, es: Docs,
                                       tail: seq<Element>, r: Region, depth: int, budget: int)
    requires depth >= 1
    ensures FitsFrom(o, gm, Stream(Fill(sep, es)) + tail, r, depth, 0, budget)
         == FitsOn(o, gm, Measure(o, gm, Fill(sep, es), budget), tail, r, depth)
    decreases es, 1
  {
    hide FitsFrom, Stream, EntryStream, MeasureEntries;
    Shapes(Fill(sep, es), tail);
    var after := [Mark(EndFill)] + tail;
    Nested(Mark(StartFill), EntryStream(sep, es), Mark(EndFill), tail);
    MeasureTag(o, gm, StartFill, EntryStream(sep, es) + after, r, depth, budget);
    if budget >= 0 {
      MeasureEntryStream(o, gm, sep, es, after, r, depth, budget);
      var left := MeasureEntries(o, gm, sep, es, budget);
      if left.Some? { MeasureTag(o, gm, EndFill, tail, r, depth, left.value); }
    }
  }

  lemma {:induction false} MeasureBracketed(o: Options, gm: map<GroupId, PrintMode>, left: Tag, b: Doc, right: Tag,
                                            tail: seq<Element>, r: Region, depth: int, budget: int)
    requires depth >= 1 && Pair(left, right) && !left.StartLineSuffix? && !left.StartConditional?
             && !right.StartConditional?
    ensures FitsFrom(o, gm, [Mark(left)] + Stream(b) + [Mark(right)] + tail, r, depth, 0, budget)
         == FitsOn(o, gm, if budget < 0 then None else Check(Measure(o, gm, b, budget)), tail, r, depth)
    decreases b, 1
  {
    hide FitsFrom, Stream, Measure;
    var after := [Mark(right)] + tail;
    Nested(Mark(left), Stream(b), Mark(right), tail);
    var depth' := Track(r, Mark(left), depth).0;
    MeasureTag(o, gm, left, Stream(b) + after, r, depth, budget);
    if budget >= 0 {
      MeasureStream(o, gm, b, after, r, depth', budget);
      var inner := Measure(o, gm, b, budget);
      if inner.Some? { MeasureTag(o, gm, right, tail, r, depth', inner.value); }
    }
  }

  lemma {:induction false} MeasureEntryStream(o: Options, gm: map<GroupId, PrintMode>, sep: LineMode, es: Docs,
                                              tail: seq<Element>, r: Region, depth: int, budget: int)
    requires depth >= 1
    ensures FitsFrom(o, gm, EntryStream(sep, es) + tail, r, depth, 0, budget)
         == FitsOn(o, gm, MeasureEntries(o, gm, sep, es, budget), tail, r, depth)
    decreases es, 0
  {
    hide FitsFrom, Stream, Track, AtomCost, Measure;
    match es
    case NoDocs => assert EntryStream(sep, es) + tail == tail;
    case Docs(d, rest) =>
      var next := (if rest == NoDocs then [] else [Plain(Line(sep))] + EntryStream(sep, rest)) + tail;
      EntryShape(sep, es, tail, next);
      MeasureBracketed(o, gm, StartEntry, d, EndEntry, next, r, depth, budget);
      var left := if budget < 0 then None else Check(Measure(o, gm, d, budget));
      if rest == NoDocs {
        assert next == tail;
      } else if left.Some? {
        assert next == [Plain(Line(sep))] + (EntryStream(sep, rest) + tail);
        MeasureAtom(o, gm, Line(sep), EntryStream(sep, rest) + tail, r, depth, left.value);
        var left' := Charge(left.value, AtomCost(o, Line(sep)));
        if left'.Some? { MeasureEntryStream(o, gm, sep, rest, tail, r, depth, left'.value); }
      }
  }

  lemma MeasureRegion(o: Options, gm: map<GroupId, PrintMode>, d: Doc, close: Tag, tail: seq<Element>, r: Region,
                      budget: int)
    requires (r == GroupRegion && close == EndGroup) || (r == EntryRegion && close == EndEntry)
    ensures FitsFrom(o, gm, Stream(d) + ([Mark(close)] + tail), r, 1, 0, budget) == Measure(o, gm, d, budget).Some?
  {
    MeasureStream(o, gm, d, [Mark(close)] + tail, r, 1, budget);
  }

  lemma MeasureWhole(o: Options, gm: map<GroupId, PrintMode>, d: Doc, budget: int)
    ensures FitsFrom(o, gm, Stream(d), WholeRegion, 1, 0, budget) == Measure(o, gm, d, budget).Some?
  {
    assert Stream(d) + [] == Stream(d);
    MeasureStream(o, gm, d, [], WholeRegion, 1, budget);
  }

  // ----- printing -----

  function After(n: nat, r: (nat, State)): (nat, State) { (n + r.0, r.1) }

  /** The loop takes one step and goes on with what is left. */
  lemma LoopOn(o: Options, whole: seq<Element>, n: nat, st: State, st': State, tail: seq<Element>, inEntry: bool)
    requires whole != [] && whole[0] != Mark(EndEntry)
    requires Step(o, whole, st) == (n, st') && whole[n..] == tail
    ensures Loop(o, whole, st, inEntry) == After(n, Loop(o, tail, st', inEntry))
  {
    hide Step;
  }

  lemma LoopDone(o: Options, rest: seq<Element>, st: State, inEntry: bool)
    requires rest == [] || (inEntry && rest[0] == Mark(EndEntry))
    ensures Loop(o, rest, st, inEntry) == (0, st)
  {
    hide Step;
  }

  /** What each kind of element does on its own. */
  function OneStep(o: Options, e: Element, st: State): State
    requires !e.BestFitting?
  {
    match e
    case Plain(a) => PrintAtom(o, st, a)
    case Mark(EndGroup) => PopMode(st)
    case Mark(StartIndent) => PushIndent(st, IndentFor(st, ByLevel))
    case Mark(StartAlign(n)) => PushIndent(st, IndentFor(st, ByAlign(n)))
    case Mark(StartIndentIfGroupBreaks(id)) => PushIndent(st, IndentFor(st, IfBreaks(id)))
    case Mark(EndIndent) => PopIndent(st)
    case Mark(EndAlign) => PopIndent(st)
    case Mark(EndIndentIfGroupBreaks) => PopIndent(st)
    case _ => st
  }

  lemma LoopOne(o: Options, e: Element, tail: seq<Element>, st: State, inEntry: bool)
    requires !e.BestFitting? && e != Mark(EndEntry)
    requires e.Mark? ==> !e.tag.StartGroup? && !e.tag.StartConditional? && !e.tag.StartFill? && !e.tag.StartLineSuffix?
    ensures Loop(o, [e] + tail, st, inEntry) == After(1, Loop(o, tail, OneStep(o, e, st), inEntry))
  {
    assert Step(o, [e] + tail, st) == (1, OneStep(o, e, st)) by { hide Loop, FillFlat, BestFlat; }
    LoopOn(o, [e] + tail, 1, st, OneStep(o, e, st), tail, inEntry);
  }

  lemma StepGroup(o: Options, id: GroupId, rest: seq<Element>, st: State)
    ensures Step(o, [Mark(StartGroup(id))] + rest, st) == (1, EnterGroup(st, id, GroupMode(o, st, id, rest)))
  {
    hide Loop, FillFlat, BestFlat, GroupMode;
    assert ([Mark(StartGroup(id))] + rest)[1..] == rest;
  }

  lemma StepConditional(o: Options, m: PrintMode, id: GroupId, rest: seq<Element>, st: State)
    ensures Step(o, [Mark(StartConditional(m, id))] + rest, st)
         == (if Decided(st.groupModes, id) == Some(m) then 1 else 1 + SkipRegion(rest, EndConditional, 1), st)
  {
    hide Loop, FillFlat, BestFlat, SkipRegion;
    assert ([Mark(StartConditional(m, id))] + rest)[1..] == rest;
  }

  lemma StepSuffix(o: Options, rest: seq<Element>, st: State)
    requires SkipRegion(rest, EndLineSuffix, 1) >= 1
    ensures var n := SkipRegion(rest, EndLineSuffix, 1);
            Step(o, [Mark(StartLineSuffix)] + rest, st) == (1 + n, QueueSuffix(st, rest[..n - 1]))
  {
    hide Loop, FillFlat, BestFlat, SkipRegion;
    var whole := [Mark(StartLineSuffix)] + rest;
    var n := SkipRegion(rest, EndLineSuffix, 1);
    assert whole[1..] == rest;
    assert whole[1..n] == rest[..n - 1];
  }

  lemma StepFill(o: Options, rest: seq<Element>, st: State)
    ensures Step(o, [Mark(StartFill)] + rest, st) == After(1, FillFlat(o, rest, st))
  {
    hide Loop, FillFlat, BestFlat, SkipRegion;
    assert ([Mark(StartFill)] + rest)[1..] == rest;
  }

  lemma StepBest(o: Options, vs: seq<Variant>, rest: seq<Element>, st: State)
    ensures Step(o, [BestFitting(vs)] + rest, st) == (1, BestFlat(o, vs, st))
  {
    hide Loop, FillFlat, BestFlat, SkipRegion;
  }

  /** Printing the stream of a document is printing the document. */
  lemma {:induction false} PrintStream(o: Options, d: Doc, tail: seq<Element>, st: State, inEntry: bool)
    ensures Loop(o, Stream(d) + tail, st, inEntry) == After(|Stream(d)|, Loop(o, tail, PrintDoc(o, d, st), inEntry))
    decreases d, 1
  {
    hide Loop, Step, PrintAtom, FillFlat, BestFlat, Stream, EntryStream, PrintEntries, PrintBest, IndentFor;
    Shapes(d, tail);
    Lengths(d);
    match d
    case Nothing =>
    case Cat(a, b) =>
      PrintStream(o, a, Stream(b) + tail, st, inEntry);
      PrintStream(o, b, tail, PrintDoc(o, a, st), inEntry);
    case Leaf(a) => LoopOne(o, Plain(a), tail, st, inEntry);
    case Best(vs) => PrintBestStream(o, vs, tail, st, inEntry);
    case Group(id, b) => PrintGroupStream(o, id, b, tail, st, inEntry);
    case Indented(how, b) => PrintIndentedStream(o, how, b, tail, st, inEntry);
    case Conditional(m, id, b) => PrintConditionalStream(o, m, id, b, tail, st, inEntry);
    case LineSuffix(b) => PrintSuffixStream(o, b, tail, st, inEntry);
    case Fill(sep, es) => PrintFillStream(o, sep, es, tail, st, inEntry);
  }

  lemma {:induction false} PrintBestStream(o: Options, vs: Docs, tail: seq<Element>, st: State, inEntry: bool)
    ensures Loop(o, Stream(Best(vs)) + tail, st, inEntry) == After(1, Loop(o, tail, PrintDoc(o, Best(vs), st), inEntry))
    decreases vs, 2
  {
    hide Loop, Step, BestFlat, PrintBest, VariantStreams;
    var whole := Stream(Best(vs)) + tail;
    BestStream(o, vs, st);
    StepBest(o, VariantStreams(vs), tail, st);
    assert whole == [BestFitting(VariantStreams(vs))] + tail && whole[1..] == tail;
    LoopOn(o, whole, 1, st, PrintBest(o, vs, st), tail, inEntry);
  }

  lemma {:induction false} PrintIndentedStream(o: Options, how: Indentation, b: Doc, tail: seq<Element>, st: State,
                                               inEntry: bool)
    ensures Loop(o, Stream(Indented(how, b)) + tail, st, inEntry)
         == After(|Stream(b)| + 2, Loop(o, tail, PrintDoc(o, Indented(how, b), st), inEntry))
    decreases b, 2
  {
    hide Loop, Step, Stream;
    Shapes(Indented(how, b), tail);
    var after := [Mark(Closing(how))] + tail;
    var st1 := PushIndent(st, IndentFor(st, how));
    Nested(Mark(Opening(how)), Stream(b), Mark(Closing(how)), tail);
    LoopOne(o, Mark(Opening(how)), Stream(b) + after, st, inEntry);
    PrintStream(o, b, after, st1, inEntry);
    LoopOne(o, Mark(Closing(how)), tail, PrintDoc(o, b, st1), inEntry);
  }

  lemma {:induction false} PrintFillStream(o: Options, sep: LineMode, es: Docs, tail: seq<Element>, st: State,
                                           inEntry: bool)
    ensures Loop(o, Stream(Fill(sep, es)) + tail, st, inEntry)
         == After(|EntryStream(sep, es)| + 2, Loop(o, tail, PrintDoc(o, Fill(sep, es), st), inEntry))
    decreases es, 2
  {
    hide Loop, Step, FillFlat, EntryStream, Stream, PrintEntries;
    Shapes(Fill(sep, es), tail);
    FillStream(o, sep, es, tail, st);
    var n := |EntryStream(sep, es)| + 2;
    var rest := EntryStream(sep, es) + ([Mark(EndFill)] + tail);
    var whole := [Mark(StartFill)] + rest;
    Nested(Mark(StartFill), EntryStream(sep, es), Mark(EndFill), tail);
    StepFill(o, rest, st);
    assert whole[n..] == tail;
    LoopOn(o, whole, n, st, PrintEntries(o, sep, es, st), tail, inEntry);
  }

  lemma LoopEndGroup(o: Options, tail: seq<Element>, st: State, inEntry: bool)
    ensures Loop(o, [Mark(EndGroup)] + tail, st, inEntry) == After(1, Loop(o, tail, PopMode(st), inEntry))
  {
    hide Loop;
    LoopOne(o, Mark(EndGroup), tail, st, inEntry);
  }

  lemma SameGroupMode(o: Options, id: GroupId, b: Doc, tail: seq<Element>, st: State)
    ensures GroupMode(o, st, id, Stream(b) + ([Mark(EndGroup)] + tail)) == DocGroupMode(o, st, id, b)
  {
    hide FitsFrom, Stream, Measure, RemainingWidth;
    MeasureRegion(o, st.groupModes, b, EndGroup, tail, GroupRegion, RemainingWidth(o, st));
  }

  lemma {:induction false} PrintGroupStream(o: Options, id: GroupId, b: Doc, tail: seq<Element>, st: State,
                                            inEntry: bool)
    ensures Loop(o, Stream(Group(id, b)) + tail, st, inEntry)
         == After(|Stream(Group(id, b))|, Loop(o, tail, PrintDoc(o, Group(id, b), st), inEntry))
    decreases b, 2
  {
    hide Loop, Step, FitsFrom, Stream, GroupMode, DocGroupMode, OneStep;
    Shapes(Group(id, b), tail);
    Lengths(Group(id, b));
    var after := [Mark(EndGroup)] + tail;
    var rest := Stream(b) + after;
    var whole := [Mark(StartGroup(id))] + rest;
    Nested(Mark(StartGroup(id)), Stream(b), Mark(EndGroup), tail);
    SameGroupMode(o, id, b, tail, st);
    var st1 := EnterGroup(st, id, DocGroupMode(o, st, id, b));
    StepGroup(o, id, rest, st);
    assert whole[1..] == rest;
    LoopOn(o, whole, 1, st, st1, rest, inEntry);
    PrintStream(o, b, after, st1, inEntry);
    LoopEndGroup(o, tail, PrintDoc(o, b, st1), inEntry);
  }

  lemma {:induction false} PrintConditionalStream(o: Options, m: PrintMode, id: GroupId, b: Doc, tail: seq<Element>,
                                                  st: State, inEntry: bool)
    ensures Loop(o, Stream(Conditional(m, id, b)) + tail, st, inEntry)
         == After(|Stream(b)| + 2, Loop(o, tail, PrintDoc(o, Conditional(m, id, b), st), inEntry))
    decreases b, 2
  {
    hide Loop, Step, SkipRegion, Stream;
    Shapes(Conditional(m, id, b), tail);
    var after := [Mark(EndConditional)] + tail;
    var rest := Stream(b) + after;
    var whole := [Mark(StartConditional(m, id))] + rest;
    Nested(Mark(StartConditional(m, id)), Stream(b), Mark(EndConditional), tail);
    StepConditional(o, m, id, rest, st);
    if Decided(st.groupModes, id) == Some(m) {
      assert whole[1..] == rest;
      LoopOn(o, whole, 1, st, st, rest, inEntry);
      PrintStream(o, b, after, st, inEntry);
      LoopOne(o, Mark(EndConditional), tail, PrintDoc(o, b, st), inEntry);
    } else {
      SkipToClose(b, EndConditional, tail);
      assert whole[|Stream(b)| + 2..] == tail;
      LoopOn(o, whole, |Stream(b)| + 2, st, st, tail, inEntry);
    }
  }

  lemma PrintSuffixStream(o: Options, b: Doc, tail: seq<Element>, st: State, inEntry: bool)
    ensures Loop(o, Stream(LineSuffix(b)) + tail, st, inEntry)
         == After(|Stream(b)| + 2, Loop(o, tail, PrintDoc(o, LineSuffix(b), st), inEntry))
  {
    hide Loop, Step, SkipRegion;
    SkipToClose(b, EndLineSuffix, tail);
    var whole := Stream(LineSuffix(b)) + tail;
    var rest := Stream(b) + ([Mark(EndLineSuffix)] + tail);
    assert whole == [Mark(StartLineSuffix)] + rest;
    StepSuffix(o, rest, st);
    assert rest[..|Stream(b)|] == Stream(b);
    assert whole[|Stream(b)| + 2..] == tail;
    LoopOn(o, whole, |Stream(b)| + 2, st, QueueSuffix(st, Stream(b)), tail, inEntry);
  }

  lemma {:induction false} WholeStream(o: Options, d: Doc, st: State)
    ensures Loop(o, Stream(d), st, false) == (|Stream(d)|, PrintDoc(o, d, st))
    decreases d, 2
  {
    assert Stream(d) + [] == Stream(d);
    PrintStream(o, d, [], st, false);
  }

  lemma {:induction false} BestStream(o: Options, vs: Docs, st: State)
    ensures BestFlat(o, VariantStreams(vs), st) == PrintBest(o, vs, st)
    decreases vs, 0
  {
    if vs.Docs? {
      var vss := VariantStreams(vs);
      assert vss[1..] == VariantStreams(vs.tail);
      MeasureWhole(o, st.groupModes, vs.head, RemainingWidth(o, st));
      WholeStream(o, vs.head, PushMode(st, Expanded));
      WholeStream(o, vs.head, PushMode(st, Flat));
      BestStream(o, vs.tail, st);
    }
  }

  /** The three ways the fill loop goes on. */
  lemma FillEnds(o: Options, tail: seq<Element>, st: State)
    ensures FillFlat(o, [Mark(EndFill)] + tail, st) == (1, st)
  {
    hide Loop, Step;
  }

  lemma FillSeparates(o: Options, sep: LineMode, rest: seq<Element>, st: State)
    ensures FillFlat(o, [Plain(Line(sep))] + rest, st) == After(1, FillFlat(o, rest, FillSeparator(o, sep, rest, st)))
  {
    hide Loop, Step, FillSeparator;
    assert ([Plain(Line(sep))] + rest)[1..] == rest;
  }

  lemma FillEntersWhole(o: Options, whole: seq<Element>, k: nat, st: State)
    requires whole != [] && whole[0] == Mark(StartEntry)
    requires EntryFlat(o, whole[1..], st).0 == k && k + 2 <= |whole|
    ensures FillFlat(o, whole, st) == After(k + 2, FillFlat(o, whole[k + 2..], PopMode(EntryFlat(o, whole[1..], st).1)))
  {
    hide Loop, Step, EntryFlat, FillSeparator, PopMode;
  }

  lemma FillEnters(o: Options, body: seq<Element>, k: nat, next: seq<Element>, st: State, st': State)
    requires EntryFlat(o, body, st) == (k, st')
    requires k < |body| && body[k + 1..] == next
    ensures FillFlat(o, [Mark(StartEntry)] + body, st) == After(k + 2, FillFlat(o, next, PopMode(st')))
  {
    hide FillFlat, EntryFlat, PopMode;
    var whole := [Mark(StartEntry)] + body;
    assert whole[1..] == body;
    assert whole[k + 2..] == next;
    FillEntersWhole(o, whole, k, st);
  }

  lemma FillNothing(o: Options, st: State)
    ensures FillFlat(o, [], st) == (0, st)
  {
  }

  lemma FillUnclosed(o: Options, body: seq<Element>, st: State, st': State)
    requires EntryFlat(o, body, st) == (|body|, st')
    ensures FillFlat(o, [Mark(StartEntry)] + body, st) == (|body| + 1, st')
  {
    hide Loop, Step, EntryFlat, FillSeparator;
    assert ([Mark(StartEntry)] + body)[1..] == body;
  }

  lemma FillOther(o: Options, whole: seq<Element>, k: nat, st: State, st': State)
    requires whole != [] && !(whole[0].Mark? && (whole[0].tag.EndFill? || whole[0].tag.StartEntry?))
    requires !(whole[0].Plain? && whole[0].atom.Line?)
    requires Step(o, whole, st) == (k, st')
    ensures FillFlat(o, whole, st) == After(k, FillFlat(o, whole[k..], st'))
  {
    hide Loop, Step;
  }

  lemma {:induction false} FillStream(o: Options, sep: LineMode, es: Docs, tail: seq<Element>, st: State)
    ensures FillFlat(o, EntryStream(sep, es) + ([Mark(EndFill)] + tail), st)
         == (|EntryStream(sep, es)| + 1, PrintEntries(o, sep, es, st))
    decreases es, 0
  {
    hide FillFlat, Loop, Step, PrintEntry, FillSeparator, PrintSeparator;
    var last := [Mark(EndFill)] + tail;
    match es
    case NoDocs =>
      assert EntryStream(sep, es) + last == last;
      FillEnds(o, tail, st);
    case Docs(d, rest) =>
      var next := (if rest == NoDocs then [] else [Plain(Line(sep))] + EntryStream(sep, rest)) + last;
      EntryShape(sep, es, last, next);
      FillEntry(o, d, next, st);
      var st1 := PrintEntry(o, d, st);
      if rest == NoDocs {
        assert next == last;
        FillEnds(o, tail, st1);
      } else {
        var more := EntryStream(sep, rest) + last;
        assert next == [Plain(Line(sep))] + more;
        FillSeparates(o, sep, more, st1);
        SeparatorStream(o, sep, rest, last, st1);
        FillStream(o, sep, rest, tail, PrintSeparator(o, sep, rest.head, st1));
      }
  }

  lemma LoopStops(o: Options, next: seq<Element>, st: State)
    ensures Loop(o, [Mark(EndEntry)] + next, st, true) == (0, st)
  {
    hide Step;
  }

  lemma {:induction false} FillEntry(o: Options, d: Doc, next: seq<Element>, st: State)
    ensures FillFlat(o, [Mark(StartEntry)] + (Stream(d) + ([Mark(EndEntry)] + next)), st)
         == After(|Stream(d)| + 2, FillFlat(o, next, PrintEntry(o, d, st)))
    decreases d, 2
  {
    hide FillFlat, Step, FitsFrom, Stream, Measure, RemainingWidth, Loop;
    var last := [Mark(EndEntry)] + next;
    var body := Stream(d) + last;
    MeasureRegion(o, st.groupModes, d, EndEntry, next, EntryRegion, RemainingWidth(o, st));
    var m := if Fits(o, st, d, 0) then Flat else Expanded;
    var inner := PushMode(st, m);
    PrintStream(o, d, last, inner, true);
    LoopStops(o, next, PrintDoc(o, d, inner));
    assert body[|Stream(d)| + 1..] == next;
    FillEnters(o, body, |Stream(d)|, next, st, PrintDoc(o, d, inner));
  }

  lemma SeparatorStream(o: Options, sep: LineMode, es: Docs, tail: seq<Element>, st: State)
    requires es.Docs?
    ensures FillSeparator(o, sep, EntryStream(sep, es) + tail, st) == PrintSeparator(o, sep, es.head, st)
  {
    hide FitsFrom, Stream, EntryStream, Measure, RemainingWidth, EmitNewline;
    var d := es.head;
    var next := (if es.tail == NoDocs then [] else [Plain(Line(sep))] + EntryStream(sep, es.tail)) + tail;
    var whole := EntryStream(sep, es) + tail;
    EntryShape(sep, es, tail, next);
    assert whole[1..] == Stream(d) + ([Mark(EndEntry)] + next);
    MeasureRegion(o, st.groupModes, d, EndEntry, next, EntryRegion,
                  RemainingWidth(o, st) - (if sep == SoftOrSpace then 1 else 0));
  }
}
