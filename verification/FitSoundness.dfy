/** Measuring and printing are two different walks. This is the proof that they agree: content the
    measuring walk lets through prints on one line and inside the line width. */
module FitSoundness {
  import opened Wrappers
  import opened Document
  import opened Layout
  import opened DocLayout
  import opened Conservation
  import opened Propagate

  /** Tokens are single-line and a best-fitting element has at least two variants. */
  predicate WellFormed(d: Doc)
    decreases d
  {
    match d
    case Nothing => true
    case Cat(a, b) => WellFormed(a) && WellFormed(b)
    case Leaf(Token(s)) => '\n' !in s
    case Leaf(_) => true
    case Group(_, b) => WellFormed(b)
    case Indented(_, b) => WellFormed(b)
    case Conditional(_, _, b) => WellFormed(b)
    case Fill(_, es) => AllWellFormed(es)
    case Best(vs) => Count(vs) >= 2 && AllWellFormed(vs)
    case LineSuffix(b) => WellFormed(b)
  }

  predicate AllWellFormed(ds: Docs)
    decreases ds
  {
    match ds
    case NoDocs => true
    case Docs(d, rest) => WellFormed(d) && AllWellFormed(rest)
  }

  /** No group that printing the document flat can reach is already decided to be expanded. */
  predicate Unforced(d: Doc, gm: Modes)
    decreases d
  {
    match d
    case Nothing => true
    case Cat(a, b) => Unforced(a, gm) && Unforced(b, gm)
    case Leaf(_) => true
    case Group(id, b) => Effective(gm, id) == Flat && Unforced(b, gm)
    case Indented(_, b) => Unforced(b, gm)
    case Conditional(m, id, b) => Effective(gm, id) == m ==> Unforced(b, gm)
    case Fill(_, es) => AllUnforced(es, gm)
    case Best(NoDocs) => true
    case Best(Docs(v, _)) => Unforced(v, gm)
    case LineSuffix(_) => true
  }

  predicate AllUnforced(ds: Docs, gm: Modes)
    decreases ds
  {
    match ds
    case NoDocs => true
    case Docs(d, rest) => Unforced(d, gm) && AllUnforced(rest, gm)
  }

  // ----- a walk that looks only at what can go wrong -----

  /** `boundary`: a boundary met a queued line suffix. `line`: a line was met in expanded mode, in a group
      that had been decided before. `early`: an indent tag came, before any break, while the line's own
      indentation was still pending, so that more of it is printed than was measured. */
  datatype Walk = Walk(modes: Modes, queued: bool, pendingIndent: bool, boundary: bool, line: bool, early: bool) {
    predicate Broke() { boundary || line }
  }

  /** Measured content as it is printed in mode `m`: a group decided before keeps its decision, and
      everything else that is measured again is flat. */
  function FlatWalk(d: Doc, m: PrintMode, w: Walk): Walk
    decreases d
  {
    match d
    case Nothing => w
    case Cat(a, b) => FlatWalk(b, m, FlatWalk(a, m, w))
    case Leaf(a) => AtomWalk(a, m, w)
    case Group(id, b) => FlatWalk(b, Effective(w.modes, id), w.(modes := w.modes[id := Effective(w.modes, id)]))
    case Indented(_, b) => FlatWalk(b, m, IndentWalk(w))
    case Conditional(cm, id, b) => if Decided(w.modes, id) == Some(cm) then FlatWalk(b, m, w) else w
    case Fill(_, es) => FlatWalkAll(es, w)
    case Best(NoDocs) => w
    case Best(Docs(v, _)) => FlatWalk(v, Flat, w)
    case LineSuffix(b) => w.(queued := w.queued || Stream(b) != [])
  }

  function AtomWalk(a: Atom, m: PrintMode, w: Walk): Walk {
    match a
    case Token(_) => w.(pendingIndent := false)
    case Text(_) => w.(pendingIndent := false)
    case LineSuffixBoundary => if w.queued then w.(boundary := true) else w
    case Line(_) => if m == Expanded then w.(line := true) else w
    case _ => w
  }

  function IndentWalk(w: Walk): Walk { if w.pendingIndent && !w.Broke() then w.(early := true) else w }

  function FlatWalkAll(ds: Docs, w: Walk): Walk
    decreases ds
  {
    match ds
    case NoDocs => w
    case Docs(d, rest) => FlatWalkAll(rest, FlatWalk(d, Flat, w))
  }

  function WalkFrom(st: State): Walk {
    Walk(st.groupModes, st.suffixes != [], st.pendingIndent, false, false, false)
  }

  /** `w'` comes later on the same walk. */
  predicate Later(w: Walk, w': Walk) {
    && (w.boundary ==> w'.boundary) && (w.line ==> w'.line) && (w.early ==> w'.early)
    && (w'.pendingIndent ==> w.pendingIndent)
  }

  lemma {:induction false} WalkSticks(d: Doc, m: PrintMode, w: Walk)
    ensures Later(w, FlatWalk(d, m, w))
    decreases d
  {
    match d
    case Cat(a, b) => WalkSticks(a, m, w); WalkSticks(b, m, FlatWalk(a, m, w));
    case Group(id, b) => WalkSticks(b, Effective(w.modes, id), w.(modes := w.modes[id := Effective(w.modes, id)]));
    case Indented(_, b) => WalkSticks(b, m, IndentWalk(w));
    case Conditional(_, _, b) => WalkSticks(b, m, w);
    case Fill(_, es) => WalkSticksAll(es, w);
    case Best(vs) => if vs.Docs? { WalkSticks(vs.head, Flat, w); }
    case _ =>
  }

  lemma {:induction false} WalkSticksAll(ds: Docs, w: Walk)
    ensures Later(w, FlatWalkAll(ds, w))
    decreases ds
  {
    if ds.Docs? {
      WalkSticks(ds.head, Flat, w);
      WalkSticksAll(ds.tail, FlatWalk(ds.head, Flat, w));
    }
  }

  // ----- decisions taken while printing flat -----

  /** `gm'` decides everything `gm` does in the same way and has decided nothing else but `Flat`. */
  ghost predicate Extends(gm: Modes, gm': Modes) {
    && (forall id :: id in gm ==> id in gm' && gm'[id] == gm[id])
    && (forall id :: id in gm' && id !in gm ==> gm'[id] == Flat)
  }

  lemma SameEffective(gm: Modes, gm': Modes, id: GroupId)
    requires Extends(gm, gm')
    ensures Effective(gm', id) == Effective(gm, id)
  {
  }

  lemma {:induction false} SameMeasure(o: Options, gm: Modes, gm': Modes, d: Doc, budget: int)
    requires Extends(gm, gm')
    ensures Measure(o, gm', d, budget) == Measure(o, gm, d, budget)
    decreases d
  {
    hide SliceCost;
    match d
    case Cat(a, b) =>
      SameMeasure(o, gm, gm', a, budget);
      var left := Measure(o, gm, a, budget);
      if left.Some? { SameMeasure(o, gm, gm', b, left.value); }
    case Group(id, b) => SameMeasure(o, gm, gm', b, budget);
    case Indented(_, b) => SameMeasure(o, gm, gm', b, budget);
    case Conditional(m, id, b) => SameMeasure(o, gm, gm', b, budget);
    case Fill(sep, es) => SameMeasureEntries(o, gm, gm', sep, es, budget);
    case _ =>
  }

  lemma {:induction false} SameMeasureEntries(o: Options, gm: Modes, gm': Modes, sep: LineMode, es: Docs, budget: int)
    requires Extends(gm, gm')
    ensures MeasureEntries(o, gm', sep, es, budget) == MeasureEntries(o, gm, sep, es, budget)
    decreases es
  {
    if es.Docs? {
      SameMeasure(o, gm, gm', es.head, budget);
      var left := if budget < 0 then None else Check(Measure(o, gm, es.head, budget));
      if left.Some? && Charge(left.value, AtomCost(o, Line(sep))).Some? {
        SameMeasureEntries(o, gm, gm', sep, es.tail, Charge(left.value, AtomCost(o, Line(sep))).value);
      }
    }
  }

  /** Where no expanded group can be reached, no line is met in expanded mode. */
  lemma {:induction false} UnforcedStaysFlat(d: Doc, gm: Modes, w: Walk)
    requires Unforced(d, gm) && Extends(gm, w.modes) && !w.line
    ensures Extends(gm, FlatWalk(d, Flat, w).modes) && !FlatWalk(d, Flat, w).line
    decreases d
  {
    match d
    case Cat(a, b) => UnforcedStaysFlat(a, gm, w); UnforcedStaysFlat(b, gm, FlatWalk(a, Flat, w));
    case Group(id, b) => UnforcedStaysFlat(b, gm, w.(modes := w.modes[id := Effective(w.modes, id)]));
    case Indented(_, b) => UnforcedStaysFlat(b, gm, IndentWalk(w));
    case Conditional(m, id, b) => if Decided(w.modes, id) == Some(m) { UnforcedStaysFlat(b, gm, w); }
    case Fill(_, es) => AllUnforcedStaysFlat(es, gm, w);
    case Best(vs) => if vs.Docs? { UnforcedStaysFlat(vs.head, gm, w); }
    case _ =>
  }

  lemma {:induction false} AllUnforcedStaysFlat(ds: Docs, gm: Modes, w: Walk)
    requires AllUnforced(ds, gm) && Extends(gm, w.modes) && !w.line
    ensures Extends(gm, FlatWalkAll(ds, w).modes) && !FlatWalkAll(ds, w).line
    decreases ds
  {
    if ds.Docs? {
      UnforcedStaysFlat(ds.head, gm, w);
      AllUnforcedStaysFlat(ds.tail, gm, FlatWalk(ds.head, Flat, w));
    }
  }

  // ----- budgets -----

  /** A larger budget is charged the same amount. */
  lemma {:induction false} SliceShifts(o: Options, d: Doc, b: int, c: int)
    requires b <= c && SliceCost(o, d, b).Some?
    ensures SliceCost(o, d, c) == Some(SliceCost(o, d, b).value + (c - b))
    decreases d
  {
    match d
    case Cat(x, y) =>
      SliceShifts(o, x, b, c);
      SliceShifts(o, y, SliceCost(o, x, b).value, SliceCost(o, x, c).value);
    case Group(_, x) => SliceShifts(o, x, b, c);
    case Indented(_, x) => SliceShifts(o, x, b, c);
    case Conditional(_, _, x) => SliceShifts(o, x, b, c);
    case LineSuffix(x) => SliceShifts(o, x, b, c);
    case Fill(sep, es) => SliceShiftsEntries(o, sep, es, b, c);
    case Best(vs) => if vs.Docs? { SliceShifts(o, vs.head, b, c); }
    case _ =>
  }

  lemma {:induction false} SliceShiftsEntries(o: Options, sep: LineMode, es: Docs, b: int, c: int)
    requires b <= c && SliceCostEntries(o, sep, es, b).Some?
    ensures SliceCostEntries(o, sep, es, c) == Some(SliceCostEntries(o, sep, es, b).value + (c - b))
    decreases es
  {
    if es.Docs? {
      SliceShifts(o, es.head, b, c);
      if es.tail != NoDocs {
        var b1 := Charge(SliceCost(o, es.head, b).value, AtomCost(o, Line(sep))).value;
        SliceShiftsEntries(o, sep, es.tail, b1, b1 + (c - b));
      }
    }
  }

  lemma {:induction false} MeasureShifts(o: Options, gm: Modes, d: Doc, b: int, c: int)
    requires b <= c && Measure(o, gm, d, b).Some?
    ensures Measure(o, gm, d, c) == Some(Measure(o, gm, d, b).value + (c - b))
    decreases d
  {
    hide SliceCost;
    match d
    case Cat(x, y) =>
      MeasureShifts(o, gm, x, b, c);
      MeasureShifts(o, gm, y, Measure(o, gm, x, b).value, Measure(o, gm, x, c).value);
    case Group(_, x) => MeasureShifts(o, gm, x, b, c);
    case Indented(_, x) => MeasureShifts(o, gm, x, b, c);
    case Conditional(m, id, x) => if Effective(gm, id) == m { MeasureShifts(o, gm, x, b, c); }
    case Fill(sep, es) => MeasureShiftsEntries(o, gm, sep, es, b, c);
    case Best(vs) => if vs.Docs? { SliceShifts(o, vs.head, b, c); }
    case _ =>
  }

  lemma {:induction false} MeasureShiftsEntries(o: Options, gm: Modes, sep: LineMode, es: Docs, b: int, c: int)
    requires b <= c && MeasureEntries(o, gm, sep, es, b).Some?
    ensures MeasureEntries(o, gm, sep, es, c) == Some(MeasureEntries(o, gm, sep, es, b).value + (c - b))
    decreases es
  {
    if es.Docs? {
      MeasureShifts(o, gm, es.head, b, c);
      if es.tail != NoDocs {
        var b1 := Charge(Measure(o, gm, es.head, b).value, AtomCost(o, Line(sep))).value;
        MeasureShiftsEntries(o, gm, sep, es.tail, b1, b1 + (c - b));
      }
    }
  }

  /** Measuring never gives budget back. */
  lemma {:induction false} MeasureSpends(o: Options, gm: Modes, d: Doc, b: int)
    requires Measure(o, gm, d, b).Some?
    ensures Measure(o, gm, d, b).value <= b
    decreases d
  {
    match d
    case Cat(x, y) => MeasureSpends(o, gm, x, b); MeasureSpends(o, gm, y, Measure(o, gm, x, b).value);
    case Group(_, x) => MeasureSpends(o, gm, x, b);
    case Indented(_, x) => MeasureSpends(o, gm, x, b);
    case Conditional(m, id, x) => if Effective(gm, id) == m { MeasureSpends(o, gm, x, b); }
    case Fill(sep, es) => MeasureSpendsEntries(o, gm, sep, es, b);
    case Best(vs) => if vs.Docs? { SliceCovers(o, gm, vs.head, b); MeasureSpends(o, gm, vs.head, b); }
    case _ =>
  }

  lemma {:induction false} MeasureSpendsEntries(o: Options, gm: Modes, sep: LineMode, es: Docs, b: int)
    requires MeasureEntries(o, gm, sep, es, b).Some?
    ensures MeasureEntries(o, gm, sep, es, b).value <= b
    decreases es
  {
    if es.Docs? {
      MeasureSpends(o, gm, es.head, b);
      if es.tail != NoDocs {
        MeasureSpendsEntries(o, gm, sep, es.tail,
                             Charge(Measure(o, gm, es.head, b).value, AtomCost(o, Line(sep))).value);
      }
    }
  }

  /** What passes as a detached slice passes as a region, whatever has been decided, and costs no
      more there. */
  lemma {:induction false} SliceCovers(o: Options, gm: Modes, d: Doc, b: int)
    requires SliceCost(o, d, b).Some?
    ensures SliceCost(o, d, b).value <= b
    ensures Measure(o, gm, d, b).Some? && Measure(o, gm, d, b).value >= SliceCost(o, d, b).value
    decreases d
  {
    match d
    case Cat(x, y) =>
      SliceCovers(o, gm, x, b);
      SliceCovers(o, gm, y, SliceCost(o, x, b).value);
      MeasureShifts(o, gm, y, SliceCost(o, x, b).value, Measure(o, gm, x, b).value);
    case Group(_, x) => SliceCovers(o, gm, x, b);
    case Indented(_, x) => SliceCovers(o, gm, x, b);
    case Conditional(m, id, x) => SliceCovers(o, gm, x, b);
    case LineSuffix(x) => SliceCovers(o, gm, x, b);
    case Fill(sep, es) => SliceCoversEntries(o, gm, sep, es, b);
    case Best(vs) => if vs.Docs? { SliceCovers(o, gm, vs.head, b); }
    case _ =>
  }

  lemma {:induction false} SliceCoversEntries(o: Options, gm: Modes, sep: LineMode, es: Docs, b: int)
    requires SliceCostEntries(o, sep, es, b).Some?
    ensures SliceCostEntries(o, sep, es, b).value <= b
    ensures MeasureEntries(o, gm, sep, es, b).Some?
            && MeasureEntries(o, gm, sep, es, b).value >= SliceCostEntries(o, sep, es, b).value
    decreases es
  {
    if es.Docs? {
      SliceCovers(o, gm, es.head, b);
      if es.tail != NoDocs {
        var slice := Charge(SliceCost(o, es.head, b).value, AtomCost(o, Line(sep))).value;
        var region := Charge(Measure(o, gm, es.head, b).value, AtomCost(o, Line(sep))).value;
        SliceCoversEntries(o, gm, sep, es.tail, slice);
        MeasureShiftsEntries(o, gm, sep, es.tail, slice, region);
      }
    }
  }

  // ----- printing flat -----

  /** `st'` continues the line of `st`. */
  ghost predicate SameLine(st: State, st': State) {
    st.output <= st'.output && '\n' !in st'.output[|st.output|..]
  }

  /** What flat printing that met no trouble has done: stayed on the line, kept the stacks, decided
      only `Flat`, and used up no more width than was measured. */
  ghost predicate FlatDone(o: Options, gm: Modes, st: State, st': State, w': Walk, left: int) {
    && st'.modes == st.modes && st'.indents == st.indents
    && Extends(gm, st'.groupModes)
    && w' == WalkFrom(st')
    && RemainingWidth(o, st') >= left
    && SameLine(st, st')
  }

  lemma {:induction false} IndentWidths(o: Options, indents: seq<Indent>)
    ensures PendingIndentWidth(o, indents)
            == IndentLevels(indents) * (if o.useTabs then 1 else o.indentWidth) + AlignSpaces(indents)
    decreases |indents|
  {
    if indents != [] {
      IndentWidths(o, indents[1..]);
      var unit := if o.useTabs then 1 else o.indentWidth;
      assert (1 + IndentLevels(indents[1..])) * unit == unit + IndentLevels(indents[1..]) * unit;
    }
  }

  /** A single-line text takes its own width out of what remained; indentation and space that were
      pending had been accounted for. */
  lemma EmitFlat(o: Options, st: State, s: string)
    requires '\n' !in s
    ensures var st' := EmitText(o, st, s);
            && RemainingWidth(o, st') == RemainingWidth(o, st) - Width(o, s)
            && SameLine(st, st')
            && st' == st.(output := st'.output, column := st'.column, pendingSpace := false, pendingIndent := false)
  {
    IndentWidths(o, st.indents);
  }

  ghost predicate Ready(o: Options, d: Doc, st: State, gm: Modes, budget: int) {
    && WellFormed(d) && Extends(gm, st.groupModes)
    && Measure(o, gm, d, budget).Some? && budget <= RemainingWidth(o, st)
    && !WalkOf(d, st).early
  }

  function WalkOf(d: Doc, st: State): Walk { FlatWalk(d, CurrentMode(st), WalkFrom(st)) }

  ghost predicate FlatOutcome(o: Options, d: Doc, st: State, gm: Modes, budget: int)
    requires Measure(o, gm, d, budget).Some?
  {
    if WalkOf(d, st).Broke() then Break in Selected(o, d, st)
    else
      && FlatDone(o, gm, st, PrintDoc(o, d, st), WalkOf(d, st), Measure(o, gm, d, budget).value)
      && Break !in Selected(o, d, st)
  }

  lemma FlatLeaf(o: Options, a: Atom, st: State, gm: Modes, budget: int)
    requires Ready(o, Leaf(a), st, gm, budget)
    ensures FlatOutcome(o, Leaf(a), st, gm, budget)
  {
    hide EmitText, EmitNewline;
    match a
    case Token(s) => EmitFlat(o, st, s);
    case Text(s) => EmitFlat(o, st, s);
    case _ =>
  }

  lemma SameLineTrans(a: State, b: State, c: State)
    requires SameLine(a, b) && SameLine(b, c)
    ensures SameLine(a, c)
  {
    assert c.output[|a.output|..] == b.output[|a.output|..] + c.output[|b.output|..];
  }

  /** Content that the measuring walk lets through, printed: no break and no width beyond what was
      measured, unless a boundary meets a queued suffix or a line stands in a group already expanded,
      and then there is a break. */
  lemma {:induction false} FlatRun(o: Options, d: Doc, st: State, gm: Modes, budget: int)
    requires Ready(o, d, st, gm, budget)
    ensures FlatOutcome(o, d, st, gm, budget)
    decreases d, 1
  {
    hide PrintAtom, AtomEvents, SliceCost, RemainingWidth;
    match d
    case Nothing =>
    case Cat(a, b) => FlatCat(o, a, b, st, gm, budget);
    case Leaf(a) => FlatLeaf(o, a, st, gm, budget);
    case Group(id, b) => FlatGroup(o, id, b, st, gm, budget);
    case Indented(how, b) => FlatIndented(o, how, b, st, gm, budget);
    case Conditional(m, id, b) =>
      if Decided(st.groupModes, id) == Some(m) {
        FlatRun(o, b, st, gm, budget);
      } else if Effective(gm, id) == m {
        MeasureSpends(o, gm, b, budget);
      }
    case Fill(sep, es) => FlatEntries(o, sep, es, st, gm, budget);
    case Best(vs) => if vs.Docs? { FlatBest(o, vs, st, gm, budget); }
    case LineSuffix(b) => FlatSuffix(o, b, st, gm, budget);
  }

  lemma {:induction false} FlatCat(o: Options, a: Doc, b: Doc, st: State, gm: Modes, budget: int)
    requires Ready(o, Cat(a, b), st, gm, budget)
    ensures FlatOutcome(o, Cat(a, b), st, gm, budget)
    decreases Cat(a, b), 0
  {
    hide SliceCost, RemainingWidth;
    var m, w1 := CurrentMode(st), WalkOf(a, st);
    WalkSticks(b, m, w1);
    FlatRun(o, a, st, gm, budget);
    if !w1.Broke() {
      var st1 := PrintDoc(o, a, st);
      assert CurrentMode(st1) == m;
      FlatRun(o, b, st1, gm, Measure(o, gm, a, budget).value);
      if !FlatWalk(b, m, w1).Broke() { SameLineTrans(st, st1, PrintDoc(o, b, st1)); }
    }
  }

  lemma {:induction false} FlatGroup(o: Options, id: GroupId, b: Doc, st: State, gm: Modes, budget: int)
    requires Ready(o, Group(id, b), st, gm, budget)
    ensures FlatOutcome(o, Group(id, b), st, gm, budget)
    decreases Group(id, b), 0
  {
    hide SliceCost, RemainingWidth, WellFormed, Ready, CurrentMode, FlatWalk;
    var mode := Effective(st.groupModes, id);
    var inner := EnterGroup(st, id, mode);
    ReadyInGroup(o, id, b, st, gm, budget);
    FlatRun(o, b, inner, gm, budget);
    if !WalkOf(b, inner).Broke() {
      PopDone(o, gm, st.(groupModes := st.groupModes[id := mode]), mode, PrintDoc(o, b, inner), WalkOf(b, inner),
              Measure(o, gm, b, budget).value);
    }
  }

  /** A group decided before keeps its mode, and one that is not yet decided fits again. */
  lemma ReadyInGroup(o: Options, id: GroupId, b: Doc, st: State, gm: Modes, budget: int)
    requires Ready(o, Group(id, b), st, gm, budget)
    ensures DocGroupMode(o, st, id, b) == Effective(st.groupModes, id)
    ensures Ready(o, b, EnterGroup(st, id, Effective(st.groupModes, id)), gm, budget)
    ensures WalkOf(Group(id, b), st) == WalkOf(b, EnterGroup(st, id, Effective(st.groupModes, id)))
    ensures Measure(o, gm, b, budget) == Measure(o, gm, Group(id, b), budget) && Measure(o, gm, b, budget).Some?
  {
    hide SliceCost, RemainingWidth, Fits;
    FitsAgain(o, b, st, gm, budget, 0);
    SameEffective(gm, st.groupModes, id);
    SameRemaining(o, st, EnterGroup(st, id, Effective(st.groupModes, id)));
  }

  /** What the measure of the line depends on. */
  lemma SameRemaining(o: Options, st: State, st': State)
    requires st'.column == st.column && st'.indents == st.indents
    requires st'.pendingIndent == st.pendingIndent && st'.pendingSpace == st.pendingSpace
    ensures RemainingWidth(o, st') == RemainingWidth(o, st)
  {
  }

  lemma {:induction false} FlatIndented(o: Options, how: Indentation, b: Doc, st: State, gm: Modes, budget: int)
    requires Ready(o, Indented(how, b), st, gm, budget)
    ensures FlatOutcome(o, Indented(how, b), st, gm, budget)
    decreases Indented(how, b), 0
  {
    hide SliceCost, RemainingWidth, WellFormed, Ready, IndentFor;
    var inner := PushIndent(st, IndentFor(st, how));
    ReadyIndented(o, how, b, st, gm, budget);
    FlatRun(o, b, inner, gm, budget);
    WalkSticks(b, CurrentMode(st), WalkFrom(st));
    if !WalkOf(b, inner).Broke() {
      var st' := PrintDoc(o, b, inner);
      SameOffIndent(o, st', PopIndent(st'));
    }
  }

  lemma ReadyIndented(o: Options, how: Indentation, b: Doc, st: State, gm: Modes, budget: int)
    requires Ready(o, Indented(how, b), st, gm, budget)
    ensures !st.pendingIndent
    ensures Ready(o, b, PushIndent(st, IndentFor(st, how)), gm, budget)
    ensures WalkOf(Indented(how, b), st) == WalkOf(b, PushIndent(st, IndentFor(st, how)))
    ensures Measure(o, gm, b, budget) == Measure(o, gm, Indented(how, b), budget) && Measure(o, gm, b, budget).Some?
  {
    hide SliceCost, RemainingWidth, IndentFor;
    if st.pendingIndent {
      WalkSticks(b, CurrentMode(st), WalkFrom(st).(early := true));
      assert false;
    }
    SameOffIndent(o, st, PushIndent(st, IndentFor(st, how)));
  }

  /** Once a line has started, indentation does not matter to it. */
  lemma SameOffIndent(o: Options, st: State, st': State)
    requires st'.column == st.column && !st.pendingIndent && !st'.pendingIndent && st'.pendingSpace == st.pendingSpace
    ensures RemainingWidth(o, st') == RemainingWidth(o, st)
  {
  }

  lemma FlatSuffix(o: Options, b: Doc, st: State, gm: Modes, budget: int)
    requires Ready(o, LineSuffix(b), st, gm, budget)
    ensures FlatOutcome(o, LineSuffix(b), st, gm, budget)
  {
    var st' := PrintDoc(o, LineSuffix(b), st);
    SameRemaining(o, st, st');
    assert st'.suffixes != [] <==> st.suffixes != [] || Stream(b) != [];
  }

  /** A fill entry or a variant: measured again where it is printed, and it fits again. */
  lemma FitsAgain(o: Options, d: Doc, st: State, gm: Modes, budget: int, extra: int)
    requires Extends(gm, st.groupModes)
    requires Measure(o, gm, d, budget).Some? && budget <= RemainingWidth(o, st) - extra
    ensures Fits(o, st, d, extra)
  {
    SameMeasure(o, gm, st.groupModes, d, budget);
    MeasureShifts(o, st.groupModes, d, budget, RemainingWidth(o, st) - extra);
  }

  /** Pushing a mode before and popping it after changes nothing of the outcome. */
  lemma PopDone(o: Options, gm: Modes, st: State, m: PrintMode, st': State, w': Walk, left: int)
    requires FlatDone(o, gm, PushMode(st, m), st', w', left)
    ensures FlatDone(o, gm, st, PopMode(st'), w', left)
  {
    SameRemaining(o, st', PopMode(st'));
  }

  lemma ReadyNested(o: Options, d: Doc, st: State, gm: Modes, budget: int)
    requires WellFormed(d) && Extends(gm, st.groupModes)
    requires Measure(o, gm, d, budget).Some? && budget <= RemainingWidth(o, st)
    requires !FlatWalk(d, Flat, WalkFrom(st)).early
    ensures WalkOf(d, PushMode(st, Flat)) == FlatWalk(d, Flat, WalkFrom(st))
    ensures Ready(o, d, PushMode(st, Flat), gm, budget)
  {
    hide RemainingWidth, Measure, FlatWalk, WellFormed;
    SameRemaining(o, st, PushMode(st, Flat));
    assert WalkFrom(PushMode(st, Flat)) == WalkFrom(st);
  }

  lemma {:induction false} FlatBest(o: Options, vs: Docs, st: State, gm: Modes, budget: int)
    requires vs.Docs? && Ready(o, Best(vs), st, gm, budget)
    ensures FlatOutcome(o, Best(vs), st, gm, budget)
    decreases vs, 0
  {
    hide SliceCost, RemainingWidth;
    var v := vs.head;
    assert vs == Docs(v, vs.tail) && AllWellFormed(vs);
    var w' := FlatWalk(v, Flat, WalkFrom(st));
    assert w' == WalkOf(Best(vs), st);
    SliceCovers(o, gm, v, budget);
    FitsAgain(o, v, st, gm, budget, 0);
    ReadyNested(o, v, st, gm, budget);
    FlatRun(o, v, PushMode(st, Flat), gm, budget);
    assert vs.tail.Docs?;
    assert PrintDoc(o, Best(vs), st) == PrintBest(o, vs, st) == PrintVariant(o, v, Flat, st);
    assert Selected(o, Best(vs), st) == SelectedBest(o, vs, st) == Selected(o, v, PushMode(st, Flat));
    if !w'.Broke() {
      PopDone(o, gm, st, Flat, PrintDoc(o, v, PushMode(st, Flat)), w', Measure(o, gm, v, budget).value);
    }
  }

  ghost predicate ReadyEntries(o: Options, sep: LineMode, es: Docs, st: State, gm: Modes, budget: int) {
    && AllWellFormed(es) && Extends(gm, st.groupModes)
    && MeasureEntries(o, gm, sep, es, budget).Some? && budget <= RemainingWidth(o, st)
    && !FlatWalkAll(es, WalkFrom(st)).early
  }

  ghost predicate EntriesOutcome(o: Options, sep: LineMode, es: Docs, st: State, gm: Modes, budget: int)
    requires MeasureEntries(o, gm, sep, es, budget).Some?
  {
    var w' := FlatWalkAll(es, WalkFrom(st));
    if w'.Broke() then Break in SelectedEntries(o, sep, es, st)
    else
      && FlatDone(o, gm, st, PrintEntries(o, sep, es, st), w', MeasureEntries(o, gm, sep, es, budget).value)
      && Break !in SelectedEntries(o, sep, es, st)
  }

  lemma {:induction false} FlatEntry(o: Options, d: Doc, st: State, gm: Modes, budget: int)
    requires WellFormed(d) && Extends(gm, st.groupModes)
    requires Measure(o, gm, d, budget).Some? && budget <= RemainingWidth(o, st)
    requires !FlatWalk(d, Flat, WalkFrom(st)).early
    ensures Fits(o, st, d, 0)
    ensures var w' := FlatWalk(d, Flat, WalkFrom(st));
            if w'.Broke() then Break in Selected(o, d, PushMode(st, Flat))
            else
              && FlatDone(o, gm, st, PrintEntry(o, d, st), w', Measure(o, gm, d, budget).value)
              && Break !in Selected(o, d, PushMode(st, Flat))
    decreases d, 2
  {
    hide RemainingWidth, Measure, FlatWalk, WellFormed, Selected, PrintDoc, Fits;
    var w' := FlatWalk(d, Flat, WalkFrom(st));
    FitsAgain(o, d, st, gm, budget, 0);
    ReadyNested(o, d, st, gm, budget);
    FlatRun(o, d, PushMode(st, Flat), gm, budget);
    if !w'.Broke() {
      PopDone(o, gm, st, Flat, PrintDoc(o, d, PushMode(st, Flat)), w', Measure(o, gm, d, budget).value);
    }
  }

  lemma {:induction false} FlatEntries(o: Options, sep: LineMode, es: Docs, st: State, gm: Modes, budget: int)
    requires ReadyEntries(o, sep, es, st, gm, budget)
    ensures EntriesOutcome(o, sep, es, st, gm, budget)
    decreases es, 0
  {
    if es.Docs? {
      hide SliceCost, RemainingWidth, PrintSeparator, SeparatorEvents, Fits, Measure, FlatWalk, WellFormed, Selected,
           PrintEntry;
      hide FlatDone, Extends;
      var d := es.head;
      var w1 := FlatWalk(d, Flat, WalkFrom(st));
      WalkSticksAll(es.tail, w1);
      FlatEntry(o, d, st, gm, budget);
      if es.tail == NoDocs {
        assert FlatWalkAll(es, WalkFrom(st)) == w1;
      } else if !w1.Broke() {
        var st1, left := PrintEntry(o, d, st), Measure(o, gm, d, budget).value;
        LineSoFar(o, gm, st, st1, w1, left);
        FlatEntriesOn(o, sep, es, st1, gm, left);
        EntriesJoin(o, sep, es, st, gm, budget, st1, left);
      }
    }
  }

  lemma LineSoFar(o: Options, gm: Modes, st: State, st1: State, w1: Walk, left: int)
    requires FlatDone(o, gm, st, st1, w1, left)
    ensures Extends(gm, st1.groupModes) && left <= RemainingWidth(o, st1) && w1 == WalkFrom(st1)
  {
  }

  /** The first entry, the separator and the rest, one after the other. */
  lemma EntriesJoin(o: Options, sep: LineMode, es: Docs, st: State, gm: Modes, budget: int, st1: State, left: int)
    requires es.Docs? && es.tail.Docs? && st1 == PrintEntry(o, es.head, st)
    requires MeasureEntries(o, gm, sep, es, budget).Some? && Measure(o, gm, es.head, budget) == Some(left)
    requires Fits(o, st, es.head, 0) && Break !in Selected(o, es.head, PushMode(st, Flat))
    requires FlatDone(o, gm, st, st1, FlatWalk(es.head, Flat, WalkFrom(st)), left)
    requires SeparatorEvents(o, sep, es.tail.head, st1) == []
    requires Charge(left, AtomCost(o, Line(sep))).Some?
    requires var left' := Charge(left, AtomCost(o, Line(sep))).value;
             var st2 := PrintSeparator(o, sep, es.tail.head, st1);
             && MeasureEntries(o, gm, sep, es.tail, left').Some?
             && MeasureEntries(o, gm, sep, es.tail, left') == MeasureEntries(o, gm, sep, es, budget)
             && EntriesOutcome(o, sep, es.tail, st2, gm, left')
             && WalkFrom(st2) == WalkFrom(st1) && st2.output == st1.output && st2.modes == st1.modes
             && st2.indents == st1.indents
    ensures EntriesOutcome(o, sep, es, st, gm, budget)
  {
    hide SliceCost, RemainingWidth, PrintSeparator, SeparatorEvents, Fits, Measure, MeasureEntries, FlatWalk, Selected,
         PrintEntry;
    hide Extends, SameLine, AtomCost;
    var st2 := PrintSeparator(o, sep, es.tail.head, st1);
    if !FlatWalkAll(es.tail, WalkFrom(st1)).Broke() {
      SameLineAs(st1, st2, PrintEntries(o, sep, es.tail, st2));
      SameLineTrans(st, st1, PrintEntries(o, sep, es.tail, st2));
    }
  }

  lemma SameLineAs(a: State, b: State, c: State)
    requires a.output == b.output && SameLine(b, c)
    ensures SameLine(a, c)
  {
  }

  /** After the first entry: the separator stays on the line and the rest follows. */
  lemma {:induction false} FlatEntriesOn(o: Options, sep: LineMode, es: Docs, st: State, gm: Modes, left: int)
    requires es.Docs? && es.tail.Docs? && AllWellFormed(es.tail)
    requires Extends(gm, st.groupModes) && left <= RemainingWidth(o, st)
    requires Charge(left, AtomCost(o, Line(sep))).Some?
    requires MeasureEntries(o, gm, sep, es.tail, Charge(left, AtomCost(o, Line(sep))).value).Some?
    requires !FlatWalkAll(es.tail, WalkFrom(st)).early
    ensures SeparatorEvents(o, sep, es.tail.head, st) == []
    ensures var st2 := PrintSeparator(o, sep, es.tail.head, st);
            && EntriesOutcome(o, sep, es.tail, st2, gm, Charge(left, AtomCost(o, Line(sep))).value)
            && WalkFrom(st2) == WalkFrom(st) && st2.output == st.output && st2.modes == st.modes
            && st2.indents == st.indents
    decreases es.tail, 1
  {
    hide SliceCost, RemainingWidth, PrintSeparator, SeparatorEvents, Fits, FlatWalk, WellFormed, Selected, PrintEntry;
    var left' := Charge(left, AtomCost(o, Line(sep))).value;
    var next := es.tail.head;
    FlatSeparator(o, sep, next, st, gm, left);
    FlatEntries(o, sep, es.tail, PrintSeparator(o, sep, next, st), gm, left');
  }

  lemma FlatSeparator(o: Options, sep: LineMode, next: Doc, st: State, gm: Modes, left: int)
    requires Extends(gm, st.groupModes) && left <= RemainingWidth(o, st)
    requires Charge(left, AtomCost(o, Line(sep))).Some?
    requires Measure(o, gm, next, Charge(left, AtomCost(o, Line(sep))).value).Some?
    ensures SeparatorEvents(o, sep, next, st) == []
    ensures PrintSeparator(o, sep, next, st) == if sep == SoftOrSpace then st.(pendingSpace := true) else st
    ensures RemainingWidth(o, PrintSeparator(o, sep, next, st)) >= Charge(left, AtomCost(o, Line(sep))).value
  {
    hide Fits, Measure;
    FitsAgain(o, next, st, gm, Charge(left, AtomCost(o, Line(sep))).value, if sep == SoftOrSpace then 1 else 0);
  }
}
