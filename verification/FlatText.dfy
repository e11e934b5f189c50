/** What measuring answers: content fits exactly where its text on one line fits behind what stands on the
    open line. */
module FlatText {
  import opened Wrappers
  import opened Document
  import opened Layout
  import opened DocLayout
  import DocumentRuns
  import Pages
  import Propagate

  function Both(a: Option<string>, b: Option<string>): Option<string> {
    if a.None? || b.None? then None else Some(a.value + b.value)
  }

  /** An atom on one line; a break that must be made and a text of several lines have no such form. */
  function OneLineAtom(a: Atom): Option<string> {
    match a
    case Token(s) => Some(s)
    case Text(s) => if '\n' in s then None else Some(s)
    case Space => Some(" ")
    case Line(SoftOrSpace) => Some(" ")
    case Line(Soft) => Some("")
    case Line(_) => None
    case ExpandParent => None
    case LineSuffixBoundary => Some("")
  }

  /** A document on one line. Inside a region conditionals are decided and suffixes wait; a detached
      variant is taken with everything in it. A choice of variants stands for its flattest. */
  function OneLine(gm: map<GroupId, PrintMode>, d: Doc, detached: bool): Option<string>
    decreases d
  {
    match d
    case Nothing => Some("")
    case Cat(a, b) => Both(OneLine(gm, a, detached), OneLine(gm, b, detached))
    case Leaf(a) => OneLineAtom(a)
    case Group(_, b) => OneLine(gm, b, detached)
    case Indented(_, b) => OneLine(gm, b, detached)
    case Conditional(m, id, b) =>
      if !detached && (if id in gm then gm[id] else Flat) != m then Some("") else OneLine(gm, b, detached)
    case LineSuffix(b) => if detached then OneLine(gm, b, detached) else Some("")
    case Fill(sep, es) => OneLineEntries(gm, sep, es, detached)
    case Best(NoDocs) => Some("")
    case Best(Docs(v, _)) => OneLine(gm, v, true)
  }

  function OneLineEntries(gm: map<GroupId, PrintMode>, sep: LineMode, es: Docs, detached: bool): Option<string>
    decreases es
  {
    match es
    case NoDocs => Some("")
    case Docs(d, rest) =>
      var own := OneLine(gm, d, detached);
      if rest == NoDocs then own
      else Both(own, Both(OneLineAtom(Line(sep)), OneLineEntries(gm, sep, rest, detached)))
  }

  /** Nothing is measured at all. */
  predicate Weightless(gm: map<GroupId, PrintMode>, d: Doc)
    decreases d
  {
    match d
    case Nothing => true
    case Cat(a, b) => Weightless(gm, a) && Weightless(gm, b)
    case Conditional(m, id, _) => (if id in gm then gm[id] else Flat) != m
    case _ => false
  }

  /** What is left of a budget behind a text. */
  function Behind(o: Options, budget: int, t: Option<string>): (left: Option<int>)
    ensures left.Some? ==> 0 <= left.value
  {
    if t.None? || budget < Width(o, t.value) then None else Some(budget - Width(o, t.value))
  }

  lemma BehindBoth(o: Options, budget: int, a: Option<string>, b: Option<string>)
    ensures Behind(o, budget, Both(a, b))
            == match Behind(o, budget, a) case None => None case Some(left) => Behind(o, left, b)
  {
    hide Width;
    if a.Some? && b.Some? {
      Pages.WidthCat(o, a.value, b.value);
    }
  }

  lemma BehindAtom(o: Options, budget: int, a: Atom)
    requires o.charWidth(' ') == 1
    ensures Charge(budget, AtomCost(o, a)) == Behind(o, budget, OneLineAtom(a))
  {
    assert Width(o, " ") == 1;
  }

  lemma BehindNothing(o: Options, budget: int)
    requires 0 <= budget
    ensures Behind(o, budget, Some("")) == Some(budget)
  {
  }

  lemma {:induction false} DetachedText(o: Options, gm: map<GroupId, PrintMode>, d: Doc, budget: int)
    requires o.charWidth(' ') == 1 && 0 <= budget
    ensures SliceCost(o, d, budget) == Behind(o, budget, OneLine(gm, d, true))
    decreases d
  {
    hide Width, AtomCost, OneLineAtom, Behind;
    BehindNothing(o, budget);
    match d
    case Cat(a, b) =>
      DetachedText(o, gm, a, budget);
      BehindBoth(o, budget, OneLine(gm, a, true), OneLine(gm, b, true));
      if SliceCost(o, a, budget).Some? {
        DetachedText(o, gm, b, SliceCost(o, a, budget).value);
      }
    case Leaf(a) => BehindAtom(o, budget, a);
    case Group(_, b) => DetachedText(o, gm, b, budget);
    case Indented(_, b) => DetachedText(o, gm, b, budget);
    case Conditional(_, _, b) => DetachedText(o, gm, b, budget);
    case LineSuffix(b) => DetachedText(o, gm, b, budget);
    case Fill(sep, es) => DetachedEntries(o, gm, sep, es, budget);
    case Best(vs) => if vs.Docs? { DetachedText(o, gm, vs.head, budget); }
    case Nothing =>
  }

  lemma {:induction false} DetachedEntries(o: Options, gm: map<GroupId, PrintMode>, sep: LineMode, es: Docs,
                                           budget: int)
    requires o.charWidth(' ') == 1 && 0 <= budget
    ensures SliceCostEntries(o, sep, es, budget) == Behind(o, budget, OneLineEntries(gm, sep, es, true))
    decreases es
  {
    hide Width, AtomCost, OneLineAtom, Behind;
    BehindNothing(o, budget);
    if es.Docs? {
      DetachedText(o, gm, es.head, budget);
      var own, between := OneLine(gm, es.head, true), OneLineAtom(Line(sep));
      if es.tail != NoDocs && SliceCost(o, es.head, budget).Some? {
        var left := SliceCost(o, es.head, budget).value;
        BehindAtom(o, left, Line(sep));
        var left' := Charge(left, AtomCost(o, Line(sep)));
        if left'.Some? {
          DetachedEntries(o, gm, sep, es.tail, left'.value);
        }
        BehindBoth(o, left, between, OneLineEntries(gm, sep, es.tail, true));
      }
      BehindBoth(o, budget, own, Both(between, OneLineEntries(gm, sep, es.tail, true)));
    }
  }

  /** Measuring a region takes the width of its text on one line out of the budget, and stops where that
      is more than there was. */
  lemma {:induction false} MeasuredText(o: Options, gm: map<GroupId, PrintMode>, d: Doc, budget: int)
    requires o.charWidth(' ') == 1 && 0 <= budget
    ensures Measure(o, gm, d, budget) == Behind(o, budget, OneLine(gm, d, false))
    decreases d
  {
    hide Width, AtomCost, OneLineAtom, Behind, SliceCost;
    BehindNothing(o, budget);
    match d
    case Cat(a, b) =>
      MeasuredText(o, gm, a, budget);
      BehindBoth(o, budget, OneLine(gm, a, false), OneLine(gm, b, false));
      if Measure(o, gm, a, budget).Some? {
        MeasuredText(o, gm, b, Measure(o, gm, a, budget).value);
      }
    case Leaf(a) => BehindAtom(o, budget, a);
    case Group(_, b) => MeasuredText(o, gm, b, budget);
    case Indented(_, b) => MeasuredText(o, gm, b, budget);
    case Conditional(_, _, b) => MeasuredText(o, gm, b, budget);
    case LineSuffix(_) =>
    case Fill(sep, es) => MeasuredEntries(o, gm, sep, es, budget);
    case Best(vs) => if vs.Docs? { DetachedText(o, gm, vs.head, budget); }
    case Nothing =>
  }

  lemma {:induction false} MeasuredEntries(o: Options, gm: map<GroupId, PrintMode>, sep: LineMode, es: Docs,
                                           budget: int)
    requires o.charWidth(' ') == 1 && 0 <= budget
    ensures MeasureEntries(o, gm, sep, es, budget) == Behind(o, budget, OneLineEntries(gm, sep, es, false))
    decreases es
  {
    hide Width, AtomCost, OneLineAtom, Behind;
    BehindNothing(o, budget);
    if es.Docs? {
      MeasuredText(o, gm, es.head, budget);
      var own, between := OneLine(gm, es.head, false), OneLineAtom(Line(sep));
      if es.tail != NoDocs && Measure(o, gm, es.head, budget).Some? {
        var left := Measure(o, gm, es.head, budget).value;
        BehindAtom(o, left, Line(sep));
        var left' := Charge(left, AtomCost(o, Line(sep)));
        if left'.Some? {
          MeasuredEntries(o, gm, sep, es.tail, left'.value);
        }
        BehindBoth(o, left, between, OneLineEntries(gm, sep, es.tail, false));
      }
      BehindBoth(o, budget, own, Both(between, OneLineEntries(gm, sep, es.tail, false)));
    }
  }

  /** Behind a line that is too wide already only what is not measured passes. */
  lemma {:induction false} OverfullText(o: Options, gm: map<GroupId, PrintMode>, d: Doc, budget: int)
    requires budget < 0
    ensures Measure(o, gm, d, budget) == if Weightless(gm, d) then Some(budget) else None
    decreases d
  {
    match d
    case Cat(a, b) =>
      OverfullText(o, gm, a, budget);
      OverfullText(o, gm, b, budget);
    case Best(vs) => if vs.Docs? { OverfullSlice(o, vs.head, budget); }
    case _ =>
  }

  lemma {:induction false} OverfullSlice(o: Options, d: Doc, budget: int)
    requires budget < 0
    ensures SliceCost(o, d, budget).Some? ==> SliceCost(o, d, budget).value < 0
    decreases d
  {
    match d
    case Cat(a, b) =>
      OverfullSlice(o, a, budget);
      if SliceCost(o, a, budget).Some? {
        OverfullSlice(o, b, SliceCost(o, a, budget).value);
      }
    case Best(vs) => if vs.Docs? { OverfullSlice(o, vs.head, budget); }
    case _ =>
  }

  /** When content fits: its text on one line, behind the open line with its margin and what comes in
      between, is within the line width. */
  lemma FitsIffOneLine(o: Options, st: State, d: Doc, between: string)
    requires Pages.LineKept(o, st) && Pages.UnitBlanks(o)
    ensures var line := Pages.OpenLine(o, st) + between;
            Fits(o, st, d, Width(o, between))
            <==> if Width(o, line) <= o.lineWidth
                 then OneLine(st.groupModes, d, false).Some?
                      && Width(o, line + OneLine(st.groupModes, d, false).value) <= o.lineWidth
                 else Weightless(st.groupModes, d)
  {
    hide Width, Measure, OneLine, Weightless, RemainingWidth, Pages.OpenLine, Pages.LineKept;
    Pages.RoomOnLine(o, st);
    var line, text := Pages.OpenLine(o, st) + between, OneLine(st.groupModes, d, false);
    Pages.WidthCat(o, Pages.OpenLine(o, st), between);
    var budget := o.lineWidth - Width(o, line);
    if budget < 0 {
      OverfullText(o, st.groupModes, d, budget);
    } else {
      MeasuredText(o, st.groupModes, d, budget);
      if text.Some? {
        Pages.WidthCat(o, line, text.value);
      }
    }
  }

  /** A group is expanded only where it must be. One that is decided keeps its mode; any other is printed flat
      inside a flat one, and otherwise exactly where it has a form on one line that stays within the width. */
  lemma GroupExpandsOnlyWhenNeeded(o: Options, st: State, id: GroupId, b: Doc)
    requires Pages.LineKept(o, st) && Pages.UnitBlanks(o)
    ensures var line := Pages.OpenLine(o, st);
            DocGroupMode(o, st, id, b) == Flat
            <==> if id in st.groupModes then st.groupModes[id] == Flat
                 else
                   || CurrentMode(st) == Flat
                   || (if Width(o, line) <= o.lineWidth
                       then OneLine(st.groupModes, b, false).Some?
                            && Width(o, line + OneLine(st.groupModes, b, false).value) <= o.lineWidth
                       else Weightless(st.groupModes, b))
  {
    hide Width, Fits, OneLine, Weightless, Pages.OpenLine, Pages.LineKept;
    FitsIffOneLine(o, st, b, "");
    Pages.NoWidth(o);
    assert Pages.OpenLine(o, st) + "" == Pages.OpenLine(o, st);
  }

  /** The mode of a group is known to everything inside it and behind it. */
  lemma GroupDecides(o: Options, st: State, id: GroupId, b: Doc)
    requires id !in DocumentRuns.DocIds(b)
    ensures var m, inner := DocGroupMode(o, st, id, b), EnterGroup(st, id, DocGroupMode(o, st, id, b));
            && Decided(inner.groupModes, id) == Some(m) && CurrentMode(inner) == m
            && Decided(PrintDoc(o, Group(id, b), st).groupModes, id) == Some(m)
            && forall other :: other != id ==> Decided(inner.groupModes, other) == Decided(st.groupModes, other)
  {
    hide Fits;
    DocumentRuns.Untouched(o, b, EnterGroup(st, id, DocGroupMode(o, st, id, b)), id);
  }

  /** What forces the groups around it to expand is what has no form on one line. */
  lemma ForcingIsNoOneLine(a: Atom)
    ensures Propagate.IsForcing(a) <==> OneLineAtom(a).None?
  {
  }
}
