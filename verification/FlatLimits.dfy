/** Why each condition of fit soundness is there: documents for which measuring and printing disagree. */
module FlatLimits {
  import opened Wrappers
  import opened Document
  import opened Layout
  import opened DocLayout
  import opened Conservation
  import opened FitSoundness
  import opened Propagate
  import Printer

  /** An indent tag that comes while the line's indentation is pending is printed but was not measured:
      the text ends exactly `n` columns further right than measuring said. It overruns the line if and
      only if less than `n` columns were to be left. */
  lemma LateIndentIsNotMeasured(o: Options, st: State, s: string, n: nat)
    requires st.pendingIndent && '\n' !in s
    ensures var d := Indented(ByAlign(n), Leaf(Token(s)));
            && (Measure(o, st.groupModes, d, RemainingWidth(o, st)).Some? <==> Width(o, s) <= RemainingWidth(o, st))
            && RemainingWidth(o, PrintDoc(o, d, st)) == RemainingWidth(o, st) - Width(o, s) - n
            && WalkOf(d, st).early
  {
    hide EmitText;
    var inner := PushIndent(st, Align(n));
    var d := Indented(ByAlign(n), Leaf(Token(s)));
    PendingOfLast(o, st.indents, Align(n));
    EmitFlat(o, inner, s);
    assert WalkOf(d, st) == FlatWalk(d.body, CurrentMode(st), IndentWalk(WalkFrom(st)));
  }

  lemma {:induction false} PendingOfLast(o: Options, indents: seq<Indent>, i: Indent)
    ensures PendingIndentWidth(o, indents + [i]) == PendingIndentWidth(o, indents) + PendingIndentWidth(o, [i])
  {
    if indents == [] {
      assert indents + [i] == [i];
    } else {
      assert (indents + [i])[1..] == indents[1..] + [i];
      PendingOfLast(o, indents[1..], i);
    }
  }

  /** A boundary costs nothing to measure, and breaks the line if and only if a suffix is queued. */
  lemma BoundaryIsNotMeasured(o: Options, st: State)
    ensures var d := Leaf(LineSuffixBoundary);
            && (Measure(o, st.groupModes, d, RemainingWidth(o, st)).Some? <==> RemainingWidth(o, st) >= 0)
            && (Break in Selected(o, d, st) <==> st.suffixes != [])
  {
  }

  /** The only variant of a best-fitting element is measured flat and printed expanded: a soft line in it
      costs nothing and always breaks. */
  lemma OnlyVariantIsNotFlat(o: Options, st: State)
    requires CurrentMode(st) == Flat
    ensures var d := Best(Docs(Leaf(Line(Soft)), NoDocs));
            && (Measure(o, st.groupModes, d, RemainingWidth(o, st)).Some? <==> RemainingWidth(o, st) >= 0)
            && Selected(o, d, st) == [Break]
            && !WellFormed(d) && !WalkOf(d, st).Broke() && !WalkOf(d, st).early
  {
  }

  /** The end of a group is looked for before the budget is: with nothing in it, or only a conditional
      that is skipped, a group is flat even on a line that is already too long. */
  lemma EmptyGroupIsAlwaysFlat(o: Options, st: State, id: GroupId, m: PrintMode, other: GroupId, body: Doc)
    requires Decided(st.groupModes, id).None?
    ensures DocGroupMode(o, st, id, Nothing) == Flat
    ensures Effective(st.groupModes, other) != m ==> DocGroupMode(o, st, id, Conditional(m, other, body)) == Flat
  {
  }

  /** A forced break in the branch for an expanded `g`, then a soft line. */
  function HiddenBreak(g: GroupId): Doc {
    Cat(Conditional(Expanded, g, Leaf(Line(Hard))), Leaf(Line(Soft)))
  }

  lemma HiddenBreakForces(g: GroupId)
    ensures Forced(HiddenBreak(g))
  {
    var branch := Conditional(Expanded, g, Leaf(Line(Hard)));
    assert OwnAtoms(branch) == OwnAtoms(Leaf(Line(Hard))) == [Line(Hard)];
    assert OwnAtoms(HiddenBreak(g)) == OwnAtoms(branch) + OwnAtoms(Leaf(Line(Soft)));
    assert OwnAtoms(HiddenBreak(g))[0] == Line(Hard) && IsForcing(Line(Hard));
  }

  lemma HiddenBreakIsForced(g: GroupId, id: GroupId)
    ensures Decided(Printer.Start(Group(id, HiddenBreak(g))).groupModes, id) == Some(Expanded)
  {
    PropagationIsExact(Group(id, HiddenBreak(g)), id);
    HiddenBreakForces(g);
    assert (id, HiddenBreak(g)) in Groups(Group(id, HiddenBreak(g)), false);
  }

  /** The forced break marks its group expanded. A fill entry or a variant that holds the group is
      measured without the branch, committed to flat, and breaks at the group's soft line. */
  lemma SkippedBranchHidesBreak(o: Options, g: GroupId, id: GroupId, st: State)
    requires Decided(st.groupModes, g) == Some(Flat) && id != g && RemainingWidth(o, st) >= 0
    requires Decided(st.groupModes, id) == Decided(Printer.Start(Group(id, HiddenBreak(g))).groupModes, id)
    ensures Fits(o, st, Group(id, HiddenBreak(g)), 0)
    ensures Selected(o, Group(id, HiddenBreak(g)), PushMode(st, Flat)) == [Break]
    ensures WalkOf(Group(id, HiddenBreak(g)), PushMode(st, Flat)).line
  {
    hide Printer.Start, RemainingWidth;
    HiddenBreakIsForced(g, id);
    var branch := Conditional(Expanded, g, Leaf(Line(Hard)));
    var budget := RemainingWidth(o, st);
    assert Measure(o, st.groupModes, branch, budget) == Some(budget);
    assert Measure(o, st.groupModes, HiddenBreak(g), budget) == Measure(o, st.groupModes, Leaf(Line(Soft)), budget)
           == Some(budget);
    var inner := EnterGroup(PushMode(st, Flat), id, Expanded);
    assert PrintDoc(o, branch, inner) == inner && Selected(o, branch, inner) == [];
    assert Selected(o, Leaf(Line(Soft)), inner) == [Break];
    assert Selected(o, HiddenBreak(g), inner) == [] + [Break];
    var w := WalkFrom(inner);
    assert FlatWalk(branch, Expanded, w) == w && FlatWalk(Leaf(Line(Soft)), Expanded, w).line;
    assert FlatWalk(HiddenBreak(g), Expanded, w).line;
    var entry, outer := Group(id, HiddenBreak(g)), PushMode(st, Flat);
    assert WalkOf(entry, outer) == FlatWalk(entry, Flat, WalkFrom(outer)) == FlatWalk(HiddenBreak(g), Expanded, w);
  }

  /** A group that stays flat, and a fill whose one entry hides a break behind it. */
  function HiddenInFill(g: GroupId, id: GroupId, s: string): Doc {
    Cat(Group(g, Leaf(Token(s))), Fill(Soft, Docs(Group(id, HiddenBreak(g)), NoDocs)))
  }

  lemma HiddenInFillStarts(g: GroupId, id: GroupId, s: string)
    requires id != g
    ensures Decided(Printer.Start(HiddenInFill(g, id, s)).groupModes, g) == None
    ensures Decided(Printer.Start(HiddenInFill(g, id, s)).groupModes, id) == Some(Expanded)
  {
    var d := HiddenInFill(g, id, s);
    var branch, entry, first := HiddenBreak(g).first, Group(id, HiddenBreak(g)), Leaf(Token(s));
    HiddenBreakForces(g);
    PropagationIsExact(d, id);
    PropagationIsExact(d, g);
    assert Groups(branch, false) == Groups(branch.body, false) == {};
    assert Groups(HiddenBreak(g), false) == {};
    assert Groups(entry, false) == {(id, HiddenBreak(g))};
    assert GroupsOfAll(NoDocs, false) == {};
    assert Groups(d.second, false) == GroupsOfAll(Docs(entry, NoDocs), false) == {(id, HiddenBreak(g))};
    assert Groups(first, false) == {} && Groups(d.first, false) == {(g, first)};
    assert Groups(d, false) == {(g, first), (id, HiddenBreak(g))};
    assert OwnAtoms(first) == [Token(s)];
  }

  lemma StartOfLine(o: Options, d: Doc)
    ensures var st := Printer.Start(d);
            && RemainingWidth(o, st) == o.lineWidth && st.modes == [] && !st.pendingIndent && !st.pendingSpace
  {
  }

  /** From the start of a run: the entry is measured, fits, and the run breaks inside it. */
  lemma DocumentHidesBreak(o: Options, g: GroupId, id: GroupId, s: string)
    requires id != g && '\n' !in s && Width(o, s) <= o.lineWidth
    ensures var d, st := HiddenInFill(g, id, s), Printer.Start(HiddenInFill(g, id, s));
            && WellFormed(d) && Fits(o, PrintDoc(o, d.first, st), d.second.entries.head, 0)
            && Break !in Selected(o, d.first, st) && Break in Selected(o, d, st)
  {
    hide Printer.Start, EmitText;
    var d, st := HiddenInFill(g, id, s), Printer.Start(HiddenInFill(g, id, s));
    var entry, branch := Group(id, HiddenBreak(g)), HiddenBreak(g).first;
    assert WellFormed(branch.body) && WellFormed(branch) && WellFormed(HiddenBreak(g)) && WellFormed(entry);
    assert AllWellFormed(NoDocs) && AllWellFormed(d.second.entries) && WellFormed(d.second);
    assert WellFormed(Leaf(Token(s))) && WellFormed(d.first);
    HiddenInFillStarts(g, id, s);
    StartOfLine(o, d);
    var inner := EnterGroup(st, g, Flat);
    assert DocGroupMode(o, st, g, Leaf(Token(s))) == Flat;
    EmitFlat(o, inner, s);
    var st1 := PrintDoc(o, d.first, st);
    assert PrintDoc(o, Leaf(Token(s)), inner) == EmitText(o, inner, s);
    assert st1 == PopMode(EmitText(o, inner, s));
    assert RemainingWidth(o, st1) >= 0;
    HiddenBreakIsForced(g, id);
    SkippedBranchHidesBreak(o, g, id, st1);
    assert Selected(o, d.second, st1) == SelectedEntries(o, Soft, d.second.entries, st1)
           == Selected(o, entry, PushMode(st1, Flat)) == [Break];
    assert Selected(o, d, st) == Selected(o, d.first, st) + [Break];
  }
}
