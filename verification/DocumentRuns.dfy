/** Whole documents: after the forced-break pass, every flat commitment of a print run is sound. */
module DocumentRuns {
  import opened Wrappers
  import opened Document
  import opened Layout
  import opened DocLayout
  import opened Conservation
  import opened Propagate
  import opened FitSoundness
  import Printer

  /** Every group id in a document. */
  function DocIds(d: Doc): set<GroupId>
    decreases d
  {
    match d
    case Nothing => {}
    case Cat(a, b) => DocIds(a) + DocIds(b)
    case Leaf(_) => {}
    case Group(id, b) => {id} + DocIds(b)
    case Indented(_, b) => DocIds(b)
    case Conditional(_, _, b) => DocIds(b)
    case Fill(_, es) => AllIds(es)
    case Best(vs) => AllIds(vs)
    case LineSuffix(b) => DocIds(b)
  }

  function AllIds(ds: Docs): set<GroupId>
    decreases ds
  {
    match ds
    case NoDocs => {}
    case Docs(d, rest) => DocIds(d) + AllIds(rest)
  }

  /** No two groups of the document share an id. */
  predicate Distinct(d: Doc)
    decreases d
  {
    match d
    case Nothing => true
    case Cat(a, b) => Distinct(a) && Distinct(b) && DocIds(a) !! DocIds(b)
    case Leaf(_) => true
    case Group(id, b) => id !in DocIds(b) && Distinct(b)
    case Indented(_, b) => Distinct(b)
    case Conditional(_, _, b) => Distinct(b)
    case Fill(_, es) => AllDistinct(es)
    case Best(vs) => AllDistinct(vs)
    case LineSuffix(b) => Distinct(b)
  }

  predicate AllDistinct(ds: Docs)
    decreases ds
  {
    match ds
    case NoDocs => true
    case Docs(d, rest) => Distinct(d) && AllDistinct(rest) && DocIds(d) !! AllIds(rest)
  }

  ghost function FirstDecision(b: Doc): Option<PrintMode> {
    if Forced(b) then Some(Expanded) else None
  }

  /** The groups still to be printed stand as the forced-break pass left them. */
  ghost predicate Clean(d: Doc, gm: Modes)
    decreases d
  {
    match d
    case Nothing => true
    case Cat(a, b) => Clean(a, gm) && Clean(b, gm)
    case Leaf(_) => true
    case Group(id, b) => Decided(gm, id) == FirstDecision(b) && Clean(b, gm)
    case Indented(_, b) => Clean(b, gm)
    case Conditional(_, _, b) => Clean(b, gm)
    case Fill(_, es) => AllClean(es, gm)
    case Best(vs) => AllClean(vs, gm)
    case LineSuffix(_) => true
  }

  ghost predicate AllClean(ds: Docs, gm: Modes)
    decreases ds
  {
    match ds
    case NoDocs => true
    case Docs(d, rest) => Clean(d, gm) && AllClean(rest, gm)
  }

  // ----- the pass leaves a clean document -----

  lemma {:induction false} GroupsHaveIds(d: Doc, inSuffix: bool, id: GroupId, b: Doc)
    requires (id, b) in Groups(d, inSuffix)
    ensures id in DocIds(d)
    decreases d
  {
    match d
    case Cat(x, y) => if (id, b) in Groups(x, inSuffix) { GroupsHaveIds(x, inSuffix, id, b); }
      else { GroupsHaveIds(y, inSuffix, id, b); }
    case Group(i, x) => if (id, b) in Groups(x, inSuffix) { GroupsHaveIds(x, inSuffix, id, b); }
    case Indented(_, x) => GroupsHaveIds(x, inSuffix, id, b);
    case Conditional(_, _, x) => GroupsHaveIds(x, inSuffix, id, b);
    case Fill(_, es) => AllGroupsHaveIds(es, inSuffix, id, b);
    case Best(vs) => AllGroupsHaveIds(vs, false, id, b);
    case LineSuffix(x) => GroupsHaveIds(x, true, id, b);
    case _ =>
  }

  lemma {:induction false} AllGroupsHaveIds(ds: Docs, inSuffix: bool, id: GroupId, b: Doc)
    requires (id, b) in GroupsOfAll(ds, inSuffix)
    ensures id in AllIds(ds)
    decreases ds
  {
    if ds.Docs? {
      if (id, b) in Groups(ds.head, inSuffix) { GroupsHaveIds(ds.head, inSuffix, id, b); }
      else { AllGroupsHaveIds(ds.tail, inSuffix, id, b); }
    }
  }

  lemma {:induction false} OneGroupPerId(d: Doc, inSuffix: bool, id: GroupId, b: Doc, c: Doc)
    requires Distinct(d) && (id, b) in Groups(d, inSuffix) && (id, c) in Groups(d, inSuffix)
    ensures b == c
    decreases d
  {
    match d
    case Cat(x, y) =>
      if (id, b) in Groups(x, inSuffix) { GroupsHaveIds(x, inSuffix, id, b); }
        else { GroupsHaveIds(y, inSuffix, id, b); }
      if (id, c) in Groups(x, inSuffix) { GroupsHaveIds(x, inSuffix, id, c); }
        else { GroupsHaveIds(y, inSuffix, id, c); }
      if id in DocIds(x) { OneGroupPerId(x, inSuffix, id, b, c); } else { OneGroupPerId(y, inSuffix, id, b, c); }
    case Group(i, x) =>
      if (id, b) in Groups(x, inSuffix) { GroupsHaveIds(x, inSuffix, id, b); }
      if (id, c) in Groups(x, inSuffix) { GroupsHaveIds(x, inSuffix, id, c); }
      if i != id { OneGroupPerId(x, inSuffix, id, b, c); }
    case Indented(_, x) => OneGroupPerId(x, inSuffix, id, b, c);
    case Conditional(_, _, x) => OneGroupPerId(x, inSuffix, id, b, c);
    case Fill(_, es) => OneGroupPerIdAll(es, inSuffix, id, b, c);
    case Best(vs) => OneGroupPerIdAll(vs, false, id, b, c);
    case LineSuffix(x) => OneGroupPerId(x, true, id, b, c);
    case _ =>
  }

  lemma {:induction false} OneGroupPerIdAll(ds: Docs, inSuffix: bool, id: GroupId, b: Doc, c: Doc)
    requires AllDistinct(ds) && (id, b) in GroupsOfAll(ds, inSuffix) && (id, c) in GroupsOfAll(ds, inSuffix)
    ensures b == c
    decreases ds
  {
    if ds.Docs? {
      if (id, b) in Groups(ds.head, inSuffix) { GroupsHaveIds(ds.head, inSuffix, id, b); }
        else { AllGroupsHaveIds(ds.tail, inSuffix, id, b); }
      if (id, c) in Groups(ds.head, inSuffix) { GroupsHaveIds(ds.head, inSuffix, id, c); }
        else { AllGroupsHaveIds(ds.tail, inSuffix, id, c); }
      if id in DocIds(ds.head) { OneGroupPerId(ds.head, inSuffix, id, b, c); }
        else { OneGroupPerIdAll(ds.tail, inSuffix, id, b, c); }
    }
  }

  ghost predicate Agrees(gs: set<(GroupId, Doc)>, gm: Modes) {
    forall g :: g in gs ==> Decided(gm, g.0) == FirstDecision(g.1)
  }

  lemma {:induction false} CleanFromGroups(d: Doc, gm: Modes)
    requires Agrees(Groups(d, false), gm)
    ensures Clean(d, gm)
    decreases d
  {
    match d
    case Cat(a, b) => CleanFromGroups(a, gm); CleanFromGroups(b, gm);
    case Group(id, b) =>
      assert (id, b) in Groups(d, false);
      CleanFromGroups(b, gm);
    case Indented(_, b) => CleanFromGroups(b, gm);
    case Conditional(_, _, b) => CleanFromGroups(b, gm);
    case Fill(_, es) => AllCleanFromGroups(es, gm);
    case Best(vs) => AllCleanFromGroups(vs, gm);
    case _ =>
  }

  lemma {:induction false} AllCleanFromGroups(ds: Docs, gm: Modes)
    requires Agrees(GroupsOfAll(ds, false), gm)
    ensures AllClean(ds, gm)
    decreases ds
  {
    if ds.Docs? {
      CleanFromGroups(ds.head, gm);
      AllCleanFromGroups(ds.tail, gm);
    }
  }

  lemma CleanAtStart(d: Doc)
    requires Distinct(d)
    ensures Clean(d, Printer.Start(d).groupModes)
  {
    var gm := Printer.Start(d).groupModes;
    forall g | g in Groups(d, false) ensures Decided(gm, g.0) == FirstDecision(g.1) {
      PropagationIsExact(d, g.0);
      assert (g.0, g.1) in Groups(d, false);
      forall b | (g.0, b) in Groups(d, false) ensures b == g.1 {
        OneGroupPerId(d, false, g.0, b, g.1);
      }
    }
    CleanFromGroups(d, gm);
  }

  // ----- printing keeps what is still to come clean -----

  lemma {:induction false} Untouched(o: Options, d: Doc, st: State, id: GroupId)
    requires id !in DocIds(d)
    ensures Decided(PrintDoc(o, d, st).groupModes, id) == Decided(st.groupModes, id)
    decreases d
  {
    hide Fits, PrintAtom;
    match d
    case Nothing =>
    case Cat(a, b) => Untouched(o, a, st, id); Untouched(o, b, PrintDoc(o, a, st), id);
    case Leaf(a) => AtomStacks(o, st, a);
    case Group(i, b) => Untouched(o, b, EnterGroup(st, i, DocGroupMode(o, st, i, b)), id);
    case Indented(how, b) => Untouched(o, b, PushIndent(st, IndentFor(st, how)), id);
    case Conditional(m, i, b) => if Decided(st.groupModes, i) == Some(m) { Untouched(o, b, st, id); }
    case Fill(sep, es) => UntouchedEntries(o, sep, es, st, id);
    case Best(vs) => UntouchedBest(o, vs, st, id);
    case LineSuffix(b) =>
  }

  lemma {:induction false} UntouchedEntries(o: Options, sep: LineMode, es: Docs, st: State, id: GroupId)
    requires id !in AllIds(es)
    ensures Decided(PrintEntries(o, sep, es, st).groupModes, id) == Decided(st.groupModes, id)
    decreases es
  {
    hide Fits, PrintSeparator;
    if es.Docs? {
      Untouched(o, es.head, PushMode(st, if Fits(o, st, es.head, 0) then Flat else Expanded), id);
      if es.tail.Docs? {
        var st1 := PrintEntry(o, es.head, st);
        SeparatorStacks(o, sep, es.tail.head, st1);
        UntouchedEntries(o, sep, es.tail, PrintSeparator(o, sep, es.tail.head, st1), id);
      }
    }
  }

  lemma {:induction false} UntouchedBest(o: Options, vs: Docs, st: State, id: GroupId)
    requires id !in AllIds(vs)
    ensures Decided(PrintBest(o, vs, st).groupModes, id) == Decided(st.groupModes, id)
    decreases vs
  {
    hide Fits;
    if vs.Docs? {
      Untouched(o, vs.head, PushMode(st, Expanded), id);
      Untouched(o, vs.head, PushMode(st, Flat), id);
      UntouchedBest(o, vs.tail, st, id);
    }
  }

  ghost predicate SameOn(ids: set<GroupId>, gm: Modes, gm': Modes) {
    forall id :: id in ids ==> Decided(gm', id) == Decided(gm, id)
  }

  lemma {:induction false} CleanFrame(d: Doc, gm: Modes, gm': Modes)
    requires Clean(d, gm) && SameOn(DocIds(d), gm, gm')
    ensures Clean(d, gm')
    decreases d
  {
    match d
    case Cat(a, b) => CleanFrame(a, gm, gm'); CleanFrame(b, gm, gm');
    case Group(id, b) =>
      assert id in DocIds(d);
      CleanFrame(b, gm, gm');
    case Indented(_, b) => CleanFrame(b, gm, gm');
    case Conditional(_, _, b) => CleanFrame(b, gm, gm');
    case Fill(_, es) => AllCleanFrame(es, gm, gm');
    case Best(vs) => AllCleanFrame(vs, gm, gm');
    case _ =>
  }

  lemma {:induction false} AllCleanFrame(ds: Docs, gm: Modes, gm': Modes)
    requires AllClean(ds, gm) && SameOn(AllIds(ds), gm, gm')
    ensures AllClean(ds, gm')
    decreases ds
  {
    if ds.Docs? {
      CleanFrame(ds.head, gm, gm');
      AllCleanFrame(ds.tail, gm, gm');
    }
  }

  // ----- a measured group has nothing forced inside -----

  lemma {:induction false} SliceHasNoBreaks(o: Options, d: Doc, gm: Modes, budget: int)
    requires SliceCost(o, d, budget).Some?
    ensures !Forced(d)
    ensures Clean(d, gm) ==> Unforced(d, gm)
    decreases d
  {
    match d
    case Nothing =>
    case Cat(a, b) =>
      SliceHasNoBreaks(o, a, gm, budget);
      SliceHasNoBreaks(o, b, gm, SliceCost(o, a, budget).value);
      ForcedCat(OwnAtoms(a), OwnAtoms(b));
    case Leaf(a) =>
    case Group(id, b) => SliceHasNoBreaks(o, b, gm, budget);
    case Indented(_, b) => SliceHasNoBreaks(o, b, gm, budget);
    case Conditional(_, _, b) => SliceHasNoBreaks(o, b, gm, budget);
    case LineSuffix(b) =>
    case Fill(sep, es) => EntriesHaveNoBreaks(o, sep, es, gm, budget);
    case Best(vs) =>
      if vs.Docs? {
        SliceHasNoBreaks(o, vs.head, gm, budget);
        assert AllClean(vs, gm) ==> Clean(vs.head, gm);
      }
  }

  lemma {:induction false} EntriesHaveNoBreaks(o: Options, sep: LineMode, es: Docs, gm: Modes, budget: int)
    requires SliceCostEntries(o, sep, es, budget).Some?
    ensures !EntriesForced(sep, es)
    ensures AllClean(es, gm) ==> AllUnforced(es, gm)
    decreases es
  {
    if es.Docs? {
      SliceHasNoBreaks(o, es.head, gm, budget);
      if es.tail != NoDocs {
        var left := Charge(SliceCost(o, es.head, budget).value, AtomCost(o, Line(sep)));
        EntriesHaveNoBreaks(o, sep, es.tail, gm, left.value);
        ForcedEntries(sep, es.head, es.tail);
      } else {
        assert OwnEntryAtoms(sep, es) == OwnAtoms(es.head);
      }
    }
  }

  /** A group the pass left alone, and that measuring lets through, contains no expanded group. */
  lemma {:induction false} MeasuredIsUnforced(o: Options, d: Doc, gm: Modes, budget: int)
    requires !Forced(d) && Clean(d, gm) && Measure(o, gm, d, budget).Some?
    ensures Unforced(d, gm)
    decreases d
  {
    match d
    case Cat(a, b) =>
      ForcedCat(OwnAtoms(a), OwnAtoms(b));
      MeasuredIsUnforced(o, a, gm, budget);
      MeasuredIsUnforced(o, b, gm, Measure(o, gm, a, budget).value);
    case Group(id, b) =>
      assert Forced(d) == Forced(b);
      MeasuredIsUnforced(o, b, gm, budget);
    case Indented(_, b) => assert Forced(d) == Forced(b); MeasuredIsUnforced(o, b, gm, budget);
    case Conditional(m, id, b) =>
      assert Forced(d) == Forced(b);
      if Effective(gm, id) == m { MeasuredIsUnforced(o, b, gm, budget); }
    case Fill(sep, es) =>
      assert Forced(d) == EntriesForced(sep, es);
      MeasuredEntriesUnforced(o, sep, es, gm, budget);
    case Best(vs) => if vs.Docs? { SliceHasNoBreaks(o, vs.head, gm, budget); }
    case _ =>
  }

  lemma {:induction false} MeasuredEntriesUnforced(o: Options, sep: LineMode, es: Docs, gm: Modes, budget: int)
    requires !EntriesForced(sep, es) && AllClean(es, gm) && MeasureEntries(o, gm, sep, es, budget).Some?
    ensures AllUnforced(es, gm)
    decreases es
  {
    if es.Docs? {
      if es.tail != NoDocs {
        ForcedEntries(sep, es.head, es.tail);
        MeasuredIsUnforced(o, es.head, gm, budget);
        MeasuredEntriesUnforced(o, sep, es.tail, gm,
                                Charge(Measure(o, gm, es.head, budget).value, AtomCost(o, Line(sep))).value);
      } else {
        assert OwnEntryAtoms(sep, es) == OwnAtoms(es.head);
        assert Forced(es.head) == EntriesForced(sep, es);
        MeasuredIsUnforced(o, es.head, gm, budget);
      }
    }
  }

  // ----- every commitment of a run -----

  /** The measured budget never drops below zero; content that is never checked costs nothing. */
  lemma {:induction false} MeasureFloor(o: Options, gm: Modes, d: Doc, budget: int)
    requires Measure(o, gm, d, budget).Some?
    ensures Measure(o, gm, d, budget).value >= 0 || Measure(o, gm, d, budget).value == budget
    decreases d
  {
    match d
    case Cat(a, b) => MeasureFloor(o, gm, a, budget); MeasureFloor(o, gm, b, Measure(o, gm, a, budget).value);
    case _ =>
  }

  /** What measuring `b` promises about printing it from `st`: provided no indent tag comes while the
      line's indentation is pending, there is a break if and only if a boundary meets a queued suffix or
      a line stands in a group expanded before; and without one, it all stays on the line and inside the
      line width, or no further out than the line already was. */
  ghost predicate SoundFrom(o: Options, b: Doc, st: State) {
    var w := WalkOf(b, st);
    var st' := PrintDoc(o, b, st);
    !w.early ==>
      && (w.Broke() <==> Break in Selected(o, b, st))
      && (!w.Broke() ==>
            SameLine(st, st') && (RemainingWidth(o, st') >= 0 || RemainingWidth(o, st') >= RemainingWidth(o, st)))
  }

  lemma CommitIsSound(o: Options, b: Doc, st: State)
    requires WellFormed(b) && Measure(o, st.groupModes, b, RemainingWidth(o, st)).Some?
    ensures SoundFrom(o, b, st)
  {
    hide Measure, FlatWalk, PrintDoc, Selected, RemainingWidth, WellFormed;
    if !WalkOf(b, st).early {
      FlatRun(o, b, st, st.groupModes, RemainingWidth(o, st));
      MeasureFloor(o, st.groupModes, b, RemainingWidth(o, st));
    }
  }

  /** Follows a print run and asks for `SoundFrom` wherever a measurement commits to flat: groups,
      fill entries, and best-fitting variants other than the last. A group commits only where the pass
      has marked nothing inside it, so there no line can break: only a boundary can. */
  ghost predicate CommitsSound(o: Options, d: Doc, st: State)
    decreases d
  {
    match d
    case Nothing => true
    case Cat(a, b) => CommitsSound(o, a, st) && CommitsSound(o, b, PrintDoc(o, a, st))
    case Leaf(_) => true
    case Group(id, b) =>
      var inner := EnterGroup(st, id, DocGroupMode(o, st, id, b));
      && (Decided(st.groupModes, id) == None && CurrentMode(st) == Expanded && CurrentMode(inner) == Flat
          ==> SoundFrom(o, b, inner) && !WalkOf(b, inner).line)
      && CommitsSound(o, b, inner)
    case Indented(how, b) => CommitsSound(o, b, PushIndent(st, IndentFor(st, how)))
    case Conditional(m, id, b) => Decided(st.groupModes, id) == Some(m) ==> CommitsSound(o, b, st)
    case Fill(sep, es) => EntryCommitsSound(o, sep, es, st)
    case Best(vs) => BestCommitsSound(o, vs, st)
    case LineSuffix(_) => true
  }

  /** A fill entry is measured even inside a group with forced breaks, so a conditional it skips may hide
      why a group in it is expanded already. */
  ghost predicate EntryCommitsSound(o: Options, sep: LineMode, es: Docs, st: State)
    decreases es
  {
    match es
    case NoDocs => true
    case Docs(d, rest) =>
      var inner := PushMode(st, if Fits(o, st, d, 0) then Flat else Expanded);
      && (Fits(o, st, d, 0) ==> SoundFrom(o, d, inner))
      && CommitsSound(o, d, inner)
      && (rest.Docs? ==> EntryCommitsSound(o, sep, rest, PrintSeparator(o, sep, rest.head, PrintEntry(o, d, st))))
  }

  ghost predicate BestCommitsSound(o: Options, vs: Docs, st: State)
    decreases vs
  {
    match vs
    case NoDocs => true
    case Docs(v, rest) =>
      if rest == NoDocs then CommitsSound(o, v, PushMode(st, Expanded))
      else if Fits(o, st, v, 0) then
        SoundFrom(o, v, PushMode(st, Flat)) && CommitsSound(o, v, PushMode(st, Flat))
      else BestCommitsSound(o, rest, st)
  }

  lemma {:induction false} RunIsSound(o: Options, d: Doc, st: State)
    requires WellFormed(d) && Distinct(d) && Clean(d, st.groupModes)
    ensures CommitsSound(o, d, st)
    decreases d, 1
  {
    hide Fits, PrintAtom, SoundFrom;
    match d
    case Nothing =>
    case Cat(a, b) =>
      RunIsSound(o, a, st);
      var st1 := PrintDoc(o, a, st);
      forall id | id in DocIds(b) ensures Decided(st1.groupModes, id) == Decided(st.groupModes, id) {
        Untouched(o, a, st, id);
      }
      CleanFrame(b, st.groupModes, st1.groupModes);
      RunIsSound(o, b, st1);
    case Leaf(_) =>
    case Group(id, b) => GroupRunIsSound(o, id, b, st);
    case Indented(how, b) => RunIsSound(o, b, PushIndent(st, IndentFor(st, how)));
    case Conditional(m, id, b) => if Decided(st.groupModes, id) == Some(m) { RunIsSound(o, b, st); }
    case Fill(sep, es) => EntryRunIsSound(o, sep, es, st);
    case Best(vs) => BestRunIsSound(o, vs, st);
    case LineSuffix(_) =>
  }

  lemma {:induction false} GroupRunIsSound(o: Options, id: GroupId, b: Doc, st: State)
    requires WellFormed(b) && Distinct(Group(id, b)) && Clean(Group(id, b), st.groupModes)
    ensures CommitsSound(o, Group(id, b), st)
    decreases b, 2
  {
    hide SoundFrom, Measure, WellFormed, Distinct;
    var inner := EnterGroup(st, id, DocGroupMode(o, st, id, b));
    assert Distinct(b) && id !in DocIds(b) by { DistinctInside(id, b); }
    forall i | i in DocIds(b) ensures Decided(inner.groupModes, i) == Decided(st.groupModes, i) {}
    CleanFrame(b, st.groupModes, inner.groupModes);
    RunIsSound(o, b, inner);
    if Decided(st.groupModes, id) == None && CurrentMode(st) == Expanded && CurrentMode(inner) == Flat {
      MeasuredIsUnforced(o, b, st.groupModes, RemainingWidth(o, st));
      SameMeasure(o, st.groupModes, inner.groupModes, b, RemainingWidth(o, st));
      UnforcedStaysFlat(b, st.groupModes, WalkFrom(inner));
      CommitIsSound(o, b, inner);
    }
  }

  lemma DistinctInside(id: GroupId, b: Doc)
    requires Distinct(Group(id, b))
    ensures Distinct(b) && id !in DocIds(b)
  {
  }

  lemma NestedIsSound(o: Options, d: Doc, st: State)
    requires WellFormed(d) && Fits(o, st, d, 0)
    ensures SoundFrom(o, d, PushMode(st, Flat))
  {
    hide Measure, WellFormed, SoundFrom;
    CommitIsSound(o, d, PushMode(st, Flat));
  }

  lemma {:induction false} EntryRunIsSound(o: Options, sep: LineMode, es: Docs, st: State)
    requires AllWellFormed(es) && AllDistinct(es) && AllClean(es, st.groupModes)
    ensures EntryCommitsSound(o, sep, es, st)
    decreases es, 0
  {
    if es.Docs? {
      hide Fits, SoundFrom, PrintSeparator, CommitsSound;
      var d := es.head;
      var inner := PushMode(st, if Fits(o, st, d, 0) then Flat else Expanded);
      if Fits(o, st, d, 0) { NestedIsSound(o, d, st); }
      RunIsSound(o, d, inner);
      if es.tail.Docs? {
        var st1 := PrintEntry(o, d, st);
        var st2 := PrintSeparator(o, sep, es.tail.head, st1);
        SeparatorStacks(o, sep, es.tail.head, st1);
        forall id | id in AllIds(es.tail) ensures Decided(st2.groupModes, id) == Decided(st.groupModes, id) {
          Untouched(o, d, inner, id);
        }
        AllCleanFrame(es.tail, st.groupModes, st2.groupModes);
        EntryRunIsSound(o, sep, es.tail, st2);
      }
    }
  }

  lemma {:induction false} BestRunIsSound(o: Options, vs: Docs, st: State)
    requires AllWellFormed(vs) && AllDistinct(vs) && AllClean(vs, st.groupModes)
    ensures BestCommitsSound(o, vs, st)
    decreases vs, 0
  {
    if vs.Docs? {
      hide Fits, SoundFrom, CommitsSound;
      RunIsSound(o, vs.head, PushMode(st, Expanded));
      RunIsSound(o, vs.head, PushMode(st, Flat));
      if Fits(o, st, vs.head, 0) { NestedIsSound(o, vs.head, st); }
      BestRunIsSound(o, vs.tail, st);
    }
  }

  /** Fit soundness of a whole run: printing any well-formed document with distinct group ids, at
      any line width, every commitment to flat that a measurement makes is sound. */
  lemma FlatCommitmentsAreSound(o: Options, d: Doc)
    requires WellFormed(d) && Distinct(d)
    ensures CommitsSound(o, d, Printer.Start(d))
  {
    CleanAtStart(d);
    RunIsSound(o, d, Printer.Start(d));
  }

  /** A whole print: the output, blanks aside, is what a layout-free reading of some selection of the
      document prints, ending with whatever suffixes are still queued; both stacks end empty. */
  lemma PrintConserves(o: Options, d: Doc)
    ensures var evs := Selected(o, d, Printer.Start(d));
            var (out, left) := Play(evs, []);
            && IsSelection(d, Said(evs))
            && Visible(Printer.Printed(o, d)) == out + VisibleAll(left)
    ensures PrintDoc(o, d, Printer.Start(d)).modes == [] && PrintDoc(o, d, Printer.Start(d)).indents == []
  {
    var st := Printer.Start(d);
    var st' := PrintDoc(o, d, st);
    StacksRestored(o, d, st);
    SelectedIsSelection(o, d, st);
    DocKept(o, d, st);
    FlushVisible(o, st'.(suffixes := []), st'.suffixes);
  }
}
