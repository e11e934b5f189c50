/** The forced-break pass that runs before printing. */
module Propagate {
  import opened Wrappers
  import opened Document
  import opened Layout

  type Modes = map<GroupId, PrintMode>

  function MarkExpanded(gm: Modes, ids: set<GroupId>): Modes {
    gm + (map id | id in ids :: Expanded)
  }

  predicate IsForcing(a: Atom) {
    match a
    case Line(Hard) => true
    case Line(Empty) => true
    case ExpandParent => true
    case Text(s) => '\n' in s
    case _ => false
  }

  function Ids(stack: seq<GroupId>): set<GroupId> { set id | id in stack }

  /** The pass's state: the enclosing groups, the line-suffix depth, the marks so far. */
  datatype Scan = Scan(stack: seq<GroupId>, suffixDepth: int, marks: Modes)

  function PassElement(e: Element, s: Scan): Scan
    decreases e, 1
  {
    match e
    case Mark(StartGroup(id)) => s.(stack := s.stack + [id])
    case Mark(EndGroup) => s.(stack := if s.stack == [] then [] else s.stack[..|s.stack| - 1])
    case Mark(StartLineSuffix) => s.(suffixDepth := s.suffixDepth + 1)
    case Mark(EndLineSuffix) => s.(suffixDepth := s.suffixDepth - 1)
    case Mark(_) => s
    case Plain(a) => if s.suffixDepth == 0 && IsForcing(a) then s.(marks := MarkExpanded(s.marks, Ids(s.stack))) else s
    case BestFitting(vs) => s.(marks := PassVariants(vs, s.marks))
  }

  function PassVariants(vs: seq<Variant>, gm: Modes): Modes
    decreases vs, 0
  {
    if vs == [] then gm else PassVariants(vs[1..], Pass(vs[0].elements, Scan([], 0, gm)).marks)
  }

  /** The pass over one flat stream. */
  function Pass(es: seq<Element>, s: Scan): Scan
    decreases es, 2
  {
    if es == [] then s else Pass(es[1..], PassElement(es[0], s))
  }

  /** `propagate_expand`. */
  method PropagateExpand(elements: seq<Element>, groupModes: Modes) returns (marked: Modes)
    ensures marked == Pass(elements, Scan([], 0, groupModes)).marks
    decreases elements
  {
    marked := groupModes;
    var groupStack: seq<GroupId> := [];
    var suffixDepth: int := 0;
    for i := 0 to |elements|
      invariant Pass(elements[i..], Scan(groupStack, suffixDepth, marked)) == Pass(elements, Scan([], 0, groupModes))
    {
      ghost var before := Scan(groupStack, suffixDepth, marked);
      match elements[i] {
        case Mark(StartGroup(id)) => groupStack := groupStack + [id];
        case Mark(EndGroup) => if groupStack != [] { groupStack := groupStack[..|groupStack| - 1]; }
        case Mark(StartLineSuffix) => suffixDepth := suffixDepth + 1;
        case Mark(EndLineSuffix) => suffixDepth := suffixDepth - 1;
        case Mark(_) =>
        case Plain(a) =>
          if suffixDepth == 0 && IsForcing(a) {
            marked := MarkStack(groupStack, marked);
          }
        case BestFitting(variants) =>
          for k := 0 to |variants|
            invariant PassVariants(variants[k..], marked) == PassVariants(variants, before.marks)
          {
            assert variants[k..][1..] == variants[k + 1..];
            marked := PropagateExpand(variants[k].elements, marked);
          }
      }
      assert Scan(groupStack, suffixDepth, marked) == PassElement(elements[i], before);
      assert elements[i..][1..] == elements[i + 1..];
    }
  }

  /** A forced break marks every group on the stack. */
  method MarkStack(groupStack: seq<GroupId>, groupModes: Modes) returns (marked: Modes)
    ensures marked == MarkExpanded(groupModes, Ids(groupStack))
  {
    marked := groupModes;
    for k := 0 to |groupStack|
      invariant marked == MarkExpanded(groupModes, Ids(groupStack[..k]))
    {
      marked := marked[groupStack[k] := Expanded];
      assert groupStack[..k + 1] == groupStack[..k] + [groupStack[k]];
      assert Ids(groupStack[..k + 1]) == Ids(groupStack[..k]) + {groupStack[k]};
    }
    assert groupStack[..|groupStack|] == groupStack;
  }

  // ----- which groups the pass marks -----

  /** The atoms of a document's own stream: everything outside line suffixes and variants. */
  function OwnAtoms(d: Doc): seq<Atom>
    decreases d
  {
    match d
    case Nothing => []
    case Cat(a, b) => OwnAtoms(a) + OwnAtoms(b)
    case Leaf(a) => [a]
    case Group(_, b) => OwnAtoms(b)
    case Indented(_, b) => OwnAtoms(b)
    case Conditional(_, _, b) => OwnAtoms(b)
    case Fill(sep, es) => OwnEntryAtoms(sep, es)
    case Best(_) => []
    case LineSuffix(_) => []
  }

  function OwnEntryAtoms(sep: LineMode, es: Docs): seq<Atom>
    decreases es
  {
    match es
    case NoDocs => []
    case Docs(d, rest) => OwnAtoms(d) + (if rest == NoDocs then [] else [Line(sep)] + OwnEntryAtoms(sep, rest))
  }

  ghost predicate Forced(d: Doc) {
    exists a :: a in OwnAtoms(d) && IsForcing(a)
  }

  ghost predicate EntriesForced(sep: LineMode, es: Docs) {
    exists a :: a in OwnEntryAtoms(sep, es) && IsForcing(a)
  }

  /** The groups of a document whose own breaks count: not those inside a line suffix, unless a
      best-fitting element in it starts a stream of its own. */
  ghost function Groups(d: Doc, inSuffix: bool): set<(GroupId, Doc)>
    decreases d
  {
    match d
    case Nothing => {}
    case Cat(a, b) => Groups(a, inSuffix) + Groups(b, inSuffix)
    case Leaf(_) => {}
    case Group(id, b) => (if inSuffix then {} else {(id, b)}) + Groups(b, inSuffix)
    case Indented(_, b) => Groups(b, inSuffix)
    case Conditional(_, _, b) => Groups(b, inSuffix)
    case Fill(_, es) => GroupsOfAll(es, inSuffix)
    case Best(vs) => GroupsOfAll(vs, false)
    case LineSuffix(b) => Groups(b, true)
  }

  ghost function GroupsOfAll(ds: Docs, inSuffix: bool): set<(GroupId, Doc)>
    decreases ds
  {
    match ds
    case NoDocs => {}
    case Docs(d, rest) => Groups(d, inSuffix) + GroupsOfAll(rest, inSuffix)
  }

  ghost function ForcedIds(gs: set<(GroupId, Doc)>): set<GroupId> {
    set g | g in gs && Forced(g.1) :: g.0
  }

  lemma ForcedIdsUnion(x: set<(GroupId, Doc)>, y: set<(GroupId, Doc)>)
    ensures ForcedIds(x + y) == ForcedIds(x) + ForcedIds(y)
  {
  }

  ghost function Outward(d: bool, suffixDepth: int, stack: seq<GroupId>): set<GroupId> {
    if d && suffixDepth == 0 then Ids(stack) else {}
  }

  lemma MarkTwice(gm: Modes, x: set<GroupId>, y: set<GroupId>)
    ensures MarkExpanded(MarkExpanded(gm, x), y) == MarkExpanded(gm, x + y)
  {
  }

  lemma PassOne(e: Element, tail: seq<Element>, s: Scan)
    ensures Pass([e] + tail, s) == Pass(tail, PassElement(e, s))
  {
    hide PassElement;
    assert ([e] + tail)[1..] == tail;
  }

  /** What a document adds to the marks. */
  ghost function Marking(gs: set<(GroupId, Doc)>, forced: bool, s: Scan): Scan {
    s.(marks := MarkExpanded(s.marks, ForcedIds(gs) + Outward(forced, s.suffixDepth, s.stack)))
  }

  lemma MarkingTwice(gs: set<(GroupId, Doc)>, forced: bool, gs': set<(GroupId, Doc)>, forced': bool, s: Scan)
    ensures Marking(gs', forced', Marking(gs, forced, s)) == Marking(gs + gs', forced || forced', s)
  {
    var x := ForcedIds(gs) + Outward(forced, s.suffixDepth, s.stack);
    var y := ForcedIds(gs') + Outward(forced', s.suffixDepth, s.stack);
    MarkTwice(s.marks, x, y);
    ForcedIdsUnion(gs, gs');
    assert x + y == ForcedIds(gs + gs') + Outward(forced || forced', s.suffixDepth, s.stack);
  }

  lemma MarkingNothing(s: Scan)
    ensures Marking({}, false, s) == s
  {
    assert ForcedIds({}) + Outward(false, s.suffixDepth, s.stack) == {};
    assert MarkExpanded(s.marks, {}) == s.marks;
  }

  /** The pass over the stream of a document marks exactly its forced groups, and the groups
      around it when its own stream forces. */
  lemma {:induction false} PassStream(d: Doc, tail: seq<Element>, s: Scan)
    requires s.suffixDepth >= 0
    ensures Pass(Stream(d) + tail, s) == Pass(tail, Marking(Groups(d, s.suffixDepth > 0), Forced(d), s))
    decreases d, 1
  {
    hide Pass, Marking;
    var inS := s.suffixDepth > 0;
    match d
    case Nothing =>
      assert Stream(d) + tail == tail;
      MarkingNothing(s);
    case Cat(a, b) =>
      assert Stream(d) + tail == Stream(a) + (Stream(b) + tail);
      PassStream(a, Stream(b) + tail, s);
      var s1 := Marking(Groups(a, inS), Forced(a), s);
      MarkingKeeps(Groups(a, inS), Forced(a), s);
      PassStream(b, tail, s1);
      MarkingTwice(Groups(a, inS), Forced(a), Groups(b, inS), Forced(b), s);
      ForcedCat(OwnAtoms(a), OwnAtoms(b));
    case Leaf(a) =>
      PassOne(Plain(a), tail, s);
      PassAtom(a, s);
      assert a in OwnAtoms(d);
    case Group(id, b) => PassGroup(id, b, tail, s);
    case Indented(how, b) => PassBracketed(Opening(how), b, Closing(how), tail, s);
    case Conditional(m, id, b) => PassBracketed(StartConditional(m, id), b, EndConditional, tail, s);
    case Fill(sep, es) =>
      var after := [Mark(EndFill)] + tail;
      assert Stream(d) + tail == [Mark(StartFill)] + (EntryStream(sep, es) + after);
      PassOne(Mark(StartFill), EntryStream(sep, es) + after, s);
      PassEntries(sep, es, after, s);
      PassOne(Mark(EndFill), tail, Marking(Groups(d, inS), Forced(d), s));
    case Best(vs) =>
      PassOne(BestFitting(VariantStreams(vs)), tail, s);
      PassBest(vs, s);
    case LineSuffix(b) => PassSuffix(b, tail, s);
  }

  lemma MarkingKeeps(gs: set<(GroupId, Doc)>, forced: bool, s: Scan)
    ensures Marking(gs, forced, s).suffixDepth == s.suffixDepth && Marking(gs, forced, s).stack == s.stack
  {
  }

  lemma PassAtom(a: Atom, s: Scan)
    ensures PassElement(Plain(a), s) == Marking({}, IsForcing(a), s)
  {
    MarkingNothing(s);
    assert ForcedIds({}) + Outward(IsForcing(a), s.suffixDepth, s.stack)
           == Outward(IsForcing(a), s.suffixDepth, s.stack);
  }

  lemma {:induction false} PassBracketed(left: Tag, b: Doc, right: Tag, tail: seq<Element>, s: Scan)
    requires s.suffixDepth >= 0
    requires forall t: Tag :: t in {left, right} ==>
               !t.StartGroup? && !t.EndGroup? && !t.StartLineSuffix? && !t.EndLineSuffix?
    ensures Pass([Mark(left)] + Stream(b) + [Mark(right)] + tail, s)
         == Pass(tail, Marking(Groups(b, s.suffixDepth > 0), Forced(b), s))
    decreases b, 2
  {
    hide Pass, Marking;
    var after := [Mark(right)] + tail;
    assert [Mark(left)] + Stream(b) + [Mark(right)] + tail == [Mark(left)] + (Stream(b) + after);
    assert left in {left, right} && right in {left, right};
    PassOne(Mark(left), Stream(b) + after, s);
    PassStream(b, after, s);
    PassOne(Mark(right), tail, Marking(Groups(b, s.suffixDepth > 0), Forced(b), s));
  }

  lemma ForcedCat(x: seq<Atom>, y: seq<Atom>)
    ensures (exists a :: a in x + y && IsForcing(a)) <==>
              (exists a :: a in x && IsForcing(a)) || (exists a :: a in y && IsForcing(a))
  {
    if exists a :: a in x && IsForcing(a) { var a :| a in x && IsForcing(a); assert a in x + y; }
    if exists a :: a in y && IsForcing(a) { var a :| a in y && IsForcing(a); assert a in x + y; }
  }

  lemma {:induction false} PassGroup(id: GroupId, b: Doc, tail: seq<Element>, s: Scan)
    requires s.suffixDepth >= 0
    ensures Pass(Stream(Group(id, b)) + tail, s)
         == Pass(tail, Marking(Groups(Group(id, b), s.suffixDepth > 0), Forced(Group(id, b)), s))
    decreases b, 2
  {
    hide Pass;
    var inS := s.suffixDepth > 0;
    var after := [Mark(EndGroup)] + tail;
    var inner := s.(stack := s.stack + [id]);
    var marked := Marking(Groups(b, inS), Forced(b), inner);
    assert Stream(Group(id, b)) + tail == [Mark(StartGroup(id))] + (Stream(b) + after);
    PassOne(Mark(StartGroup(id)), Stream(b) + after, s);
    PassStream(b, after, inner);
    PassOne(Mark(EndGroup), tail, marked);
    assert inner.stack[..|s.stack|] == s.stack;
    var own: set<(GroupId, Doc)> := if inS then {} else {(id, b)};
    ForcedIdsUnion(own, Groups(b, inS));
    assert Forced(Group(id, b)) == Forced(b);
    assert Ids(inner.stack) == Ids(s.stack) + {id};
    assert ForcedIds(own) == (if !inS && Forced(b) then {id} else {}) by {
      if !inS && Forced(b) { assert (id, b) in own; }
    }
    assert ForcedIds(Groups(b, inS)) + Outward(Forced(b), s.suffixDepth, inner.stack)
        == ForcedIds(own + Groups(b, inS)) + Outward(Forced(b), s.suffixDepth, s.stack);
  }

  lemma {:induction false} PassSuffix(b: Doc, tail: seq<Element>, s: Scan)
    requires s.suffixDepth >= 0
    ensures Pass(Stream(LineSuffix(b)) + tail, s)
         == Pass(tail, Marking(Groups(LineSuffix(b), s.suffixDepth > 0), Forced(LineSuffix(b)), s))
    decreases b, 2
  {
    hide Pass;
    var after := [Mark(EndLineSuffix)] + tail;
    var inner := s.(suffixDepth := s.suffixDepth + 1);
    assert Stream(LineSuffix(b)) + tail == [Mark(StartLineSuffix)] + (Stream(b) + after);
    PassOne(Mark(StartLineSuffix), Stream(b) + after, s);
    PassStream(b, after, inner);
    PassOne(Mark(EndLineSuffix), tail, Marking(Groups(b, true), Forced(b), inner));
    assert !Forced(LineSuffix(b));
  }

  lemma {:induction false} PassBest(vs: Docs, s: Scan)
    ensures PassElement(BestFitting(VariantStreams(vs)), s)
            == Marking(Groups(Best(vs), s.suffixDepth > 0), Forced(Best(vs)), s)
    decreases vs, 2
  {
    PassVariantStreams(vs, s.marks);
    assert !Forced(Best(vs));
    assert ForcedIds(Groups(Best(vs), s.suffixDepth > 0)) + Outward(false, s.suffixDepth, s.stack)
           == ForcedIds(GroupsOfAll(vs, false));
  }

  lemma {:induction false} PassVariantStreams(vs: Docs, gm: Modes)
    ensures PassVariants(VariantStreams(vs), gm) == MarkExpanded(gm, ForcedIds(GroupsOfAll(vs, false)))
    decreases vs, 0
  {
    match vs
    case NoDocs => assert MarkExpanded(gm, ForcedIds(GroupsOfAll(vs, false))) == gm;
    case Docs(d, rest) =>
      assert VariantStreams(vs)[1..] == VariantStreams(rest);
      PassWhole(d, gm);
      var x := ForcedIds(Groups(d, false));
      PassVariantStreams(rest, MarkExpanded(gm, x));
      MarkTwice(gm, x, ForcedIds(GroupsOfAll(rest, false)));
      ForcedIdsUnion(Groups(d, false), GroupsOfAll(rest, false));
  }

  lemma {:induction false} PassWhole(d: Doc, gm: Modes)
    ensures Pass(Stream(d), Scan([], 0, gm)).marks == MarkExpanded(gm, ForcedIds(Groups(d, false)))
    decreases d, 2
  {
    assert Stream(d) + [] == Stream(d);
    PassStream(d, [], Scan([], 0, gm));
    assert ForcedIds(Groups(d, false)) + Outward(Forced(d), 0, []) == ForcedIds(Groups(d, false));
  }

  lemma {:induction false} PassEntries(sep: LineMode, es: Docs, tail: seq<Element>, s: Scan)
    requires s.suffixDepth >= 0
    ensures Pass(EntryStream(sep, es) + tail, s)
         == Pass(tail, Marking(GroupsOfAll(es, s.suffixDepth > 0), EntriesForced(sep, es), s))
    decreases es, 0
  {
    hide Pass, Marking;
    var inS := s.suffixDepth > 0;
    match es
    case NoDocs =>
      assert EntryStream(sep, es) + tail == tail;
      MarkingNothing(s);
    case Docs(d, rest) =>
      var next := (if rest == NoDocs then [] else [Plain(Line(sep))] + EntryStream(sep, rest)) + tail;
      assert EntryStream(sep, es) + tail == [Mark(StartEntry)] + Stream(d) + [Mark(EndEntry)] + next;
      PassBracketed(StartEntry, d, EndEntry, next, s);
      var s1 := Marking(Groups(d, inS), Forced(d), s);
      MarkingKeeps(Groups(d, inS), Forced(d), s);
      if rest == NoDocs {
        assert next == tail;
        assert OwnEntryAtoms(sep, es) == OwnAtoms(d);
        assert GroupsOfAll(es, inS) == Groups(d, inS);
      } else {
        assert next == [Plain(Line(sep))] + (EntryStream(sep, rest) + tail);
        PassOne(Plain(Line(sep)), EntryStream(sep, rest) + tail, s1);
        PassAtom(Line(sep), s1);
        var s2 := Marking({}, IsForcing(Line(sep)), s1);
        MarkingKeeps({}, IsForcing(Line(sep)), s1);
        PassEntries(sep, rest, tail, s2);
        MarkingTwice(Groups(d, inS), Forced(d), {}, IsForcing(Line(sep)), s);
        MarkingTwice(Groups(d, inS) + {}, Forced(d) || IsForcing(Line(sep)), GroupsOfAll(rest, inS),
                     EntriesForced(sep, rest), s);
        ForcedEntries(sep, d, rest);
        assert Groups(d, inS) + {} + GroupsOfAll(rest, inS) == GroupsOfAll(es, inS);
      }
  }

  lemma ForcedEntries(sep: LineMode, d: Doc, rest: Docs)
    requires rest != NoDocs
    ensures EntriesForced(sep, Docs(d, rest)) == (Forced(d) || IsForcing(Line(sep)) || EntriesForced(sep, rest))
  {
    ForcedCat(OwnAtoms(d), [Line(sep)] + OwnEntryAtoms(sep, rest));
    ForcedCat([Line(sep)], OwnEntryAtoms(sep, rest));
    assert Line(sep) in [Line(sep)];
    assert forall a :: a in [Line(sep)] ==> a == Line(sep);
  }

  /** After the pass a group is expanded if and only if some group with its id has a hard or empty
      line, an expand marker or a multi-line text in its own stream; a best-fitting element's
      variants are streams of their own and force nothing outside. */
  lemma PropagationIsExact(d: Doc, id: GroupId)
    ensures Decided(Pass(Stream(d), Scan([], 0, map[])).marks, id)
         == if exists b :: (id, b) in Groups(d, false) && Forced(b) then Some(Expanded) else None
  {
    PassWhole(d, map[]);
    assert id in ForcedIds(Groups(d, false)) <==> exists b :: (id, b) in Groups(d, false) && Forced(b) by {
      forall g | g in Groups(d, false) && Forced(g.1) && g.0 == id ensures (id, g.1) in Groups(d, false) {}
      forall b | (id, b) in Groups(d, false) && Forced(b) ensures (id, b).0 in ForcedIds(Groups(d, false)) {}
    }
  }
}
