/** What the printer selects from a document, and the proof that it all reaches the output: every
    selected text once and in order, every queued line suffix once and before the next break. */
module Conservation {
  import opened Wrappers
  import opened Document
  import opened Layout
  import opened DocLayout

  /** One decision the printer takes while it walks a document. */
  datatype Event = Say(text: string) | Break | Defer(texts: seq<string>)

  /** The texts a queued suffix stream will print. */
  function SuffixTexts(es: seq<Element>): seq<string> {
    if es == [] then []
    else
      (match es[0]
       case Plain(Token(s)) => [s]
       case Plain(Text(s)) => [s]
       case _ => []) + SuffixTexts(es[1..])
  }

  function AtomEvents(st: State, a: Atom): seq<Event> {
    match a
    case Token(s) => [Say(s)]
    case Text(s) => [Say(s)]
    case Line(m) => if m in {Hard, Empty} || CurrentMode(st) == Expanded then [Break] else []
    case LineSuffixBoundary => if st.suffixes != [] then [Break] else []
    case _ => []
  }

  /** The decisions taken while printing a document, in order. */
  function Selected(o: Options, d: Doc, st: State): seq<Event>
    decreases d
  {
    match d
    case Nothing => []
    case Cat(a, b) => Selected(o, a, st) + Selected(o, b, PrintDoc(o, a, st))
    case Leaf(a) => AtomEvents(st, a)
    case Group(id, b) => Selected(o, b, EnterGroup(st, id, DocGroupMode(o, st, id, b)))
    case Indented(how, b) => Selected(o, b, PushIndent(st, IndentFor(st, how)))
    case Conditional(m, id, b) => if Decided(st.groupModes, id) == Some(m) then Selected(o, b, st) else []
    case Fill(sep, es) => SelectedEntries(o, sep, es, st)
    case Best(vs) => SelectedBest(o, vs, st)
    case LineSuffix(b) => [Defer(SuffixTexts(Stream(b)))]
  }

  function SelectedEntries(o: Options, sep: LineMode, es: Docs, st: State): seq<Event>
    decreases es
  {
    match es
    case NoDocs => []
    case Docs(d, rest) =>
      var own := Selected(o, d, PushMode(st, if Fits(o, st, d, 0) then Flat else Expanded));
      if rest == NoDocs then own
      else
        var st1 := PrintEntry(o, d, st);
        own + SeparatorEvents(o, sep, rest.head, st1)
          + SelectedEntries(o, sep, rest, PrintSeparator(o, sep, rest.head, st1))
  }

  function SeparatorEvents(o: Options, sep: LineMode, next: Doc, st: State): seq<Event> {
    if sep in {Hard, Empty} || !Fits(o, st, next, if sep == SoftOrSpace then 1 else 0) then [Break] else []
  }

  function SelectedBest(o: Options, vs: Docs, st: State): seq<Event>
    decreases vs
  {
    match vs
    case NoDocs => []
    case Docs(v, rest) =>
      if rest == NoDocs then Selected(o, v, PushMode(st, Expanded))
      else if Fits(o, st, v, 0) then Selected(o, v, PushMode(st, Flat))
      else SelectedBest(o, rest, st)
  }

  // ----- the output the decisions call for -----

  predicate IsVisible(c: char) { c != ' ' && c != '\t' && c != '\n' }

  /** Text with every blank taken out. */
  function Visible(s: string): string {
    if s == "" then "" else (if IsVisible(s[0]) then [s[0]] else "") + Visible(s[1..])
  }

  function VisibleAll(ts: seq<string>): string {
    if ts == [] then "" else Visible(ts[0]) + VisibleAll(ts[1..])
  }

  /** A layout-free reading of the decisions: says print at once, deferred texts print at the next
      break. Returns what has been printed and what is still deferred. */
  function Play(evs: seq<Event>, deferred: seq<string>): (string, seq<string>) {
    if evs == [] then ("", deferred)
    else
      match evs[0]
      case Say(s) =>
        var (out, left) := Play(evs[1..], deferred);
        (Visible(s) + out, left)
      case Defer(ts) => Play(evs[1..], deferred + ts)
      case Break =>
        var (out, left) := Play(evs[1..], []);
        (VisibleAll(deferred) + out, left)
  }

  lemma {:induction false} VisibleCat(s: string, t: string)
    ensures Visible(s + t) == Visible(s) + Visible(t)
    decreases |s|
  {
    if s == "" {
      assert s + t == t;
      assert "" + Visible(t) == Visible(t);
    } else {
      var own := if IsVisible(s[0]) then [s[0]] else "";
      VisibleCat(s[1..], t);
      assert (s + t)[1..] == s[1..] + t;
      assert Visible(s + t) == own + Visible(s[1..] + t);
      assert own + (Visible(s[1..]) + Visible(t)) == own + Visible(s[1..]) + Visible(t);
    }
  }

  lemma {:induction false} VisibleBlank(s: string)
    requires forall k :: 0 <= k < |s| ==> !IsVisible(s[k])
    ensures Visible(s) == ""
    decreases |s|
  {
    if s != "" { VisibleBlank(s[1..]); }
  }

  lemma VisiblePadded(s: string, blanks: string)
    requires forall k :: 0 <= k < |blanks| ==> !IsVisible(blanks[k])
    ensures Visible(s + blanks) == Visible(s)
  {
    VisibleCat(s, blanks);
    VisibleBlank(blanks);
  }

  lemma {:induction false} TextsCat(x: seq<Element>, y: seq<Element>)
    ensures SuffixTexts(x + y) == SuffixTexts(x) + SuffixTexts(y)
    decreases |x|
  {
    if x == [] {
      assert x + y == y;
    } else {
      assert (x + y)[1..] == x[1..] + y;
      TextsCat(x[1..], y);
    }
  }

  /** Emitting a text adds its visible characters, whatever indentation and space come first. */
  lemma EmitVisible(o: Options, st: State, s: string)
    ensures Visible(EmitText(o, st, s).output) == Visible(st.output) + Visible(s)
    ensures EmitText(o, st, s).suffixes == st.suffixes
  {
    var st1 := if st.pendingIndent then FlushIndent(o, st) else st;
    if st.pendingIndent {
      var lead := if o.useTabs then Times('\t', IndentLevels(st.indents))
        else Times(' ', IndentLevels(st.indents) * o.indentWidth);
      VisiblePadded(st.output, lead);
      VisiblePadded(st.output + lead, Times(' ', AlignSpaces(st.indents)));
    }
    VisiblePadded(st1.output, " ");
    VisibleCat(FlushSpace(st1).output, s);
  }

  lemma {:induction false} FlushVisible(o: Options, st: State, es: seq<Element>)
    ensures Visible(FlushElements(o, st, es).output) == Visible(st.output) + VisibleAll(SuffixTexts(es))
    ensures FlushElements(o, st, es).suffixes == st.suffixes
    decreases |es|
  {
    if es != [] {
      hide EmitText;
      FlushVisible(o, FlushElement(o, st, es[0]), es[1..]);
      match es[0] {
        case Plain(Token(s)) => EmitVisible(o, st, s); VisibleAllCons(s, SuffixTexts(es[1..]));
        case Plain(Text(s)) => EmitVisible(o, st, s); VisibleAllCons(s, SuffixTexts(es[1..]));
        case _ => assert SuffixTexts(es) == SuffixTexts(es[1..]);
      }
    }
  }

  lemma VisibleAllCons(s: string, ts: seq<string>)
    ensures VisibleAll([s] + ts) == Visible(s) + VisibleAll(ts)
  {
    assert ([s] + ts)[1..] == ts;
  }

  /** A break prints everything deferred, then only blanks. */
  lemma NewlineVisible(o: Options, st: State, blankLine: bool)
    ensures Visible(EmitNewline(o, st, blankLine).output) == Visible(st.output) + VisibleAll(SuffixTexts(st.suffixes))
    ensures EmitNewline(o, st, blankLine).suffixes == []
  {
    FlushVisible(o, st.(suffixes := []), st.suffixes);
    var flushed := FlushSuffixes(o, st);
    var trimmed := TrimFrom(flushed.output, flushed.lineStart);
    VisiblePadded(trimmed, flushed.output[|trimmed|..]);
    assert trimmed + flushed.output[|trimmed|..] == flushed.output;
    VisiblePadded(trimmed, Times('\n', BlankLineGap(trimmed)));
    VisiblePadded(trimmed, "\n");
  }

  // ----- conservation -----

  /** The state after some decisions has printed exactly what they call for. */
  ghost predicate Kept(st: State, evs: seq<Event>, st': State) {
    var (out, left) := Play(evs, SuffixTexts(st.suffixes));
    Visible(st'.output) == Visible(st.output) + out && SuffixTexts(st'.suffixes) == left
  }

  lemma {:induction false} PlayCat(x: seq<Event>, y: seq<Event>, deferred: seq<string>)
    ensures Play(x + y, deferred)
            == (Play(x, deferred).0 + Play(y, Play(x, deferred).1).0, Play(y, Play(x, deferred).1).1)
    decreases |x|
  {
    if x == [] {
      assert x + y == y;
      assert "" + Play(y, deferred).0 == Play(y, deferred).0;
    } else {
      assert (x + y)[1..] == x[1..] + y;
      match x[0] {
        case Say(s) =>
          PlayCat(x[1..], y, deferred);
          var (out, left) := Play(x[1..], deferred);
          assert Visible(s) + (out + Play(y, left).0) == (Visible(s) + out) + Play(y, left).0;
        case Defer(ts) => PlayCat(x[1..], y, deferred + ts);
        case Break =>
          PlayCat(x[1..], y, []);
          var (out, left) := Play(x[1..], []);
          assert VisibleAll(deferred) + (out + Play(y, left).0) == (VisibleAll(deferred) + out) + Play(y, left).0;
      }
    }
  }

  function PlayEvent(ev: Event, deferred: seq<string>): (string, seq<string>) {
    match ev
    case Say(s) => (Visible(s), deferred)
    case Defer(ts) => ("", deferred + ts)
    case Break => (VisibleAll(deferred), [])
  }

  lemma PlayOne(ev: Event, deferred: seq<string>)
    ensures Play([], deferred) == ("", deferred)
    ensures Play([ev], deferred) == PlayEvent(ev, deferred)
  {
    assert [ev][1..] == [];
    assert PlayEvent(ev, deferred).0 + "" == PlayEvent(ev, deferred).0;
  }

  lemma KeptCat(st: State, x: seq<Event>, mid: State, y: seq<Event>, st': State)
    requires Kept(st, x, mid) && Kept(mid, y, st')
    ensures Kept(st, x + y, st')
  {
    PlayCat(x, y, SuffixTexts(st.suffixes));
  }

  lemma SayKept(o: Options, st: State, s: string)
    ensures Kept(st, [Say(s)], EmitText(o, st, s))
  {
    hide EmitText, Visible, SuffixTexts, Play;
    EmitVisible(o, st, s);
    PlayOne(Say(s), SuffixTexts(st.suffixes));
  }

  lemma BreakKept(o: Options, st: State, blankLine: bool)
    ensures Kept(st, [Break], EmitNewline(o, st, blankLine))
  {
    hide EmitNewline, Visible, VisibleAll, Play;
    NewlineVisible(o, st, blankLine);
    PlayOne(Break, SuffixTexts(st.suffixes));
  }

  lemma SpaceKept(st: State)
    ensures Kept(st, [], st) && Kept(st, [], st.(pendingSpace := true))
  {
    hide Visible, SuffixTexts, Play;
    PlayOne(Break, SuffixTexts(st.suffixes));
    assert Visible(st.output) + "" == Visible(st.output);
  }

  lemma AtomKept(o: Options, st: State, a: Atom)
    ensures Kept(st, AtomEvents(st, a), PrintAtom(o, st, a))
  {
    hide EmitText, EmitNewline, Kept;
    match a {
      case Token(s) => SayKept(o, st, s);
      case Text(s) => SayKept(o, st, s);
      case Line(m) => BreakKept(o, st, m == Empty); SpaceKept(st);
      case LineSuffixBoundary => BreakKept(o, st, false); SpaceKept(st);
      case _ => SpaceKept(st);
    }
  }

  lemma SeparatorKept(o: Options, sep: LineMode, next: Doc, st: State)
    ensures Kept(st, SeparatorEvents(o, sep, next, st), PrintSeparator(o, sep, next, st))
  {
    hide EmitNewline, Fits;
    NewlineVisible(o, st, sep == Empty);
    PlayOne(Break, SuffixTexts(st.suffixes));
    assert Visible(st.output) + "" == Visible(st.output);
  }

  /** Printing a document puts exactly its selected texts into the output, deferred ones at the
      next break, and leaves in the queue exactly what was deferred after the last one. */
  lemma {:induction false} DocKept(o: Options, d: Doc, st: State)
    ensures Kept(st, Selected(o, d, st), PrintDoc(o, d, st))
    decreases d
  {
    hide PrintAtom, AtomEvents, Fits;
    match d
    case Nothing =>
    case Cat(a, b) =>
      DocKept(o, a, st);
      DocKept(o, b, PrintDoc(o, a, st));
      KeptCat(st, Selected(o, a, st), PrintDoc(o, a, st), Selected(o, b, PrintDoc(o, a, st)), PrintDoc(o, d, st));
    case Leaf(a) => AtomKept(o, st, a);
    case Group(id, b) => DocKept(o, b, EnterGroup(st, id, DocGroupMode(o, st, id, b)));
    case Indented(how, b) => DocKept(o, b, PushIndent(st, IndentFor(st, how)));
    case Conditional(m, id, b) => if Decided(st.groupModes, id) == Some(m) { DocKept(o, b, st); }
    case Fill(sep, es) => EntriesKept(o, sep, es, st);
    case Best(vs) => BestKept(o, vs, st);
    case LineSuffix(b) =>
      TextsCat(st.suffixes, Stream(b));
      PlayOne(Defer(SuffixTexts(Stream(b))), SuffixTexts(st.suffixes));
      assert Visible(st.output) + "" == Visible(st.output);
  }

  lemma {:induction false} EntriesKept(o: Options, sep: LineMode, es: Docs, st: State)
    ensures Kept(st, SelectedEntries(o, sep, es, st), PrintEntries(o, sep, es, st))
    decreases es
  {
    hide Fits, PrintSeparator, SeparatorEvents;
    if es.Docs? {
      var inner := PushMode(st, if Fits(o, st, es.head, 0) then Flat else Expanded);
      DocKept(o, es.head, inner);
      var st1 := PrintEntry(o, es.head, st);
      if es.tail.Docs? {
        var next := es.tail.head;
        SeparatorKept(o, sep, next, st1);
        var st2 := PrintSeparator(o, sep, next, st1);
        EntriesKept(o, sep, es.tail, st2);
        var own := Selected(o, es.head, inner);
        KeptCat(st, own, st1, SeparatorEvents(o, sep, next, st1), st2);
        KeptCat(st, own + SeparatorEvents(o, sep, next, st1), st2, SelectedEntries(o, sep, es.tail, st2),
                PrintEntries(o, sep, es, st));
      }
    }
  }

  lemma {:induction false} BestKept(o: Options, vs: Docs, st: State)
    ensures Kept(st, SelectedBest(o, vs, st), PrintBest(o, vs, st))
    decreases vs
  {
    hide Fits;
    if vs.Docs? {
      DocKept(o, vs.head, PushMode(st, Expanded));
      DocKept(o, vs.head, PushMode(st, Flat));
      BestKept(o, vs.tail, st);
    }
  }

  // ----- what may be selected -----

  /** The texts of some decisions, deferred or not, in document order. */
  function Said(evs: seq<Event>): seq<string> {
    if evs == [] then []
    else (match evs[0] case Say(s) => [s] case Defer(ts) => ts case Break => []) + Said(evs[1..])
  }

  /** `ts` is all the texts of the document in order, except that a conditional may be left out
      whole and a best-fitting element contributes exactly one of its variants. */
  ghost predicate IsSelection(d: Doc, ts: seq<string>)
    decreases d
  {
    match d
    case Nothing => ts == []
    case Cat(a, b) => exists k :: 0 <= k <= |ts| && IsSelection(a, ts[..k]) && IsSelection(b, ts[k..])
    case Leaf(Token(s)) => ts == [s]
    case Leaf(Text(s)) => ts == [s]
    case Leaf(_) => ts == []
    case Group(_, b) => IsSelection(b, ts)
    case Indented(_, b) => IsSelection(b, ts)
    case Conditional(_, _, b) => ts == [] || IsSelection(b, ts)
    case Fill(_, es) => IsSelectionOfAll(es, ts)
    case Best(vs) => if vs == NoDocs then ts == [] else IsSelectionOfOne(vs, ts)
    case LineSuffix(b) => ts == SuffixTexts(Stream(b))
  }

  ghost predicate IsSelectionOfAll(es: Docs, ts: seq<string>)
    decreases es
  {
    match es
    case NoDocs => ts == []
    case Docs(d, rest) => exists k :: 0 <= k <= |ts| && IsSelection(d, ts[..k]) && IsSelectionOfAll(rest, ts[k..])
  }

  ghost predicate IsSelectionOfOne(vs: Docs, ts: seq<string>)
    decreases vs
  {
    match vs
    case NoDocs => false
    case Docs(v, rest) => IsSelection(v, ts) || IsSelectionOfOne(rest, ts)
  }

  lemma {:induction false} SaidCat(x: seq<Event>, y: seq<Event>)
    ensures Said(x + y) == Said(x) + Said(y)
    decreases |x|
  {
    if x == [] {
      assert x + y == y;
    } else {
      assert (x + y)[1..] == x[1..] + y;
      SaidCat(x[1..], y);
    }
  }

  /** The decisions select from the document and from nothing else. */
  lemma {:induction false} SelectedIsSelection(o: Options, d: Doc, st: State)
    ensures IsSelection(d, Said(Selected(o, d, st)))
    decreases d
  {
    hide Fits, PrintAtom;
    match d
    case Nothing =>
    case Cat(a, b) =>
      var x := Selected(o, a, st);
      var y := Selected(o, b, PrintDoc(o, a, st));
      SelectedIsSelection(o, a, st);
      SelectedIsSelection(o, b, PrintDoc(o, a, st));
      SaidCat(x, y);
      Splits(Said(x), Said(y));
    case Leaf(a) =>
      forall ev: Event ensures [ev][1..] == [] {}
    case Group(id, b) => SelectedIsSelection(o, b, EnterGroup(st, id, DocGroupMode(o, st, id, b)));
    case Indented(how, b) => SelectedIsSelection(o, b, PushIndent(st, IndentFor(st, how)));
    case Conditional(m, id, b) => if Decided(st.groupModes, id) == Some(m) { SelectedIsSelection(o, b, st); }
    case Fill(sep, es) => EntriesSelection(o, sep, es, st);
    case Best(vs) => BestSelection(o, vs, st);
    case LineSuffix(b) => assert [Defer(SuffixTexts(Stream(b)))][1..] == [];
  }

  lemma Splits(x: seq<string>, y: seq<string>)
    ensures (x + y)[..|x|] == x && (x + y)[|x|..] == y && 0 <= |x| <= |x + y|
  {
  }

  lemma SeparatorSaysNothing(o: Options, sep: LineMode, next: Doc, st: State)
    ensures Said(SeparatorEvents(o, sep, next, st)) == []
  {
    hide Fits;
    assert [Break][1..] == [];
  }

  lemma {:induction false} EntriesSelection(o: Options, sep: LineMode, es: Docs, st: State)
    ensures IsSelectionOfAll(es, Said(SelectedEntries(o, sep, es, st)))
    decreases es
  {
    hide Fits, PrintSeparator, SeparatorEvents, Selected, Said, IsSelection;
    if es.Docs? {
      var inner := PushMode(st, if Fits(o, st, es.head, 0) then Flat else Expanded);
      SelectedIsSelection(o, es.head, inner);
      var own := Selected(o, es.head, inner);
      if es.tail.Docs? {
        var st1 := PrintEntry(o, es.head, st);
        var between := SeparatorEvents(o, sep, es.tail.head, st1);
        var st2 := PrintSeparator(o, sep, es.tail.head, st1);
        var others := SelectedEntries(o, sep, es.tail, st2);
        EntriesSelection(o, sep, es.tail, st2);
        SeparatorSaysNothing(o, sep, es.tail.head, st1);
        SaidCat(own, between);
        SaidCat(own + between, others);
        assert Said(own) + [] == Said(own);
        Splits(Said(own), Said(others));
      } else {
        Splits(Said(own), []);
        assert Said(own) + [] == Said(own);
      }
    } else {
      assert Said([]) == [] by { SaidNothing(); }
    }
  }

  lemma SaidNothing()
    ensures Said([]) == []
  {
  }

  lemma {:induction false} BestSelection(o: Options, vs: Docs, st: State)
    ensures vs.Docs? ==> IsSelectionOfOne(vs, Said(SelectedBest(o, vs, st)))
    ensures vs.NoDocs? ==> SelectedBest(o, vs, st) == []
    decreases vs
  {
    hide Fits;
    if vs.Docs? {
      SelectedIsSelection(o, vs.head, PushMode(st, Expanded));
      SelectedIsSelection(o, vs.head, PushMode(st, Flat));
      BestSelection(o, vs.tail, st);
    }
  }

  // ----- stacks -----

  /** Printing a document leaves the mode and indent stacks as it found them. */
  lemma {:induction false} StacksRestored(o: Options, d: Doc, st: State)
    ensures PrintDoc(o, d, st).modes == st.modes && PrintDoc(o, d, st).indents == st.indents
    decreases d
  {
    hide Fits;
    match d
    case Nothing =>
    case Cat(a, b) =>
      StacksRestored(o, a, st);
      StacksRestored(o, b, PrintDoc(o, a, st));
    case Leaf(a) => AtomStacks(o, st, a);
    case Group(id, b) => StacksRestored(o, b, EnterGroup(st, id, DocGroupMode(o, st, id, b)));
    case Indented(how, b) => StacksRestored(o, b, PushIndent(st, IndentFor(st, how)));
    case Conditional(m, id, b) => if Decided(st.groupModes, id) == Some(m) { StacksRestored(o, b, st); }
    case Fill(sep, es) => EntriesStacks(o, sep, es, st);
    case Best(vs) => BestStacks(o, vs, st);
    case LineSuffix(b) =>
  }

  lemma {:induction false} FlushStacks(o: Options, st: State, es: seq<Element>)
    ensures FlushElements(o, st, es).modes == st.modes && FlushElements(o, st, es).indents == st.indents
    ensures FlushElements(o, st, es).groupModes == st.groupModes
    decreases |es|
  {
    if es != [] { FlushStacks(o, FlushElement(o, st, es[0]), es[1..]); }
  }

  lemma NewlineStacks(o: Options, st: State, blankLine: bool)
    ensures var st' := EmitNewline(o, st, blankLine);
            st'.modes == st.modes && st'.indents == st.indents && st'.groupModes == st.groupModes
  {
    FlushStacks(o, st.(suffixes := []), st.suffixes);
  }

  lemma AtomStacks(o: Options, st: State, a: Atom)
    ensures PrintAtom(o, st, a).modes == st.modes && PrintAtom(o, st, a).indents == st.indents
    ensures PrintAtom(o, st, a).groupModes == st.groupModes
  {
    NewlineStacks(o, st, false);
    NewlineStacks(o, st, true);
  }

  lemma SeparatorStacks(o: Options, sep: LineMode, next: Doc, st: State)
    ensures var st' := PrintSeparator(o, sep, next, st);
            st'.modes == st.modes && st'.indents == st.indents && st'.groupModes == st.groupModes
  {
    hide Fits, EmitNewline;
    NewlineStacks(o, st, false);
    NewlineStacks(o, st, true);
  }

  lemma {:induction false} EntriesStacks(o: Options, sep: LineMode, es: Docs, st: State)
    ensures PrintEntries(o, sep, es, st).modes == st.modes && PrintEntries(o, sep, es, st).indents == st.indents
    decreases es
  {
    hide Fits, PrintSeparator;
    if es.Docs? {
      StacksRestored(o, es.head, PushMode(st, if Fits(o, st, es.head, 0) then Flat else Expanded));
      if es.tail.Docs? {
        var st1 := PrintEntry(o, es.head, st);
        SeparatorStacks(o, sep, es.tail.head, st1);
        EntriesStacks(o, sep, es.tail, PrintSeparator(o, sep, es.tail.head, st1));
      }
    }
  }

  lemma {:induction false} BestStacks(o: Options, vs: Docs, st: State)
    ensures PrintBest(o, vs, st).modes == st.modes && PrintBest(o, vs, st).indents == st.indents
    decreases vs
  {
    hide Fits;
    if vs.Docs? {
      StacksRestored(o, vs.head, PushMode(st, Expanded));
      StacksRestored(o, vs.head, PushMode(st, Flat));
      BestStacks(o, vs.tail, st);
    }
  }
}
