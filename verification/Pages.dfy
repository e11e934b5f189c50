/** What a print looks like on the page: lines, their margins, and the blanks between words. The marks of a
    run say what is to be written where; the page is read from them without the printer's bookkeeping. */
module Pages {
  import opened Wrappers
  import opened Document
  import opened Layout
  import opened DocLayout
  import opened SourceLines
  import Conservation
  import FitSoundness
  import Printer

  // ----- marks -----

  /** A word carries the margin that its line gets if it is the first on it; a feed ends the line, with a
      blank line behind it if `blank`; a note waits for the end of the line. */
  datatype Mark =
    | Word(text: string, margin: string)
    | Gap
    | Feed(blank: bool, margin: string)
    | Note(elements: seq<Element>)

  /** The blanks in front of a line: for every level a tab or a step of spaces, and then the spaces asked for
      one by one. */
  function Margin(o: Options, indents: seq<Indent>): string { LevelBlanks(o, indents) + AlignBlanks(indents) }

  function LevelBlanks(o: Options, indents: seq<Indent>): string {
    if indents == [] then ""
    else
      (if indents[0] == Level then if o.useTabs then "\t" else Times(' ', o.indentWidth) else "")
      + LevelBlanks(o, indents[1..])
  }

  function AlignBlanks(indents: seq<Indent>): string {
    if indents == [] then ""
    else (match indents[0] case Align(n) => Times(' ', n) case _ => "") + AlignBlanks(indents[1..])
  }

  /** What the brackets of `how` put on the stack. */
  function Nest(st: State, how: Indentation): Indent {
    match how
    case ByLevel => Level
    case ByAlign(n) => Align(n)
    case IfBreaks(id) => if id in st.groupModes && st.groupModes[id].Expanded? then Level else Inactive
  }

  function LineMarks(m: LineMode, flat: bool, margin: string): seq<Mark> {
    match m
    case Hard => [Feed(false, margin)]
    case Empty => [Feed(true, margin)]
    case Soft => if flat then [] else [Feed(false, margin)]
    case SoftOrSpace => if flat then [Gap] else [Feed(false, margin)]
  }

  function AtomMarks(st: State, a: Atom, mode: PrintMode, margin: string): seq<Mark> {
    match a
    case Token(s) => [Word(s, margin)]
    case Text(s) => [Word(s, margin)]
    case Space => [Gap]
    case Line(m) => LineMarks(m, mode == Flat, margin)
    case ExpandParent => []
    case LineSuffixBoundary => if st.suffixes != [] then [Feed(false, margin)] else []
  }

  /** The marks of a document that is printed from `st`, with `indents` around it and in `mode`. */
  function Marks(o: Options, d: Doc, st: State, indents: seq<Indent>, mode: PrintMode): seq<Mark>
    decreases d
  {
    match d
    case Nothing => []
    case Cat(a, b) => Marks(o, a, st, indents, mode) + Marks(o, b, PrintDoc(o, a, st), indents, mode)
    case Leaf(a) => AtomMarks(st, a, mode, Margin(o, indents))
    case Group(id, b) =>
      var m := DocGroupMode(o, st, id, b);
      Marks(o, b, EnterGroup(st, id, m), indents, m)
    case Indented(how, b) => Marks(o, b, PushIndent(st, IndentFor(st, how)), indents + [Nest(st, how)], mode)
    case Conditional(m, id, b) =>
      if id in st.groupModes && st.groupModes[id] == m then Marks(o, b, st, indents, mode) else []
    case Fill(sep, es) => EntryMarks(o, sep, es, st, indents)
    case Best(vs) => BestMarks(o, vs, st, indents)
    case LineSuffix(b) => [Note(Stream(b))]
  }

  /** An entry is flat where it fits by itself. */
  function EntryMarks(o: Options, sep: LineMode, es: Docs, st: State, indents: seq<Indent>): seq<Mark>
    decreases es
  {
    match es
    case NoDocs => []
    case Docs(d, rest) =>
      var m := if Fits(o, st, d, 0) then Flat else Expanded;
      var own := Marks(o, d, PushMode(st, m), indents, m);
      if rest == NoDocs then own
      else
        var st1 := PrintEntry(o, d, st);
        own + SeparatorMarks(o, sep, rest.head, st1, Margin(o, indents))
        + EntryMarks(o, sep, rest, PrintSeparator(o, sep, rest.head, st1), indents)
  }

  /** A separator is flat where the next entry still fits behind it. */
  function SeparatorMarks(o: Options, sep: LineMode, next: Doc, st: State, margin: string): seq<Mark> {
    LineMarks(sep, Fits(o, st, next, if sep == SoftOrSpace then 1 else 0), margin)
  }

  /** The first variant that fits, flat; the last one, expanded, where none does. */
  function BestMarks(o: Options, vs: Docs, st: State, indents: seq<Indent>): seq<Mark>
    decreases vs
  {
    match vs
    case NoDocs => []
    case Docs(v, rest) =>
      if rest == NoDocs then Marks(o, v, PushMode(st, Expanded), indents, Expanded)
      else if Fits(o, st, v, 0) then Marks(o, v, PushMode(st, Flat), indents, Flat)
      else BestMarks(o, rest, st, indents)
  }

  // ----- the page -----

  /** The lines so far, the last one still open; whether something stands on it; whether a blank is due; the
      notes that wait. */
  datatype Page = Page(lines: seq<string>, started: bool, gap: bool, notes: seq<Element>)

  const BLANK_PAGE := Page([""], true, false, [])

  function LastOf(lines: seq<string>): string
    requires lines != []
  {
    lines[|lines| - 1]
  }

  /** A text on the open line; it may bring lines of its own. */
  function Put(page: Page, s: string, margin: string): (r: Page)
    requires page.lines != []
    ensures r.lines != [] && r.notes == page.notes
  {
    var n, pieces := |page.lines| - 1, Lines(s);
    var line := page.lines[n] + (if page.started then "" else margin) + (if page.gap then " " else "");
    page.(lines := page.lines[..n] + [line + pieces[0]] + pieces[1..], started := true, gap := false)
  }

  function PutNotes(page: Page, es: seq<Element>, margin: string): (r: Page)
    requires page.lines != []
    ensures r.lines != [] && r.notes == page.notes
    decreases |es|
  {
    if es == [] then page
    else
      var next :=
        match es[0]
        case Plain(Token(s)) => Put(page, s, margin)
        case Plain(Text(s)) => Put(page, s, margin)
        case Plain(Space) => page.(gap := true)
        case _ => page;
      PutNotes(next, es[1..], margin)
  }

  function Trimmed(s: string): string {
    if s != "" && (s[|s| - 1] == ' ' || s[|s| - 1] == '\t') then Trimmed(s[..|s| - 1]) else s
  }

  /** The open line is empty, and so is the one before it. */
  predicate AfterBlankLine(lines: seq<string>) {
    |lines| >= 3 && LastOf(lines) == "" && lines[|lines| - 2] == ""
  }

  /** A new line opened, behind at most one blank line; exactly one where it is asked for. */
  function Fed(lines: seq<string>, blank: bool): (r: seq<string>)
    requires lines != []
    ensures r != [] && LastOf(r) == "" && lines <= r
    ensures !AfterBlankLine(lines) && !blank ==> r == lines + [""]
    ensures AfterBlankLine(lines) ==> r == lines
    ensures blank ==> AfterBlankLine(r)
  {
    if AfterBlankLine(lines) then lines
    else if !blank || (|lines| >= 2 && LastOf(lines) == "") then lines + [""]
    else lines + ["", ""]
  }

  /** The notes are written, the line loses the blanks at its end, and a new one is opened. */
  function EndLine(page: Page, blank: bool, margin: string): (r: Page)
    requires page.lines != []
    ensures r.lines != [] && LastOf(r.lines) == "" && !r.started && !r.gap && r.notes == []
  {
    var noted := PutNotes(page.(notes := []), page.notes, margin);
    var n := |noted.lines| - 1;
    Page(Fed(noted.lines[..n] + [Trimmed(noted.lines[n])], blank), false, false, [])
  }

  function Step(page: Page, m: Mark): (r: Page)
    requires page.lines != []
    ensures r.lines != []
  {
    match m
    case Word(s, margin) => Put(page, s, margin)
    case Gap => page.(gap := true)
    case Feed(blank, margin) => EndLine(page, blank, margin)
    case Note(es) => page.(notes := page.notes + es)
  }

  function Read(marks: seq<Mark>, page: Page): (r: Page)
    requires page.lines != []
    ensures r.lines != []
    decreases |marks|
  {
    if marks == [] then page else Read(marks[1..], Step(page, marks[0]))
  }

  lemma {:induction false} ReadCat(a: seq<Mark>, b: seq<Mark>, page: Page)
    requires page.lines != []
    ensures Read(a + b, page) == Read(b, Read(a, page))
    decreases |a|
  {
    if a == [] {
      assert a + b == b;
    } else {
      assert (a + b)[0] == a[0] && (a + b)[1..] == a[1..] + b;
      ReadCat(a[1..], b, Step(page, a[0]));
    }
  }

  lemma ReadOne(m: Mark, page: Page)
    requires page.lines != []
    ensures Read([m], page) == Step(page, m)
  {
    assert [m][1..] == [];
  }

  /** The lines with newlines between them. */
  function Joined(lines: seq<string>): string
    requires lines != []
  {
    if |lines| == 1 then lines[0] else Joined(lines[..|lines| - 1]) + "\n" + LastOf(lines)
  }

  lemma {:induction false} JoinedLines(s: string)
    ensures Joined(Lines(s)) == s
  {
    if s != "" {
      JoinedLines(s[1..]);
      var rest := Lines(s[1..]);
      if s[0] == '\n' {
        JoinedFront("", rest);
        assert "" + "\n" + s[1..] == s;
      } else {
        JoinedHead([s[0]], rest);
      }
    }
  }

  lemma {:induction false} JoinedFront(line: string, rest: seq<string>)
    requires rest != []
    ensures Joined([line] + rest) == line + "\n" + Joined(rest)
    decreases |rest|
  {
    var all, n := [line] + rest, |rest| - 1;
    assert all[..|all| - 1] == [line] + rest[..n];
    if n > 0 {
      JoinedFront(line, rest[..n]);
      assert line + "\n" + Joined(rest[..n]) + "\n" + rest[n] == line + "\n" + (Joined(rest[..n]) + "\n" + rest[n]);
    } else {
      assert [line] + rest[..n] == [line];
    }
  }

  lemma {:induction false} JoinedHead(front: string, rest: seq<string>)
    requires rest != []
    ensures Joined([front + rest[0]] + rest[1..]) == front + Joined(rest)
    decreases |rest|
  {
    var all, n := [front + rest[0]] + rest[1..], |rest| - 1;
    if n > 0 {
      assert all[..n] == [front + rest[..n][0]] + rest[..n][1..];
      JoinedHead(front, rest[..n]);
      assert front + Joined(rest[..n]) + "\n" + rest[n] == front + (Joined(rest[..n]) + "\n" + rest[n]);
    }
  }

  // ----- the printer writes that page -----

  /** A blank takes one column. */
  predicate UnitBlanks(o: Options) { o.charWidth(' ') == 1 && o.charWidth('\t') == 1 }

  /** `lineStart` is where the open line starts, and `column` is how wide it is. */
  predicate LineKept(o: Options, st: State) {
    && st.lineStart <= |st.output| && '\n' !in st.output[st.lineStart..]
    && (st.lineStart == 0 || st.output[st.lineStart - 1] == '\n')
    && (UnitBlanks(o) ==> st.column == Width(o, st.output[st.lineStart..]))
  }

  function PageOf(st: State): Page { Page(Lines(st.output), !st.pendingIndent, st.pendingSpace, st.suffixes) }

  /** The printer, `st'`, has written what `page` shows. */
  predicate Shows(o: Options, st: State, page: Page) { LineKept(o, st) && PageOf(st) == page }

  lemma {:induction false} WidthCat(o: Options, a: string, b: string)
    ensures Width(o, a + b) == Width(o, a) + Width(o, b)
  {
    if a == "" {
      assert a + b == b;
    } else {
      assert (a + b)[0] == a[0] && (a + b)[1..] == a[1..] + b;
      WidthCat(o, a[1..], b);
    }
  }

  lemma {:induction false} BlanksWide(o: Options, s: string)
    requires UnitBlanks(o) && forall k :: 0 <= k < |s| ==> IsBlank(s[k])
    ensures Width(o, s) == |s|
  {
    if s != "" {
      BlanksWide(o, s[1..]);
    }
  }

  lemma {:induction false} OneLine(s: string)
    requires '\n' !in s
    ensures Lines(s) == [s] && Newlines(s) == 0
  {
    if s != "" {
      OneLine(s[1..]);
      assert [s[0]] + s[1..] == s && [s[1..]][1..] == [];
    }
  }

  lemma SpacesJoin(m: nat, n: nat)
    ensures Times(' ', m) + Times(' ', n) == Times(' ', m + n)
  {
  }

  lemma NoTimes()
    ensures Times('\t', 0) == "" && Times(' ', 0) == ""
  {
  }

  lemma OneMore(c: char, n: nat)
    ensures Times(c, 1 + n) == [c] + Times(c, n)
  {
  }

  lemma LevelsScale(n: nat, w: nat)
    ensures (1 + n) * w == w + n * w
  {
  }

  lemma {:induction false} LevelBlanksAre(o: Options, indents: seq<Indent>)
    ensures LevelBlanks(o, indents)
            == if o.useTabs then Times('\t', IndentLevels(indents))
               else Times(' ', IndentLevels(indents) * o.indentWidth)
    decreases |indents|
  {
    hide Times;
    if indents == [] {
      assert Times('\t', 0) == "" && Times(' ', 0) == "" && 0 * o.indentWidth == 0 by { NoTimes(); }
    } else {
      LevelBlanksAre(o, indents[1..]);
      var levels := IndentLevels(indents[1..]);
      if indents[0] == Level {
        LevelsScale(levels, o.indentWidth);
        SpacesJoin(o.indentWidth, levels * o.indentWidth);
        OneMore('\t', levels);
      }
    }
  }

  lemma {:induction false} AlignBlanksAre(indents: seq<Indent>)
    ensures AlignBlanks(indents) == Times(' ', AlignSpaces(indents))
    decreases |indents|
  {
    if indents != [] {
      AlignBlanksAre(indents[1..]);
      if indents[0].Align? {
        SpacesJoin(indents[0].spaces, AlignSpaces(indents[1..]));
      }
    }
  }

  /** The margin is made of blanks, as many as were measured. */
  lemma MarginShape(o: Options, indents: seq<Indent>)
    ensures |Margin(o, indents)| == PendingIndentWidth(o, indents)
    ensures forall k :: 0 <= k < |Margin(o, indents)| ==> IsBlank(Margin(o, indents)[k])
    ensures '\n' !in Margin(o, indents)
  {
    hide PendingIndentWidth, IndentLevels, AlignSpaces, LevelBlanks, AlignBlanks;
    FitSoundness.IndentWidths(o, indents);
    LevelBlanksAre(o, indents);
    AlignBlanksAre(indents);
  }

  /** Levels first and then the explicit spaces: that is the margin. */
  lemma IndentFlushed(o: Options, st: State)
    ensures var margin := Margin(o, st.indents);
            FlushIndent(o, st)
            == st.(pendingIndent := false, output := st.output + margin, column := st.column + |margin|)
  {
    hide IndentLevels, AlignSpaces, LevelBlanks, AlignBlanks, Times;
    LevelBlanksAre(o, st.indents);
    AlignBlanksAre(st.indents);
    assert (st.output + LevelBlanks(o, st.indents)) + AlignBlanks(st.indents) == st.output + Margin(o, st.indents);
  }

  /** Text without a newline goes on the open line. */
  lemma Appended(o: Options, st: State, x: string, st': State)
    requires LineKept(o, st) && '\n' !in x
    requires st' == st.(output := st.output + x, column := st'.column, pendingIndent := st'.pendingIndent,
                        pendingSpace := st'.pendingSpace)
    requires UnitBlanks(o) ==> st'.column == st.column + Width(o, x)
    ensures LineKept(o, st')
    ensures var n := |Lines(st.output)| - 1; Lines(st'.output) == Lines(st.output)[..n] + [Lines(st.output)[n] + x]
  {
    hide Lines, Width;
    LinesCat(st.output, x);
    OneLine(x);
    assert st'.output[st.lineStart..] == st.output[st.lineStart..] + x;
    WidthCat(o, st.output[st.lineStart..], x);
    assert Lines(x)[1..] == [];
  }

  /** What stands behind the last newline is the last line. */
  lemma {:induction false} LastLine(s: string, at: nat)
    requires at <= |s| && '\n' !in s[at..] && (at == 0 || s[at - 1] == '\n')
    ensures LastOf(Lines(s)) == s[at..]
    ensures Newlines(s) == Newlines(s[..at]) && Lines(s)[..Newlines(s)] == Lines(s[..at])[..Newlines(s)]
    ensures LastOf(Lines(s[..at])) == ""
  {
    hide Lines, Newlines;
    OneLine(s[at..]);
    assert s == s[..at] + s[at..];
    LinesCat(s[..at], s[at..]);
    if at == 0 {
      assert s[..0] == "";
      EmptyLines();
    } else {
      EndsWithNewline(s[..at]);
    }
    assert "" + s[at..] == s[at..] && Lines(s[at..])[1..] == [];
  }

  lemma EndsWithNewline(s: string)
    requires s != "" && s[|s| - 1] == '\n'
    ensures Newlines(s) == Newlines(s[..|s| - 1]) + 1 && Lines(s) == Lines(s[..|s| - 1]) + [""]
    ensures LastOf(Lines(s)) == ""
  {
    hide Lines, Newlines;
    var a := s[..|s| - 1];
    assert s == a + "\n";
    LinesCat(a, "\n");
    NewlineAlone();
    assert Lines(a)[Newlines(a)] + "" == Lines(a)[Newlines(a)];
    assert Lines(a) == Lines(a)[..Newlines(a)] + [Lines(a)[Newlines(a)]];
  }

  lemma NewlineAlone()
    ensures Lines("\n") == ["", ""] && Newlines("\n") == 1
  {
    assert "\n"[1..] == "";
  }

  lemma MarginShown(o: Options, st: State)
    requires LineKept(o, st)
    ensures var st', n := if st.pendingIndent then FlushIndent(o, st) else st, |Lines(st.output)| - 1;
            && LineKept(o, st') && !st'.pendingIndent
            && st'.pendingSpace == st.pendingSpace && st'.suffixes == st.suffixes
            && Lines(st'.output)
               == Lines(st.output)[..n]
                  + [Lines(st.output)[n] + if st.pendingIndent then Margin(o, st.indents) else ""]
  {
    hide Lines, Width, Newlines, Margin, FlushIndent, LineKept;
    IndentFlushed(o, st);
    MarginShape(o, st.indents);
    if UnitBlanks(o) {
      BlanksWide(o, Margin(o, st.indents));
      NoWidth(o);
    }
    assert st.output + "" == st.output;
    Appended(o, st, if st.pendingIndent then Margin(o, st.indents) else "",
             if st.pendingIndent then FlushIndent(o, st) else st);
  }

  lemma SpaceWritten(o: Options, st: State)
    requires LineKept(o, st)
    ensures var st', n := FlushSpace(st), |Lines(st.output)| - 1;
            && LineKept(o, st') && !st'.pendingSpace
            && Lines(st'.output)
               == Lines(st.output)[..n] + [Lines(st.output)[n] + if st.pendingSpace then " " else ""]
  {
    hide Lines, Width, Newlines, LineKept;
    if UnitBlanks(o) {
      BlanksWide(o, " ");
      NoWidth(o);
    }
    assert st.output + "" == st.output;
    Appended(o, st, if st.pendingSpace then " " else "", FlushSpace(st));
  }

  lemma WriteKeeps(o: Options, st: State, s: string)
    ensures var st' := Write(o, st, s);
            && st'.pendingIndent == st.pendingIndent && st'.pendingSpace == st.pendingSpace
            && st'.suffixes == st.suffixes
  {
  }

  /** A text is put on the page. */
  lemma TextShown(o: Options, st: State, s: string)
    requires LineKept(o, st)
    ensures Shows(o, EmitText(o, st, s), Put(PageOf(st), s, Margin(o, st.indents)))
  {
    hide Lines, Width, Newlines, Margin, FlushIndent, LastNewline, LineKept, Write;
    var st1 := if st.pendingIndent then FlushIndent(o, st) else st;
    MarginShown(o, st);
    SpaceWritten(o, st1);
    WriteShown(o, FlushSpace(st1), s);
    WriteKeeps(o, FlushSpace(st1), s);
    var lines, n := Lines(st.output), |Lines(st.output)| - 1;
    var margin, space := if st.pendingIndent then Margin(o, st.indents) else "", if st.pendingSpace then " " else "";
    assert Lines(st1.output) == lines[..n] + [lines[n] + margin];
    assert Lines(FlushSpace(st1).output) == lines[..n] + [lines[n] + margin + space];
  }

  lemma NoWidth(o: Options)
    ensures Width(o, "") == 0
  {
  }

  lemma WriteShown(o: Options, st: State, s: string)
    requires LineKept(o, st)
    ensures LineKept(o, Write(o, st, s))
    ensures var lines, n := Lines(st.output), |Lines(st.output)| - 1;
            Lines(Write(o, st, s).output) == lines[..n] + [lines[n] + Lines(s)[0]] + Lines(s)[1..]
  {
    hide Lines, Width, Newlines;
    LinesCat(st.output, s);
    var out := st.output + s;
    if '\n' in s {
      var last := LastNewline(s);
      var at := |out| - (|s| - last - 1);
      assert out[at..] == s[last + 1..] && out[at - 1] == s[last];
    } else {
      assert out[st.lineStart..] == st.output[st.lineStart..] + s;
      WidthCat(o, st.output[st.lineStart..], s);
    }
  }

  lemma {:induction false} NotesShown(o: Options, st: State, es: seq<Element>)
    requires LineKept(o, st)
    ensures Shows(o, FlushElements(o, st, es), PutNotes(PageOf(st), es, Margin(o, st.indents)))
    ensures FlushElements(o, st, es).indents == st.indents
    decreases |es|
  {
    hide EmitText, Put, Margin, Lines, LineKept;
    if es != [] {
      match es[0] {
        case Plain(Token(s)) => TextShown(o, st, s); TextKeeps(o, st, s);
        case Plain(Text(s)) => TextShown(o, st, s); TextKeeps(o, st, s);
        case Plain(Space) => SpaceShown(o, st);
        case _ =>
      }
      NotesShown(o, FlushElement(o, st, es[0]), es[1..]);
    }
  }

  lemma TextKeeps(o: Options, st: State, s: string)
    ensures EmitText(o, st, s).indents == st.indents && EmitText(o, st, s).suffixes == st.suffixes
  {
  }

  lemma SpaceShown(o: Options, st: State)
    requires LineKept(o, st)
    ensures Shows(o, st.(pendingSpace := true), PageOf(st).(gap := true))
  {
  }

  /** Trimming takes the blanks at the end of the open line. */
  lemma {:induction false} TrimShown(s: string, at: nat)
    requires at <= |s|
    ensures TrimFrom(s, at) == s[..at] + Trimmed(s[at..])
    decreases |s|
  {
    if |s| > at && IsBlank(s[|s| - 1]) {
      TrimShown(s[..|s| - 1], at);
      assert s[at..][..|s| - at - 1] == s[..|s| - 1][at..];
      assert s[..|s| - 1][..at] == s[..at];
    } else {
      assert s == s[..at] + s[at..];
    }
  }

  lemma {:induction false} TrimmedIsPrefix(s: string)
    ensures |Trimmed(s)| <= |s| && Trimmed(s) == s[..|Trimmed(s)|]
  {
    if s != "" && IsBlank(s[|s| - 1]) {
      TrimmedIsPrefix(s[..|s| - 1]);
    }
  }

  lemma LineBefore(lines: seq<string>, more: seq<string>)
    requires lines != [] && more == lines + [""]
    ensures AfterBlankLine(more) <==> |lines| >= 2 && LastOf(lines) == ""
  {
  }

  lemma BlankLineShown(s: string)
    ensures EndsBlankLine(s) <==> AfterBlankLine(Lines(s))
    ensures s != "" && s[|s| - 1] == '\n' <==> Newlines(s) >= 1 && LastOf(Lines(s)) == ""
  {
    hide Lines, Newlines, LastOf;
    if s == "" {
      EmptyLines();
    } else {
      LastIsEmptyIff(s);
      if s[|s| - 1] == '\n' {
        var a := s[..|s| - 1];
        EndsWithNewline(s);
        LineBefore(Lines(a), Lines(s));
        if a == "" {
          EmptyLines();
        } else {
          LastIsEmptyIff(a);
        }
      }
    }
  }

  lemma LastIsEmptyIff(s: string)
    requires s != ""
    ensures s[|s| - 1] == '\n' <==> Newlines(s) >= 1 && LastOf(Lines(s)) == ""
  {
    hide Lines, Newlines;
    if s[|s| - 1] == '\n' {
      EndsWithNewline(s);
    } else {
      var a, b := s[..|s| - 1], [s[|s| - 1]];
      assert s == a + b;
      LinesCat(a, b);
      OneLine(b);
      assert LastOf(Lines(s)) == Lines(a)[Newlines(a)] + b;
    }
  }

  lemma {:induction false} FeedsShown(s: string, n: nat)
    ensures Lines(s + Times('\n', n)) == Lines(s) + seq(n, _ => "")
    decreases n
  {
    hide Lines, Newlines;
    if n == 0 {
      assert s + Times('\n', 0) == s && Lines(s) + seq(0, _ => "") == Lines(s);
    } else {
      FeedsShown(s, n - 1);
      var t := s + Times('\n', n);
      assert t[..|t| - 1] == s + Times('\n', n - 1);
      EndsWithNewline(t);
      assert seq(n, _ => "") == seq(n - 1, _ => "") + [""];
    }
  }

  lemma TrimmedShown(o: Options, st: State)
    requires LineKept(o, st)
    ensures var lines, n := Lines(st.output), |Lines(st.output)| - 1;
            Lines(TrimFrom(st.output, st.lineStart)) == lines[..n] + [Trimmed(lines[n])]
  {
    hide Lines, Width, Newlines, Trimmed;
    var (s, at) := (st.output, st.lineStart);
    var trimmed := TrimFrom(s, at);
    TrimShown(s, at);
    TrimmedIsPrefix(s[at..]);
    LastLine(s, at);
    assert trimmed[at..] == Trimmed(s[at..]) && trimmed[..at] == s[..at];
    LastLine(trimmed, at);
    assert Lines(trimmed) == Lines(trimmed)[..Newlines(trimmed)] + [LastOf(Lines(trimmed))];
  }

  predicate Ends(s: string, end: string) { |end| <= |s| && s[|s| - |end|..] == end }

  /** A line break must be made: always at a hard or an empty line, elsewhere where nothing is printed flat. */
  predicate MustBreak(st: State, m: LineMode) { m == Hard || m == Empty || CurrentMode(st) == Expanded }

  /** Nothing but blanks stands behind the start of the open line: trimming can stop there. */
  lemma TrimAtLine(o: Options, st: State)
    requires LineKept(o, st)
    ensures TrimFrom(st.output, st.lineStart) == Trimmed(st.output)
  {
    hide Width;
    TrimmedAt(st.output, st.lineStart);
  }

  lemma {:induction false} TrimmedAt(s: string, at: nat)
    requires at <= |s| && (at == 0 || s[at - 1] == '\n')
    ensures TrimFrom(s, at) == Trimmed(s)
    decreases |s|
  {
    if |s| > at && IsBlank(s[|s| - 1]) {
      TrimmedAt(s[..|s| - 1], at);
    }
  }

  /** What is written before a break: the waiting notes, and then no blanks at the end. */
  function Kept(o: Options, st: State): string { Trimmed(FlushSuffixes(o, st).output) }

  /** What a break adds. Behind the text, without the blanks at its end, comes a newline, and a second one
      where an empty line is asked for and none is begun; where a blank line is there already nothing comes. */
  lemma BreakEndsLine(o: Options, st: State, m: LineMode)
    requires LineKept(o, st) && MustBreak(st, m)
    ensures var out, kept := PrintAtom(o, st, Line(m)).output, Kept(o, st);
            && Ends(out, "\n") && (m == Empty ==> Ends(out, "\n\n"))
            && out == if Ends(kept, "\n\n") then kept
                      else if m == Empty && !Ends(kept, "\n") then kept + "\n\n"
                      else kept + "\n"
    ensures LineKept(o, PrintAtom(o, st, Line(m)))
    ensures var page, flushed := PageOf(PrintAtom(o, st, Line(m))), FlushSuffixes(o, st);
            !page.started && !page.gap && page.notes == flushed.suffixes
  {
    hide Trimmed, TrimFrom, Width, FlushSuffixes, LineKept, Lines, EmitNewline, BlankLineGap, Times, Ends;
    FlushedKept(o, st);
    TrimAtLine(o, FlushSuffixes(o, st));
    BreakStep(o, st, m == Empty);
    AddedNewlines(Kept(o, st));
    NewLineKept(o, PrintAtom(o, st, Line(m)));
  }

  lemma FlushedKept(o: Options, st: State)
    requires LineKept(o, st)
    ensures Shows(o, FlushSuffixes(o, st), PutNotes(PageOf(st).(notes := []), st.suffixes, Margin(o, st.indents)))
  {
    hide FlushElements, PutNotes, Margin, Width, Lines;
    NotesShown(o, st.(suffixes := []), st.suffixes);
  }

  lemma BreakStep(o: Options, st: State, blank: bool)
    ensures var flushed, st' := FlushSuffixes(o, st), EmitNewline(o, st, blank);
            var kept := TrimFrom(flushed.output, flushed.lineStart);
            && st' == flushed.(output := st'.output, pendingSpace := false, lineStart := |st'.output|, column := 0,
                               pendingIndent := true)
            && st'.output == if blank then kept + Times('\n', BlankLineGap(kept))
                             else if EndsBlankLine(kept) then kept
                             else kept + "\n"
  {
    hide FlushSuffixes, TrimFrom;
  }

  lemma EndsBehind(s: string, end: string)
    ensures Ends(s + end, end)
  {
  }

  lemma EndsChars(s: string)
    ensures Ends(s, "\n") <==> s != "" && s[|s| - 1] == '\n'
    ensures EndsBlankLine(s) <==> Ends(s, "\n\n")
    ensures Ends(s, "\n\n") ==> Ends(s, "\n")
  {
    if s != "" {
      assert s[|s| - 1..] == [s[|s| - 1]];
    }
    if |s| >= 2 {
      assert s[|s| - 2..] == [s[|s| - 2], s[|s| - 1]];
    }
  }

  lemma AddedNewlines(kept: string)
    ensures kept + Times('\n', BlankLineGap(kept))
            == if Ends(kept, "\n\n") then kept else if Ends(kept, "\n") then kept + "\n" else kept + "\n\n"
    ensures EndsBlankLine(kept) <==> Ends(kept, "\n\n")
    ensures Ends(kept, "\n\n") ==> Ends(kept, "\n")
    ensures Ends(kept, "\n") ==> Ends(kept + "\n", "\n\n")
    ensures Ends(kept + "\n", "\n") && Ends(kept + "\n\n", "\n\n") && Ends(kept + "\n\n", "\n")
  {
    hide Ends, Times;
    EndsChars(kept);
    EndsChars(kept + "\n");
    EndsChars(kept + "\n\n");
    EndsBehind(kept, "\n\n");
    Newlines012();
    assert kept + "" == kept;
  }

  lemma Newlines012()
    ensures Times('\n', 0) == "" && Times('\n', 1) == "\n" && Times('\n', 2) == "\n\n"
  {
  }

  lemma NewLineKept(o: Options, st: State)
    requires st.lineStart == |st.output| && st.column == 0 && Ends(st.output, "\n")
    ensures LineKept(o, st)
  {
    assert st.output[st.lineStart..] == "";
    NoWidth(o);
  }

  lemma EndLineIs(page: Page, blank: bool, margin: string, noted: Page)
    requires page.lines != [] && noted == PutNotes(page.(notes := []), page.notes, margin)
    ensures var n := |noted.lines| - 1;
            EndLine(page, blank, margin)
            == Page(Fed(noted.lines[..n] + [Trimmed(noted.lines[n])], blank), false, false, [])
  {
    hide PutNotes, Fed, Trimmed;
  }

  /** A break ends the line of the page. */
  lemma BreakShown(o: Options, st: State, m: LineMode)
    requires LineKept(o, st) && MustBreak(st, m)
    ensures Shows(o, PrintAtom(o, st, Line(m)), EndLine(PageOf(st), m == Empty, Margin(o, st.indents)))
  {
    hide Lines, Width, Newlines, Margin, PutNotes, TrimFrom, Trimmed, PrintAtom, FlushSuffixes, LineKept, Fed,
         MustBreak,
         EndLine;
    FlushedKept(o, st);
    var flushed := FlushSuffixes(o, st);
    TrimAtLine(o, flushed);
    TrimmedShown(o, flushed);
    BreakEndsLine(o, st, m);
    BreakLines(Kept(o, st), m == Empty, PrintAtom(o, st, Line(m)).output);
    EndLineIs(PageOf(st), m == Empty, Margin(o, st.indents), PageOf(flushed));
  }

  lemma BreakLines(kept: string, blank: bool, out: string)
    requires out == if Ends(kept, "\n\n") then kept
                    else if blank && !Ends(kept, "\n") then kept + "\n\n"
                    else kept + "\n"
    ensures Lines(out) == Fed(Lines(kept), blank)
  {
    hide Lines, Newlines, Times, Ends;
    BlankLineShown(kept);
    FeedsShown(kept, 1);
    FeedsShown(kept, 2);
    Newlines012();
    EndsChars(kept);
    assert seq(1, _ => "") == [""] && seq(2, _ => "") == ["", ""];
  }

  lemma GapShown(o: Options, st: State)
    requires LineKept(o, st)
    ensures Shows(o, st.(pendingSpace := true), Step(PageOf(st), Gap))
  {
    SpaceShown(o, st);
  }

  lemma AtomShown(o: Options, st: State, a: Atom)
    requires LineKept(o, st)
    ensures Shows(o, PrintAtom(o, st, a), Read(AtomMarks(st, a, CurrentMode(st), Margin(o, st.indents)), PageOf(st)))
  {
    hide Lines, Width, LineKept, EmitNewline, EmitText, Margin, EndLine, Put;
    var margin := Margin(o, st.indents);
    ReadOne(Gap, PageOf(st));
    match a
    case Token(s) => TextShown(o, st, s); ReadOne(Word(s, margin), PageOf(st));
    case Text(s) => TextShown(o, st, s); ReadOne(Word(s, margin), PageOf(st));
    case Space => GapShown(o, st);
    case ExpandParent =>
    case LineSuffixBoundary => BreakShown(o, st, Hard); ReadOne(Feed(false, margin), PageOf(st));
    case Line(m) =>
      ReadOne(Feed(m == Empty, margin), PageOf(st));
      if MustBreak(st, m) { BreakShown(o, st, m); } else { GapShown(o, st); }
  }

  lemma SeparatorShown(o: Options, sep: LineMode, next: Doc, st: State)
    requires LineKept(o, st)
    ensures Shows(o, PrintSeparator(o, sep, next, st),
                  Read(SeparatorMarks(o, sep, next, st, Margin(o, st.indents)), PageOf(st)))
  {
    hide Lines, Width, LineKept, EmitNewline, EmitText, Margin, EndLine, Put, Fits;
    ReadOne(Gap, PageOf(st));
    GapShown(o, st);
    ReadOne(Feed(sep == Empty, Margin(o, st.indents)), PageOf(st));
    BreakShown(o, st, if sep == Empty then Empty else Hard);
  }

  /** The printer writes the page that the marks of the document are read as. */
  lemma {:induction false} DocShown(o: Options, d: Doc, st: State)
    requires LineKept(o, st)
    ensures Shows(o, PrintDoc(o, d, st), Read(Marks(o, d, st, st.indents, CurrentMode(st)), PageOf(st)))
    decreases d, 0
  {
    hide Lines, LineKept, PrintAtom, AtomMarks, Fits, Step, Read;
    match d
    case Nothing => ReadNone(PageOf(st));
    case Cat(a, b) =>
      var mid, mode := PrintDoc(o, a, st), CurrentMode(st);
      DocShown(o, a, st);
      Conservation.StacksRestored(o, a, st);
      DocShown(o, b, mid);
      ReadCat(Marks(o, a, st, st.indents, mode), Marks(o, b, mid, st.indents, mode), PageOf(st));
    case Leaf(a) => AtomShown(o, st, a);
    case Group(id, b) =>
      var inner := EnterGroup(st, id, DocGroupMode(o, st, id, b));
      Stacked(o, st, inner);
      DocShown(o, b, inner);
      Stacked(o, PrintDoc(o, b, inner), PrintDoc(o, d, st));
    case Indented(how, b) =>
      var inner := PushIndent(st, IndentFor(st, how));
      Stacked(o, st, inner);
      DocShown(o, b, inner);
      Stacked(o, PrintDoc(o, b, inner), PrintDoc(o, d, st));
    case Conditional(m, id, b) =>
      ReadNone(PageOf(st));
      if Decided(st.groupModes, id) == Some(m) { DocShown(o, b, st); }
    case Fill(sep, es) => EntriesShown(o, sep, es, st);
    case Best(vs) => BestShown(o, vs, st);
    case LineSuffix(b) => NoteShown(o, st, Stream(b));
  }

  lemma ReadNone(page: Page)
    requires page.lines != []
    ensures Read([], page) == page
  {
  }

  lemma NoteShown(o: Options, st: State, es: seq<Element>)
    requires LineKept(o, st)
    ensures Shows(o, QueueSuffix(st, es), Read([Note(es)], PageOf(st)))
  {
    hide Lines, Width;
    ReadOne(Note(es), PageOf(st));
  }

  /** Stacks and decisions do not show. */
  lemma Stacked(o: Options, st: State, st': State)
    requires st' == st.(modes := st'.modes, indents := st'.indents, groupModes := st'.groupModes)
    ensures PageOf(st') == PageOf(st) && LineKept(o, st') == LineKept(o, st)
  {
    hide Lines, Width;
  }

  /** Content in a mode of its own. */
  lemma {:induction false} EntryShown(o: Options, d: Doc, m: PrintMode, st: State)
    requires LineKept(o, st)
    ensures var st' := PopMode(PrintDoc(o, d, PushMode(st, m)));
            Shows(o, st', Read(Marks(o, d, PushMode(st, m), st.indents, m), PageOf(st))) && st'.indents == st.indents
    decreases d, 1
  {
    hide Lines, LineKept, PrintDoc, Marks, Read;
    var inner := PushMode(st, m);
    Stacked(o, st, inner);
    DocShown(o, d, inner);
    Conservation.StacksRestored(o, d, inner);
    Stacked(o, PrintDoc(o, d, inner), PopMode(PrintDoc(o, d, inner)));
  }

  lemma ReadThree(a: seq<Mark>, b: seq<Mark>, c: seq<Mark>, page: Page)
    requires page.lines != []
    ensures Read(a + b + c, page) == Read(c, Read(b, Read(a, page)))
  {
    hide Read;
    ReadCat(a, b, page);
    ReadCat(a + b, c, page);
  }

  lemma {:induction false} EntriesShown(o: Options, sep: LineMode, es: Docs, st: State)
    requires LineKept(o, st)
    ensures Shows(o, PrintEntries(o, sep, es, st), Read(EntryMarks(o, sep, es, st, st.indents), PageOf(st)))
    decreases es, 0
  {
    hide Lines, LineKept, Fits, PrintDoc, PrintSeparator, Marks, SeparatorMarks, Step, Read, Margin;
    ReadNone(PageOf(st));
    if es.Docs? {
      var m := if Fits(o, st, es.head, 0) then Flat else Expanded;
      EntryShown(o, es.head, m, st);
      if es.tail.Docs? {
        var st1, next := PrintEntry(o, es.head, st), es.tail.head;
        SeparatorShown(o, sep, next, st1);
        Conservation.SeparatorStacks(o, sep, next, st1);
        var st2 := PrintSeparator(o, sep, next, st1);
        EntriesShown(o, sep, es.tail, st2);
        ReadThree(Marks(o, es.head, PushMode(st, m), st.indents, m),
                  SeparatorMarks(o, sep, next, st1, Margin(o, st.indents)),
                  EntryMarks(o, sep, es.tail, st2, st.indents), PageOf(st));
      }
    }
  }

  lemma {:induction false} BestShown(o: Options, vs: Docs, st: State)
    requires LineKept(o, st)
    ensures Shows(o, PrintBest(o, vs, st), Read(BestMarks(o, vs, st, st.indents), PageOf(st)))
    decreases vs, 0
  {
    hide Lines, LineKept, Fits, PrintDoc, Marks, Step, Read;
    ReadNone(PageOf(st));
    if vs.Docs? {
      EntryShown(o, vs.head, if vs.tail == NoDocs then Expanded else Flat, st);
      BestShown(o, vs.tail, st);
    }
  }

  // ----- the whole print -----

  /** The lines of a whole print: its marks read from a blank page, and then the notes that still wait. */
  ghost function PageLines(o: Options, d: Doc): (lines: seq<string>)
    ensures lines != []
  {
    var page := Read(Marks(o, d, Printer.Start(d), [], Expanded), BLANK_PAGE);
    PutNotes(page.(notes := []), page.notes, Margin(o, [])).lines
  }

  lemma PagePrinted(o: Options, d: Doc)
    ensures Lines(Printer.Printed(o, d)) == PageLines(o, d)
    ensures Printer.Printed(o, d) == Joined(PageLines(o, d))
  {
    hide Lines, LineKept, PrintDoc, Marks, Read, PutNotes, Margin, FlushElements;
    var st := Printer.Start(d);
    StartShown(o, d);
    DocShown(o, d, st);
    Conservation.StacksRestored(o, d, st);
    FlushedKept(o, PrintDoc(o, d, st));
    JoinedLines(Printer.Printed(o, d));
  }

  lemma StartShown(o: Options, d: Doc)
    ensures Shows(o, Printer.Start(d), BLANK_PAGE)
    ensures Printer.Start(d).indents == [] && CurrentMode(Printer.Start(d)) == Expanded
  {
    EmptyLines();
    NoWidth(o);
  }

  // ----- the width of a line -----

  /** The open line with what is due in front of the next word. */
  function OpenLine(o: Options, st: State): string {
    LastOf(Lines(st.output)) + (if st.pendingIndent then Margin(o, st.indents) else "")
    + (if st.pendingSpace then " " else "")
  }

  /** What remains is the line width less the width of the open line. */
  lemma RoomOnLine(o: Options, st: State)
    requires LineKept(o, st) && UnitBlanks(o)
    ensures RemainingWidth(o, st) == o.lineWidth - Width(o, OpenLine(o, st))
  {
    hide Lines, Width, Margin, PendingIndentWidth;
    LastLine(st.output, st.lineStart);
    MarginShape(o, st.indents);
    BlanksWide(o, Margin(o, st.indents));
    BlanksWide(o, " ");
    NoWidth(o);
    var line := LastOf(Lines(st.output));
    var margin, space := if st.pendingIndent then Margin(o, st.indents) else "", if st.pendingSpace then " " else "";
    WidthCat(o, line, margin);
    WidthCat(o, line + margin, space);
  }
}
