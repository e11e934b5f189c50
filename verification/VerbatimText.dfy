/** What goes out when a statement is printed from its source: all of its text. */
module VerbatimText {
  import opened Document
  import opened Comments
  import opened CommentLines
  import opened Reanchoring
  import Lexing

  /** The text of some elements, a hard line as a newline. */
  function AsText(es: seq<Element>): string {
    if es == [] then ""
    else
      (match es[0]
       case Plain(Text(s)) => s
       case Plain(Line(Hard)) => "\n"
       case _ => "") + AsText(es[1..])
  }

  lemma {:induction false} AsTextCat(a: seq<Element>, b: seq<Element>)
    ensures AsText(a + b) == AsText(a) + AsText(b)
    decreases |a|
  {
    if a == [] {
      assert a + b == b;
    } else {
      assert (a + b)[0] == a[0] && (a + b)[1..] == a[1..] + b;
      AsTextCat(a[1..], b);
    }
  }

  lemma AsTextOne(e: Element)
    ensures AsText([e]) == match e case Plain(Text(s)) => s case Plain(Line(Hard)) => "\n" case _ => ""
  {
    assert [e][1..] == [];
  }

  /** Lines with newlines between them. */
  function Together(lines: seq<string>): string {
    if lines == [] then ""
    else Together(lines[..|lines| - 1]) + (if |lines| > 1 then "\n" else "") + lines[|lines| - 1]
  }

  lemma {:induction false} LinesAsText(lines: seq<string>)
    ensures AsText(Comments.Lines(lines)) == Together(lines)
    decreases |lines|
  {
    hide AsText;
    if lines != [] {
      var n := |lines| - 1;
      LinesAsText(lines[..n]);
      var between := if |lines| > 1 then [Plain(Line(Hard))] else [];
      var last := if lines[n] == "" then [] else [Plain(Text(lines[n]))];
      AsTextCat(Comments.Lines(lines[..n]), between);
      AsTextCat(Comments.Lines(lines[..n]) + between, last);
      AsTextOne(Plain(Line(Hard)));
      AsTextOne(Plain(Text(lines[n])));
      assert AsText([]) == "" by { NothingAsText(); }
    } else {
      NothingAsText();
    }
  }

  lemma NothingAsText()
    ensures AsText([]) == ""
  {
  }

  lemma {:induction false} JoinedTogether(text: string, indent: string, separators: seq<nat>, n: nat)
    requires Ordered(text, separators) && 0 < n <= |separators| + 1
    ensures Joined(text, indent, separators, n) == "\n" + Together(LinesOf(text, indent, separators)[..n])
    decreases n
  {
    hide Ordered, LineAt;
    var lines := LinesOf(text, indent, separators);
    assert lines[..n][..n - 1] == lines[..n - 1];
    if n > 1 {
      JoinedTogether(text, indent, separators, n - 1);
      var before, last := Together(lines[..n - 1]), lines[n - 1];
      assert ("\n" + before) + "\n" + last == "\n" + (before + "\n" + last);
    } else {
      assert lines[..0] == [] && Joined(text, indent, separators, 0) == "";
    }
  }

  /** A statement that opted out goes out as it stands; one that falls back goes out line by line, and nothing
      but white space has changed. */
  lemma VerbatimKeepsText(entries: seq<Entry>, file: Lexing.Input, l: Ledger, op: Op)
    requires op.VerbatimOr? && WellOrdered(entries, file.source) && l.printed <= |entries|
             && InSource(op, |file.source|) && WentVerbatim(entries, file, l, op)
    ensures var pushed, text := Pushes(l, Exec(entries, file, l, op)), file.source[op.start..op.end];
            && (op.optedOut ==> pushed == [Plain(Text(text))])
            && Ink(AsText(pushed)) == Ink(text)
            && AsText(pushed)
               == if op.optedOut then text
                  else Together(LinesOf(text, BaseIndent(file.source, op.start), Breaks(Part(file, op.start, op.end))))
  {
    hide WellOrdered, AsText, Together, Lexing.All, LinesOf, BaseIndent, Breaks, Ink, ExecAll, Marked;
    var text := file.source[op.start..op.end];
    var pushed := Pushes(l, Exec(entries, file, l, op));
    if op.optedOut {
      MarkedPushesNothing(entries, Pushed(l, [Plain(Text(text))]), op.start, op.end,
                          AsItStands(file, op.start, op.end, |l.elements|));
      assert pushed == [Plain(Text(text))];
      AsTextOne(Plain(Text(text)));
    } else {
      var slice := Reanchored(file, op.start, op.end, |l.elements|);
      RestoreRewinds(l, ExecAll(entries, file, l, op.body));
      MarkedPushesNothing(entries, Pushed(l, Comments.Lines(slice.lines)), op.start, op.end, slice);
      assert pushed == Comments.Lines(slice.lines);
      LinesAsText(slice.lines);
      var indent, separators := BaseIndent(file.source, op.start), Breaks(Part(file, op.start, op.end));
      WholeJoined(text, indent, separators);
    }
  }

  lemma MarkedPushesNothing(entries: seq<Entry>, l: Ledger, start: nat, end: nat, slice: Slice)
    requires l.printed <= |entries|
    ensures MarkedInside(entries, l, start, end, slice).elements == l.elements
  {
  }

  lemma WholeJoined(text: string, indent: string, separators: seq<nat>)
    requires Ordered(text, separators) && IsIndent(indent)
    ensures Ink(Together(LinesOf(text, indent, separators))) == Ink(text)
  {
    hide Ordered, Ink, Together, LinesOf, IsIndent;
    var n, lines := |separators| + 1, LinesOf(text, indent, separators);
    OnlyWhiteSpaceMoves(text, indent, separators, n);
    JoinedTogether(text, indent, separators, n);
    assert lines[..n] == lines;
    InkCat("\n", Together(lines));
    SpaceHasNoInk("\n");
  }
}
