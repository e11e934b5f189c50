/** From source line to bundle line: splicing and assembling together (`emitter.rs`). */
module LineMap {
  import opened SourceLines
  import opened Splicing
  import opened Bundle
  import opened Discovery

  /** A module's body: its source with the calls rewritten, and the returned export table of a Luau
      module that has value exports. */
  function ModuleBody(source: string, rs: seq<Replacement>, exports: string): string
    requires Apart(source, rs)
  {
    if exports == "" then Spliced(source, rs) else Closed(Spliced(source, rs)) + exports
  }

  lemma ClosedKeepsLines(s: string, line: nat)
    requires line <= Newlines(s)
    ensures Newlines(s) <= Newlines(Closed(s)) && Lines(Closed(s))[line] == Lines(s)[line]
    ensures line < Newlines(Closed(s)) || Lines(s)[line] == ""
  {
    hide Lines;
    LinesCat(s, "\n");
    LineBreakAlone();
    if EndsLine(s) && line == Newlines(s) {
      if s == "" {
        EmptyLines();
      } else {
        LineEnds(s);
      }
    }
  }

  lemma LineBreakAlone()
    ensures Lines("\n") == ["", ""] && Newlines("\n") == 1
  {
    assert "\n"[1..] == "";
  }

  lemma BodyKeepsLines(source: string, rs: seq<Replacement>, exports: string, line: nat)
    requires Apart(source, rs) && line <= Newlines(source)
    requires forall i :: 0 <= i < |rs| ==> !Touches(source, rs[i], line)
    ensures var body := Closed(ModuleBody(source, rs, exports));
            var to := line + Shift(source, rs, line);
            && 0 <= to <= Newlines(body) && (exports == "" ==> Lines(body)[to] == Lines(source)[line])
            && (to < Newlines(body) ==> Lines(body)[to] == Lines(source)[line] || Lines(source)[line] == "")
            && (to == Newlines(body) ==> Lines(source)[line] == "")
  {
    hide Lines, Newlines, Closed, Spliced, Touches, KeepsNewlines, Shift;
    UntouchedLinesMove(source, rs, line);
    var s, to := Spliced(source, rs), line + Shift(source, rs, line);
    ClosedKeepsLines(s, to);
    if exports != "" {
      LinesCat(Closed(s), exports);
      ClosedKeepsLines(Closed(s) + exports, to);
    }
  }

  // ----- the rewrites of one module -----

  predicate AllRecorded(source: string, ws: seq<Rewrite>) { forall i :: 0 <= i < |ws| ==> Recorded(source, ws[i]) }

  /** The replacements of a module body whose loader is named with `prefix`. */
  function ReplacementsFor(source: string, prefix: string, ws: seq<Rewrite>): seq<Replacement>
    requires AllRecorded(source, ws)
  {
    seq(|ws|, i requires 0 <= i < |ws| => ReplacementFor(source, prefix, ws[i]))
  }

  predicate Rewrites(source: string, prefix: string, ws: seq<Rewrite>) {
    AllRecorded(source, ws) && Apart(source, ReplacementsFor(source, prefix, ws))
  }

  /** How far the attributed heads before `line` move it: one line down each, and one up for each newline
      the head had. */
  function HeadShift(source: string, ws: seq<Rewrite>, line: nat): int
    requires AllRecorded(source, ws)
    decreases |ws|
  {
    if ws == [] then 0
    else
      var n := |ws| - 1;
      HeadShift(source, ws[..n], line)
      + if ws[n].AttributedHead? && LineOf(source, ws[n].end) < line then 1 - Newlines(source[ws[n].start..ws[n].end])
        else 0
  }

  /** Only attributed heads move lines: every other rewrite keeps its newlines. */
  lemma {:induction false} OnlyHeadsShift(source: string, n: nat, ws: seq<Rewrite>, line: nat)
    requires Rewrites(source, Candidate(n), ws)
    ensures Shift(source, ReplacementsFor(source, Candidate(n), ws), line) == HeadShift(source, ws, line)
    decreases |ws|
  {
    hide Newlines, Recorded, Candidate, TextFor;
    if ws != [] {
      var m := |ws| - 1;
      var rs := ReplacementsFor(source, Candidate(n), ws);
      assert ReplacementsFor(source, Candidate(n), ws[..m]) == rs[..m];
      OnlyHeadsShift(source, n, ws[..m], line);
      assert rs[m] == ReplacementFor(source, Candidate(n), ws[m]) && Recorded(source, ws[m]);
      CandidateHasNoNewline(n);
      RewriteKeepsIff(source, Candidate(n), ws[m]);
      if ws[m].AttributedHead? {
        HeadText(source, Candidate(n), ws[m]);
      }
    }
  }

  lemma HeadText(source: string, prefix: string, w: Rewrite)
    requires Recorded(source, w) && w.AttributedHead?
    ensures Newlines(TextFor(source, prefix, w)) == 1
  {
    ExportHead();
  }

  lemma CandidateHasNoNewline(n: nat)
    ensures '\n' !in Candidate(n)
  {
    DecimalHasNoNewline(n);
  }

  lemma {:induction false} NoHeadsNoShift(source: string, ws: seq<Rewrite>, line: nat)
    requires AllRecorded(source, ws)
    requires forall i :: 0 <= i < |ws| && ws[i].AttributedHead? ==> Newlines(source[ws[i].start..ws[i].end]) == 1
    ensures HeadShift(source, ws, line) == 0
    decreases |ws|
  {
    if ws != [] {
      NoHeadsNoShift(source, ws[..|ws| - 1], line);
    }
  }

  /** A source line that no rewrite touches is, in the bundle, the line the map says: line `L` of the
      source at `start + L - 1`, moved by the attributed heads before it and by nothing else. Only an
      empty last line, behind the final newline, has no place. */
  lemma SourceLineLands(pieces: seq<Piece>, n: nat, source: string, p: nat, ws: seq<Rewrite>, exports: string,
                        line: nat)
    requires WholeLines(pieces) && n < |pieces| && pieces[n].Body?
    requires Rewrites(source, Candidate(p), ws)
    requires pieces[n].text == ModuleBody(source, ReplacementsFor(source, Candidate(p), ws), exports)
    requires line <= Newlines(source) && Lines(source)[line] != ""
    requires forall i :: 0 <= i < |ws| ==> !Touches(source, ReplacementFor(source, Candidate(p), ws[i]), line)
    ensures var start := 1 + Newlines(Assembled(pieces[..n]));
            var to := line + HeadShift(source, ws, line);
            && (exists i :: 0 <= i < |MapOf(pieces)|
                  && MapOf(pieces)[i] == LineMapEntry(start, start + Newlines(TextOf(pieces[n])) - 1, pieces[n].path))
            && 0 <= to < Newlines(TextOf(pieces[n]))
            && start - 1 + to < Newlines(Assembled(pieces))
            && Lines(Assembled(pieces))[start - 1 + to] == Lines(source)[line]
  {
    hide Lines, Newlines, Spliced, Touches, KeepsNewlines, Closed, Assembled, WholeLines, Shift, HeadShift, Recorded;
    hide Candidate, TextFor;
    var rs := ReplacementsFor(source, Candidate(p), ws);
    OnlyHeadsShift(source, p, ws, line);
    BodyKeepsLines(source, rs, exports, line);
    BodyLinesLand(pieces, n, line + HeadShift(source, ws, line));
    MapEntryOf(pieces, n);
  }

  /** Where no attributed head has other than one newline, source and bundle lines run one to one. */
  lemma SourceLinesRunAlong(pieces: seq<Piece>, n: nat, source: string, p: nat, ws: seq<Rewrite>, exports: string,
                            line: nat)
    requires WholeLines(pieces) && n < |pieces| && pieces[n].Body?
    requires Rewrites(source, Candidate(p), ws)
    requires forall i :: 0 <= i < |ws| && ws[i].AttributedHead? ==> Newlines(source[ws[i].start..ws[i].end]) == 1
    requires pieces[n].text == ModuleBody(source, ReplacementsFor(source, Candidate(p), ws), exports)
    requires line <= Newlines(source) && Lines(source)[line] != ""
    requires forall i :: 0 <= i < |ws| ==> !Touches(source, ReplacementFor(source, Candidate(p), ws[i]), line)
    ensures var at := Newlines(Assembled(pieces[..n])) + line;
            at <= Newlines(Assembled(pieces)) && Lines(Assembled(pieces))[at] == Lines(source)[line]
  {
    hide Lines, Newlines, Spliced, Touches, Closed, Assembled, WholeLines, HeadShift, Recorded, Candidate, TextFor;
    SourceLineLands(pieces, n, source, p, ws, exports, line);
    NoHeadsNoShift(source, ws, line);
  }
}
