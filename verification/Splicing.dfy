/** Rewriting a module body in place (`emitter.rs`): replacements spliced over recorded byte ranges,
    each with the newline count of what it replaces. */
module Splicing {
  import opened Wrappers
  import opened SourceLines
  import Discovery
  import Literals

  datatype Replacement = Replacement(start: nat, end: nat, text: string)

  /** In order, apart and inside the source. */
  predicate Apart(source: string, rs: seq<Replacement>) {
    && (forall i :: 0 <= i < |rs| ==> rs[i].start <= rs[i].end <= |source|)
    && (forall i, j :: 0 <= i < j < |rs| ==> rs[i].end <= rs[j].start)
  }

  predicate KeepsNewlines(source: string, r: Replacement)
    requires r.start <= r.end <= |source|
  {
    Newlines(r.text) == Newlines(source[r.start..r.end])
  }

  /** The source with its replacements made, the part up to `upTo`. */
  function SplicedUpTo(source: string, rs: seq<Replacement>): string
    requires Apart(source, rs)
    decreases |rs|
  {
    if rs == [] then ""
    else
      var n := |rs| - 1;
      SplicedUpTo(source, rs[..n]) + source[EndOf(rs[..n])..rs[n].start] + rs[n].text
  }

  function EndOf(rs: seq<Replacement>): nat { if rs == [] then 0 else rs[|rs| - 1].end }

  function Spliced(source: string, rs: seq<Replacement>): string
    requires Apart(source, rs)
  {
    EndInside(source, rs);
    SplicedUpTo(source, rs) + source[EndOf(rs)..]
  }

  lemma EndInside(source: string, rs: seq<Replacement>)
    requires Apart(source, rs)
    ensures EndOf(rs) <= |source|
  {
  }

  lemma ApartPrefixes(source: string, rs: seq<Replacement>, i: nat)
    requires Apart(source, rs) && i < |rs|
    ensures Apart(source, rs[..i]) && Apart(source, rs[..i + 1])
    ensures EndOf(rs[..i]) <= rs[i].start <= rs[i].end <= |source| && EndOf(rs[..i + 1]) == rs[i].end
  {
    assert i > 0 ==> rs[i - 1].end <= rs[i].start;
  }

  /** One more replacement. */
  lemma OneMoreMade(source: string, rs: seq<Replacement>, i: nat)
    requires Apart(source, rs) && i < |rs|
    ensures Apart(source, rs[..i]) && Apart(source, rs[..i + 1])
    ensures EndOf(rs[..i]) <= rs[i].start <= rs[i].end <= |source| && EndOf(rs[..i + 1]) == rs[i].end
    ensures SplicedUpTo(source, rs[..i + 1])
            == SplicedUpTo(source, rs[..i]) + source[EndOf(rs[..i])..rs[i].start] + rs[i].text
  {
    hide Apart, EndOf;
    var more := rs[..i + 1];
    ApartPrefixes(source, rs, i);
    ApartPrefixes(source, more, i);
    assert more[..i] == rs[..i] && |more| - 1 == i && more[i] == rs[i];
  }

  /** The loop over the sorted replacements. */
  method Splice(source: string, rs: seq<Replacement>) returns (result: string)
    requires Apart(source, rs)
    ensures result == Spliced(source, rs)
  {
    hide SplicedUpTo, EndOf, Apart;
    result := "";
    var cursor := 0;
    assert EndOf([]) == 0 && Apart(source, []) && SplicedUpTo(source, []) == "" by { NothingMade(source); }
    assert rs[..0] == [];
    for i := 0 to |rs|
      invariant Apart(source, rs[..i]) && cursor == EndOf(rs[..i]) && cursor <= |source|
      invariant result == SplicedUpTo(source, rs[..i])
    {
      OneMoreMade(source, rs, i);
      if cursor < rs[i].start {
        result := result + source[cursor..rs[i].start];
      } else {
        assert source[cursor..rs[i].start] == "" && result + "" == result;
      }
      result := result + rs[i].text;
      cursor := rs[i].end;
    }
    assert rs[..|rs|] == rs;
    if cursor < |source| {
      result := result + source[cursor..];
    }
  }

  lemma NothingMade(source: string)
    ensures EndOf([]) == 0 && Apart(source, []) && SplicedUpTo(source, []) == ""
  {
  }

  lemma ApartHere(s: string, t: string, rs: seq<Replacement>, n: nat)
    requires Apart(s, rs) && n <= |t| && EndOf(rs) <= n
    ensures Apart(t, rs)
  {
    forall i | 0 <= i < |rs|
      ensures rs[i].end <= EndOf(rs)
    {
    }
  }

  /** The 0-based line a position lies on. */
  function LineOf(source: string, pos: nat): nat
    requires pos <= |source|
  {
    Newlines(source[..pos])
  }

  predicate Touches(source: string, r: Replacement, line: nat)
    requires r.start <= r.end <= |source|
  {
    LineOf(source, r.start) <= line <= LineOf(source, r.end)
  }

  lemma PrefixNewlines(source: string, a: nat, b: nat)
    requires a <= b <= |source|
    ensures Newlines(source[..b]) == Newlines(source[..a]) + Newlines(source[a..b])
  {
    NewlinesCat(source[..a], source[a..b]);
    assert source[..a] + source[a..b] == source[..b];
  }

  /** Making the last replacement first gives the same text. */
  lemma {:induction false} LastFirst(source: string, rs: seq<Replacement>)
    requires rs != [] && Apart(source, rs)
    ensures var n := |rs| - 1;
            var once := source[..rs[n].start] + rs[n].text + source[rs[n].end..];
            Apart(once, rs[..n]) && Spliced(source, rs) == Spliced(once, rs[..n])
  {
    var n := |rs| - 1;
    var last := rs[n];
    var once := source[..last.start] + last.text + source[last.end..];
    EndInside(source, rs[..n]);
    assert EndOf(rs[..n]) <= last.start;
    SamePrefix(source, once, rs[..n], last.start);
    assert once[EndOf(rs[..n])..] == source[EndOf(rs[..n])..last.start] + last.text + source[last.end..];
    assert SplicedUpTo(source, rs)
           == SplicedUpTo(source, rs[..n]) + source[EndOf(rs[..n])..last.start] + last.text;
  }

  lemma {:induction false} SamePrefix(s: string, t: string, rs: seq<Replacement>, n: nat)
    requires Apart(s, rs) && n <= |s| && n <= |t| && s[..n] == t[..n] && EndOf(rs) <= n
    ensures Apart(t, rs) && SplicedUpTo(s, rs) == SplicedUpTo(t, rs)
    decreases |rs|
  {
    hide SplicedUpTo, EndOf, Apart;
    if rs == [] {
      NothingMade(s);
      NothingMade(t);
    } else {
      var m := |rs| - 1;
      OneMoreMade(s, rs, m);
      assert rs[..m + 1] == rs;
      SamePrefix(s, t, rs[..m], n);
      ApartHere(s, t, rs, n);
      OneMoreMade(t, rs, m);
      var a, b := EndOf(rs[..m]), rs[m].start;
      assert s[..n][a..b] == s[a..b] && t[..n][a..b] == t[a..b];
    }
  }

  /** How far the replacements before `line` move it. */
  function Shift(source: string, rs: seq<Replacement>, line: int): int
    requires Apart(source, rs)
    decreases |rs|
  {
    if rs == [] then 0
    else
      var n := |rs| - 1;
      Shift(source, rs[..n], line)
      + if LineOf(source, rs[n].end) < line then Newlines(rs[n].text) - Newlines(source[rs[n].start..rs[n].end]) else 0
  }

  /** The shift looks only at the text up to the last replacement and at which of them come before. */
  lemma {:induction false} ShiftSame(s: string, t: string, rs: seq<Replacement>, line: int, moved: int)
    requires Apart(s, rs) && Apart(t, rs)
    requires forall i :: 0 <= i < |rs| ==> s[..rs[i].end] == t[..rs[i].end]
    requires forall i :: 0 <= i < |rs| ==> (LineOf(s, rs[i].end) < line <==> LineOf(s, rs[i].end) < moved)
    ensures Shift(s, rs, line) == Shift(t, rs, moved)
    decreases |rs|
  {
    hide Newlines;
    if rs != [] {
      var n := |rs| - 1;
      ShiftSame(s, t, rs[..n], line, moved);
      var (from, to) := (rs[n].start, rs[n].end);
      assert s[..to] == t[..to];
      assert s[from..to] == s[..to][from..to] && t[from..to] == t[..to][from..to];
    }
  }

  lemma {:induction false} ShiftOfKeepers(source: string, rs: seq<Replacement>, line: int)
    requires Apart(source, rs) && forall i :: 0 <= i < |rs| ==> KeepsNewlines(source, rs[i])
    ensures Shift(source, rs, line) == 0
    decreases |rs|
  {
    if rs != [] {
      ShiftOfKeepers(source, rs[..|rs| - 1], line);
      assert KeepsNewlines(source, rs[|rs| - 1]);
    }
  }

  /** Every line that no replacement touches keeps its text, and moves by what the replacements before it
      add and take away. */
  lemma {:induction false} UntouchedLinesMove(source: string, rs: seq<Replacement>, line: nat)
    requires Apart(source, rs) && line <= Newlines(source)
    requires forall i :: 0 <= i < |rs| ==> !Touches(source, rs[i], line)
    ensures 0 <= line + Shift(source, rs, line) <= Newlines(Spliced(source, rs))
    ensures Lines(Spliced(source, rs))[line + Shift(source, rs, line)] == Lines(source)[line]
    decreases |rs|
  {
    hide Lines, Newlines, Spliced;
    if rs == [] {
      SplicedNothing(source);
    } else {
      var n := |rs| - 1;
      var last := rs[n];
      var a, x, b := source[..last.start], source[last.start..last.end], source[last.end..];
      var once := a + last.text + b;
      assert a + x + b == source;
      assert !Touches(source, last, line);
      PrefixNewlines(source, last.start, last.end);
      ReplaceMovesLines(a, x, last.text, b, line);
      LastFirst(source, rs);
      var moved: nat := if LineOf(source, last.end) < line then line - Newlines(x) + Newlines(last.text) else line;
      EarlierUntouched(source, once, rs, line, moved);
      UntouchedLinesMove(once, rs[..n], moved);
      ShiftSame(source, once, rs[..n], line, moved);
    }
  }

  lemma SplicedNothing(source: string)
    ensures Spliced(source, []) == source && Shift(source, [], 0) == 0
  {
  }

  lemma EarlierUntouched(source: string, once: string, rs: seq<Replacement>, line: nat, moved: nat)
    requires rs != [] && Apart(source, rs) && Apart(once, rs[..|rs| - 1])
    requires forall i :: 0 <= i < |rs| ==> !Touches(source, rs[i], line)
    requires var last := rs[|rs| - 1];
             && last.start <= |once| && source[..last.start] == once[..last.start]
             && (if LineOf(source, last.end) < line then LineOf(source, last.start) < moved
                 && LineOf(source, last.start) < line
                 else moved == line)
    ensures forall i :: 0 <= i < |rs| - 1 ==>
              && !Touches(once, rs[i], moved) && source[..rs[i].end] == once[..rs[i].end]
              && (LineOf(source, rs[i].end) < line <==> LineOf(source, rs[i].end) < moved)
  {
    hide Newlines;
    var last := rs[|rs| - 1];
    forall i | 0 <= i < |rs| - 1
      ensures !Touches(once, rs[i], moved) && source[..rs[i].end] == once[..rs[i].end]
      ensures LineOf(source, rs[i].end) < line <==> LineOf(source, rs[i].end) < moved
    {
      var r := rs[i];
      assert r.end <= last.start && rs[..|rs| - 1][i] == r;
      assert source[..r.end] == source[..last.start][..r.end] && once[..r.end] == once[..last.start][..r.end];
      assert source[..r.start] == source[..r.end][..r.start] && once[..r.start] == once[..r.end][..r.start];
      PrefixNewlines(source, r.end, last.start);
      PrefixNewlines(source, r.start, r.end);
      assert !Touches(source, r, line);
    }
  }

  /** Where every replacement keeps its newlines, every line it does not touch stays where it is. */
  lemma UntouchedLinesStay(source: string, rs: seq<Replacement>, line: nat)
    requires Apart(source, rs) && line <= Newlines(source)
    requires forall i :: 0 <= i < |rs| ==> KeepsNewlines(source, rs[i]) && !Touches(source, rs[i], line)
    ensures line <= Newlines(Spliced(source, rs))
    ensures Lines(Spliced(source, rs))[line] == Lines(source)[line]
  {
    hide Lines, Newlines, Spliced;
    UntouchedLinesMove(source, rs, line);
    ShiftOfKeepers(source, rs, line);
  }

  // ----- the replacement texts -----

  lemma {:induction false} RepeatNewlines(n: nat)
    ensures Newlines(Times('\n', n)) == n
  {
    if n > 0 {
      RepeatNewlines(n - 1);
      assert Times('\n', n)[1..] == Times('\n', n - 1);
    }
  }

  /** What a static require is rewritten to: the loader call, closed after as many newlines as the call
      it replaces. */
  function CallText(prefix: string, argument: string, newlines: nat): string {
    prefix + "require(" + argument + Times('\n', newlines) + ")"
  }

  lemma CallKeepsNewlines(prefix: string, argument: string, newlines: nat)
    requires Newlines(prefix) == 0 && Newlines(argument) == 0
    ensures Newlines(CallText(prefix, argument, newlines)) == newlines
  {
    RepeatNewlines(newlines);
    NoNewlines("require(");
    NoNewlines(")");
    NewlinesCat(prefix, "require(");
    NewlinesCat(prefix + "require(", argument);
    NewlinesCat(prefix + "require(" + argument, Times('\n', newlines));
    NewlinesCat(prefix + "require(" + argument + Times('\n', newlines), ")");
  }

  lemma {:induction false} NoNewlines(s: string)
    requires '\n' !in s
    ensures Newlines(s) == 0
  {
    if s != "" {
      NoNewlines(s[1..]);
    }
  }

  /** A quoted module name never breaks a line. */
  lemma {:induction false} QuotedNameHasNoNewline(name: string)
    requires Literals.AllBytes(name)
    ensures '\n' !in Literals.QuoteWith(Literals.QuoteLuaString, name)
  {
    EscapedHasNoNewline(name);
  }

  lemma {:induction false} EscapedHasNoNewline(s: string)
    requires Literals.AllBytes(s)
    ensures '\n' !in Literals.Escaped(Literals.QuoteLuaString, s)
  {
    if s != "" {
      EscapedHasNoNewline(s[1..]);
      assert '\n' !in Literals.Escape(Literals.QuoteLuaString, s[0]);
    }
  }

  // ----- the rewrites of a module body -----

  /** What a static require is given: the slot of its module, or the name it was written with. */
  datatype Argument = Slot(slot: nat) | Name(name: string)

  function ArgumentText(a: Argument): string
    requires a.Name? ==> Literals.AllBytes(a.name)
  {
    match a
    case Slot(slot) => Discovery.Decimal(slot)
    case Name(name) => Literals.QuoteWith(Literals.QuoteLuaString, name)
  }

  lemma ArgumentHasNoNewline(a: Argument)
    requires a.Name? ==> Literals.AllBytes(a.name)
    ensures Newlines(ArgumentText(a)) == 0
  {
    match a
    case Slot(slot) => DecimalHasNoNewline(slot); NoNewlines(ArgumentText(a));
    case Name(name) => QuotedNameHasNoNewline(name); NoNewlines(ArgumentText(a));
  }

  lemma {:induction false} DecimalHasNoNewline(n: nat)
    ensures '\n' !in Discovery.Decimal(n)
  {
    if n >= 10 {
      DecimalHasNoNewline(n / 10);
    }
  }

  /** What is rewritten: a static require, the callee of a dynamic one, an `export` that is dropped or
      becomes `local`, and the head of an attributed `export function`, from behind its last attribute
      to its name. */
  datatype Rewrite =
    | StaticCall(start: nat, end: nat, argument: Argument)
    | DynamicCallee(start: nat, end: nat)
    | DroppedExport(start: nat)
    | LocalExport(start: nat)
    | AttributedHead(start: nat, end: nat)

  const EXPORT := "export"

  function RangeEnd(w: Rewrite): nat {
    if w.DroppedExport? || w.LocalExport? then w.start + |EXPORT| else w.end
  }

  /** The recorded range is what the kind says: a callee is a name, and `export` is the word. */
  predicate Recorded(source: string, w: Rewrite) {
    && w.start <= RangeEnd(w) <= |source|
    && match w
       case StaticCall(_, _, argument) => argument.Name? ==> Literals.AllBytes(argument.name)
       case DynamicCallee(from, to) => '\n' !in source[from..to]
       case DroppedExport(from) => source[from..from + |EXPORT|] == EXPORT
       case LocalExport(from) => source[from..from + |EXPORT|] == EXPORT
       case AttributedHead(_, _) => true
  }

  function TextFor(source: string, prefix: string, w: Rewrite): string
    requires Recorded(source, w)
  {
    match w
    case StaticCall(from, to, argument) => CallText(prefix, ArgumentText(argument), Newlines(source[from..to]))
    case DynamicCallee(_, _) => prefix + "dynamic"
    case DroppedExport(_) => ""
    case LocalExport(_) => "local"
    case AttributedHead(_, _) => "\nlocal function "
  }

  function ReplacementFor(source: string, prefix: string, w: Rewrite): Replacement
    requires Recorded(source, w)
  {
    Replacement(w.start, RangeEnd(w), TextFor(source, prefix, w))
  }

  /** Every rewrite but the attributed head keeps the newlines of its range; that one keeps them if and
      only if its range has exactly one. */
  lemma RewriteKeepsIff(source: string, prefix: string, w: Rewrite)
    requires Recorded(source, w) && '\n' !in prefix
    ensures KeepsNewlines(source, ReplacementFor(source, prefix, w))
            <==> (w.AttributedHead? ==> Newlines(source[w.start..w.end]) == 1)
  {
    hide Newlines;
    NoNewlines(prefix);
    match w
    case StaticCall(from, to, argument) =>
      ArgumentHasNoNewline(argument);
      CallKeepsNewlines(prefix, ArgumentText(argument), Newlines(source[from..to]));
    case DynamicCallee(from, to) =>
      NoNewlines(source[from..to]);
      NoNewlines("dynamic");
      NewlinesCat(prefix, "dynamic");
    case DroppedExport(_) => NoNewlines(EXPORT); NoNewlines("");
    case LocalExport(_) => NoNewlines(EXPORT); NoNewlines("local");
    case AttributedHead(_, _) => ExportHead();
  }

  lemma ExportHead()
    ensures Newlines("\nlocal function ") == 1
  {
    assert "\nlocal function "[1..] == "local function ";
    NoNewlines("local function ");
  }

  /** An attributed `export function` alone: a line behind the head whose range has `m` newlines moves by
      `1 - m` and keeps its text; all lines stay if and only if `m` is one. */
  lemma AttributedExportMovesLines(source: string, prefix: string, w: Rewrite, line: nat)
    requires Recorded(source, w) && w.AttributedHead? && line <= Newlines(source)
    requires LineOf(source, w.end) < line
    ensures var r := ReplacementFor(source, prefix, w);
            var to := line + 1 - Newlines(source[w.start..w.end]);
            && Apart(source, [r]) && 0 <= to <= Newlines(Spliced(source, [r]))
            && Lines(Spliced(source, [r]))[to] == Lines(source)[line]
            && (to == line <==> KeepsNewlines(source, r))
  {
    hide Lines, Newlines, Spliced;
    var r := ReplacementFor(source, prefix, w);
    ExportHead();
    PrefixNewlines(source, w.start, w.end);
    assert !Touches(source, r, line);
    UntouchedLinesMove(source, [r], line);
    assert [r][..0] == [];
    assert Shift(source, [r], line) == 1 - Newlines(source[w.start..w.end]);
  }

  // ----- where everything lands -----

  /** By how much the replacements move what stands behind them. */
  function Moved(rs: seq<Replacement>): int {
    if rs == [] then 0
    else
      var last := rs[|rs| - 1];
      Moved(rs[..|rs| - 1]) + |last.text| - (last.end - last.start)
  }

  lemma {:induction false} UpToLength(source: string, rs: seq<Replacement>)
    requires Apart(source, rs)
    ensures |SplicedUpTo(source, rs)| == EndOf(rs) + Moved(rs)
    decreases |rs|
  {
    hide Apart, EndOf;
    if rs == [] {
      NothingMade(source);
    } else {
      var n := |rs| - 1;
      assert rs[..n + 1] == rs;
      OneMoreMade(source, rs, n);
      UpToLength(source, rs[..n]);
    }
  }

  lemma {:induction false} UpToPrefix(source: string, rs: seq<Replacement>, i: nat)
    requires Apart(source, rs) && i <= |rs|
    ensures Apart(source, rs[..i]) && SplicedUpTo(source, rs[..i]) <= SplicedUpTo(source, rs)
    decreases |rs|
  {
    hide Apart, EndOf, SplicedUpTo;
    if i == |rs| {
      assert rs[..i] == rs;
    } else {
      var n := |rs| - 1;
      OneMoreMade(source, rs, n);
      assert rs[..n + 1] == rs && rs[..n][..i] == rs[..i];
      UpToPrefix(source, rs[..n], i);
    }
  }

  /** The text of a replacement stands where its range was, moved by what the ones before it add and take. */
  lemma ReplacementLands(source: string, rs: seq<Replacement>, i: nat)
    requires Apart(source, rs) && i < |rs|
    ensures var at, text := rs[i].start + Moved(rs[..i]), rs[i].text;
            0 <= at && at + |text| <= |Spliced(source, rs)| && Spliced(source, rs)[at..at + |text|] == text
  {
    hide Apart, EndOf, SplicedUpTo;
    OneMoreMade(source, rs, i);
    UpToLength(source, rs[..i]);
    UpToPrefix(source, rs, i + 1);
    EndInside(source, rs);
    var front := SplicedUpTo(source, rs[..i]) + source[EndOf(rs[..i])..rs[i].start];
    assert |front| == rs[i].start + Moved(rs[..i]);
    assert front + rs[i].text <= Spliced(source, rs);
    assert (front + rs[i].text)[|front|..] == rs[i].text;
  }

  /** Every other byte of the source is kept, moved the same way; and there is nothing else. */
  lemma SourceLands(source: string, rs: seq<Replacement>, i: nat, at: nat)
    requires Apart(source, rs) && i <= |rs| && at < |source|
    requires i > 0 ==> rs[i - 1].end <= at
    requires i < |rs| ==> at < rs[i].start
    ensures 0 <= at + Moved(rs[..i]) < |Spliced(source, rs)| && Spliced(source, rs)[at + Moved(rs[..i])] == source[at]
    ensures |Spliced(source, rs)| == |source| + Moved(rs)
  {
    hide Apart, SplicedUpTo;
    EndInside(source, rs);
    UpToLength(source, rs);
    UpToPrefix(source, rs, i);
    UpToLength(source, rs[..i]);
    var front := SplicedUpTo(source, rs[..i]);
    if i == |rs| {
      assert rs[..i] == rs;
    } else {
      OneMoreMade(source, rs, i);
      UpToPrefix(source, rs, i + 1);
      var gap := source[EndOf(rs[..i])..rs[i].start];
      assert front + gap <= front + gap + rs[i].text <= Spliced(source, rs);
      assert (front + gap)[at + Moved(rs[..i])] == gap[at - EndOf(rs[..i])] == source[at];
    }
  }
}
