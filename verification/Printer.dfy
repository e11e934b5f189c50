/** The printer itself: fields updated in place while an index walks the flat stream. Every method
    is proved to do what the functions of `Layout` say. */
module Printer {
  import opened Wrappers
  import opened Document
  import L = Layout
  import DocLayout
  import Propagate

  class Printer {
    const options: L.Options
    var output: string
    var lineStart: nat
    var column: nat
    var indents: seq<L.Indent>
    var modes: seq<PrintMode>
    var groupModes: map<GroupId, PrintMode>
    var suffixes: seq<Element>
    var isPendingSpace: bool
    var isPendingIndent: bool

    constructor (options: L.Options)
      ensures this.options == options && State() == L.State("", 0, 0, [], [], map[], [], false, false)
    {
      this.options := options;
      output, lineStart, column := "", 0, 0;
      indents, modes, groupModes, suffixes := [], [], map[], [];
      isPendingSpace, isPendingIndent := false, false;
    }

    ghost function State(): L.State
      reads this
    {
      L.State(output, lineStart, column, indents, modes, groupModes, suffixes, isPendingSpace, isPendingIndent)
    }

    // ----- measuring -----

    function RemainingWidth(): (w: int)
      reads this
      ensures w == L.RemainingWidth(options, State())
    {
      var pendingIndent := if isPendingIndent then L.PendingIndentWidth(options, indents) else 0;
      options.lineWidth - column - pendingIndent - (if isPendingSpace then 1 else 0)
    }

    /** Skip past a nested region: from just after the opening tag to one past the matching close. */
    static method SkipRegion(elements: seq<Element>, start: nat, close: Tag) returns (end: nat)
      requires start <= |elements|
      ensures end == start + L.SkipRegion(elements[start..], close, 1) && end <= |elements|
    {
      var depth := 1;
      var index := start;
      while index < |elements|
        invariant start <= index <= |elements| && depth >= 1
        invariant start + L.SkipRegion(elements[start..], close, 1)
                  == index + L.SkipRegion(elements[index..], close, depth)
      {
        assert elements[index..][1..] == elements[index + 1..];
        if L.Opens(close, elements[index]) {
          depth := depth + 1;
        } else if elements[index] == Mark(close) {
          depth := depth - 1;
          if depth == 0 {
            return index + 1;
          }
        }
        index := index + 1;
      }
      end := |elements|;
    }

    /** Width-only check of a detached slice. */
    method FitsSliceFlat(elements: seq<Element>, budget: int) returns (left: Option<int>)
      ensures left == L.SliceFits(options, elements, budget)
      decreases elements
    {
      var budget' := budget;
      for i := 0 to |elements|
        invariant L.SliceFits(options, elements[i..], budget') == L.SliceFits(options, elements, budget)
      {
        assert elements[i..][1..] == elements[i + 1..];
        match elements[i] {
          case Plain(a) =>
            var cost := L.AtomCost(options, a);
            if cost.None? { return None; }
            budget' := budget' - cost.value;
          case BestFitting(variants) =>
            if variants != [] {
              var inner := FitsSliceFlat(variants[0].elements, budget');
              if inner.None? { return None; }
              budget' := inner.value;
            }
          case Mark(_) =>
        }
        if budget' < 0 { return None; }
      }
      left := Some(budget');
    }

    /** What an element costs: nothing inside a line suffix, nothing for a tag. */
    method ElementCost(element: Element, suffixDepth: nat, budget: int) returns (left: Option<int>)
      ensures left == DocLayout.ElementCost(options, element, suffixDepth, budget)
    {
      hide L.SliceFits, L.AtomCost;
      left := Some(budget);
      if suffixDepth == 0 {
        match element {
          case Plain(a) =>
            var cost := L.AtomCost(options, a);
            left := if cost.None? then None else Some(budget - cost.value);
          case BestFitting(variants) =>
            if variants != [] {
              left := FitsSliceFlat(variants[0].elements, budget);
            }
          case Mark(_) =>
        }
      }
    }

    /** Simulate flat printing from `start` until the region ends, checking that the content fits
        the remaining width; `extra` pre-charges a pending separator. */
    method FitsRegionWithExtra(elements: seq<Element>, start: nat, region: L.Region, extra: int) returns (fits: bool)
      requires start <= |elements|
      ensures fits == L.FitsRegion(options, State(), elements[start..], region, extra)
    {
      hide L.FitsFrom, L.SkipRegion, L.RemainingWidth, DocLayout.ElementCost;
      var budget := RemainingWidth() - extra;
      var depth := 1;
      var suffixDepth: nat := 0;
      var index := start;
      while index < |elements|
        invariant start <= index <= |elements|
        invariant suffixDepth > 0 ==> budget >= 0
        invariant L.FitsFrom(options, groupModes, elements[index..], region, depth, suffixDepth, budget)
               == L.FitsRegion(options, State(), elements[start..], region, extra)
      {
        var element := elements[index];
        ghost var tail := elements[index + 1..];
        assert elements[index..] == [element] + tail;
        var (depth', mayEnd) := L.Track(region, element, depth);
        if mayEnd && depth' == 0 {
          DocLayout.MeasureEnd(options, groupModes, element, tail, region, depth, suffixDepth, budget);
          return true;
        }
        if suffixDepth == 0 && DocLayout.Skips(groupModes, element) {
          DocLayout.MeasureSkip(options, groupModes, element.tag.mode, element.tag.id, tail, region, depth, budget);
          var next := SkipRegion(elements, index + 1, EndConditional);
          assert tail[next - index - 1..] == elements[next..];
          index := next;
          continue;
        }
        DocLayout.MeasureOn(options, groupModes, element, tail, region, depth, suffixDepth, budget);
        var left := ElementCost(element, suffixDepth, budget);
        if left.None? || left.value < 0 {
          return false;
        }
        budget := left.value;
        suffixDepth := DocLayout.SuffixDepth(element, suffixDepth);
        depth := depth';
        index := index + 1;
      }
      assert elements[index..] == [];
      DocLayout.MeasureNothing(options, groupModes, region, depth, suffixDepth, budget);
      fits := true;
    }

    // ----- output -----

    method FlushIndent()
      modifies this
      ensures State() == L.FlushIndent(options, old(State()))
    {
      isPendingIndent := false;
      var levels := 0;
      for i := 0 to |indents|
        invariant unchanged(`output, `lineStart, `column, `indents, `modes, `groupModes, `suffixes, `isPendingSpace)
                  && !isPendingIndent
        invariant levels + L.IndentLevels(indents[i..]) == L.IndentLevels(indents)
      {
        assert indents[i..][1..] == indents[i + 1..];
        if indents[i].Level? { levels := levels + 1; }
      }
      var alignExtra := L.AlignSpaces(indents);
      if options.useTabs {
        output := output + Times('\t', levels);
        column := column + levels;
      } else {
        var spaces := levels * options.indentWidth;
        output := output + Times(' ', spaces);
        column := column + spaces;
      }
      output := output + Times(' ', alignExtra);
      column := column + alignExtra;
    }

    method EmitText(content: string)
      modifies this
      ensures State() == L.EmitText(options, old(State()), content)
    {
      hide L.FlushIndent, L.Width;
      if isPendingIndent {
        FlushIndent();
      }
      if isPendingSpace {
        isPendingSpace := false;
        output := output + " ";
        column := column + 1;
      }
      output := output + content;
      if '\n' in content {
        var last := L.LastNewline(content);
        lineStart := |output| - (|content| - last - 1);
        column := L.Width(options, content[last + 1..]);
      } else {
        column := column + L.Width(options, content);
      }
    }

    method FlushSuffixes()
      modifies this
      ensures State() == L.FlushSuffixes(options, old(State()))
    {
      if suffixes == [] {
        return;
      }
      var queued := suffixes;
      suffixes := [];
      ghost var start := State();
      for i := 0 to |queued|
        invariant L.FlushElements(options, State(), queued[i..]) == L.FlushElements(options, start, queued)
      {
        assert queued[i..][1..] == queued[i + 1..];
        match queued[i] {
          case Plain(Token(content)) => EmitText(content);
          case Plain(Text(content)) => EmitText(content);
          case Plain(Space) => isPendingSpace := true;
          case _ =>
        }
      }
    }

    method TrimTrailingWhitespace()
      modifies this`output
      ensures output == L.TrimFrom(old(output), lineStart)
    {
      var trimmedEnd := |output|;
      assert output[..trimmedEnd] == output;
      while trimmedEnd > lineStart && L.IsBlank(output[trimmedEnd - 1])
        invariant 0 <= trimmedEnd <= |output| && output == old(output)
        invariant L.TrimFrom(output[..trimmedEnd], lineStart) == L.TrimFrom(output, lineStart)
      {
        assert output[..trimmedEnd][..trimmedEnd - 1] == output[..trimmedEnd - 1];
        trimmedEnd := trimmedEnd - 1;
      }
      output := output[..trimmedEnd];
    }

    method EmitNewline(isBlankLine: bool)
      modifies this
      ensures State() == L.EmitNewline(options, old(State()), isBlankLine)
      ensures output != "" && output[|output| - 1] == '\n' && lineStart == |output| && column == 0
      ensures isBlankLine ==> |output| >= 2 && output[|output| - 2] == '\n'
      ensures isPendingIndent && !isPendingSpace
    {
      FlushSuffixes();
      isPendingSpace := false;
      TrimTrailingWhitespace();
      if isBlankLine {
        EndBlankLine();
      } else if !L.EndsBlankLine(output) {
        output := output + "\n";
      }
      lineStart := |output|;
      column := 0;
      isPendingIndent := true;
    }

    /** Exactly one blank line, never a stack of them. */
    method EndBlankLine()
      modifies this`output
      ensures output == old(output) + Times('\n', L.BlankLineGap(old(output)))
    {
      ghost var gap := L.BlankLineGap(output);
      ghost var n := 0;
      while !L.EndsBlankLine(output)
        invariant n <= gap && output == old(output) + Times('\n', n)
        decreases gap - n
      {
        assert n != gap;
        output := output + "\n";
        assert Times('\n', n + 1) == Times('\n', n) + "\n";
        n := n + 1;
      }
      assert old(output) + Times('\n', 0) == old(output);
      assert Times('\n', 1) == "\n";
    }

    method PrintLine(mode: LineMode)
      modifies this
      ensures State() == L.PrintLine(options, old(State()), mode)
    {
      var current := L.CurrentMode(L.State("", 0, 0, [], modes, map[], [], false, false));
      match (current, mode) {
        case (Flat, Soft) =>
        case (Flat, SoftOrSpace) => isPendingSpace := true;
        case (_, Empty) => EmitNewline(true);
        case (_, _) => EmitNewline(false);
      }
    }

    // ----- the walk -----

    /** Print the element at `index`; the index after it and after any region it consumed. */
    method PrintElement(elements: seq<Element>, index: nat) returns (next: nat)
      requires index < |elements|
      modifies this
      ensures index < next <= |elements|
      ensures (next - index, State()) == L.Step(options, elements[index..], old(State()))
      decreases elements, |elements| - index, 1
    {
      hide L.Loop, L.FillFlat, L.BestFlat, L.EmitText, L.EmitNewline, L.PrintLine;
      assert elements[index..][1..] == elements[index + 1..];
      match elements[index] {
        case Plain(Token(content)) => EmitText(content); next := index + 1;
        case Plain(Text(content)) => EmitText(content); next := index + 1;
        case Plain(Space) => isPendingSpace := true; next := index + 1;
        case Plain(Line(mode)) => PrintLine(mode); next := index + 1;
        case Plain(ExpandParent) => next := index + 1;
        case Plain(LineSuffixBoundary) =>
          if suffixes != [] { EmitNewline(false); }
          next := index + 1;
        case BestFitting(variants) =>
          PrintBestFitting(variants);
          next := index + 1;
        case Mark(tag) => next := PrintTag(elements, index);
      }
    }

    method PrintTag(elements: seq<Element>, index: nat) returns (next: nat)
      requires index < |elements| && elements[index].Mark?
      modifies this
      ensures index < next <= |elements|
      ensures (next - index, State()) == L.Step(options, elements[index..], old(State()))
      decreases elements, |elements| - index, 0
    {
      hide L.Loop, L.FillFlat, L.BestFlat, L.FitsFrom, L.SkipRegion, L.RemainingWidth;
      assert elements[index..][1..] == elements[index + 1..];
      next := index + 1;
      match elements[index].tag {
        case StartGroup(id) =>
          var mode;
          if id in groupModes {
            mode := groupModes[id];
          } else if modes != [] && modes[|modes| - 1] == Flat {
            mode := Flat;
          } else {
            var fits := FitsRegionWithExtra(elements, index + 1, L.GroupRegion, 0);
            mode := if fits then Flat else Expanded;
          }
          groupModes := groupModes[id := mode];
          modes := modes + [mode];
        case EndGroup => if modes != [] { modes := modes[..|modes| - 1]; }
        case StartIndent => indents := indents + [L.Level];
        case StartAlign(width) => indents := indents + [L.Align(width)];
        case StartIndentIfGroupBreaks(id) =>
          indents := indents + [if id in groupModes && groupModes[id] == Expanded then L.Level else L.Inactive];
        case EndIndent => PopIndent();
        case EndAlign => PopIndent();
        case EndIndentIfGroupBreaks => PopIndent();
        case StartConditional(mode, id) =>
          if !(id in groupModes && groupModes[id] == mode) {
            next := SkipRegion(elements, index + 1, EndConditional);
          }
        case StartFill => next := PrintFill(elements, index + 1);
        case StartLineSuffix =>
          next := SkipRegion(elements, index + 1, EndLineSuffix);
          if index + 1 < next {
            assert elements[index..][1..next - index - 1] == elements[index + 1..next - 1];
            suffixes := suffixes + elements[index + 1..next - 1];
          }
        case _ =>
      }
    }

    method PopIndent()
      modifies this`indents
      ensures State() == L.PopIndent(old(State()))
    {
      if indents != [] { indents := indents[..|indents| - 1]; }
    }

    method PrintBestFitting(variants: seq<Variant>)
      modifies this
      ensures State() == L.BestFlat(options, variants, old(State()))
      decreases variants, 0
    {
      hide L.Loop, L.FitsFrom, L.RemainingWidth;
      var i := 0;
      while i < |variants|
        invariant 0 <= i <= |variants|
        invariant L.BestFlat(options, variants[i..], State()) == L.BestFlat(options, variants, old(State()))
      {
        assert variants[i..][1..] == variants[i + 1..];
        var body := variants[i].elements;
        assert body[0..] == body;
        var isLast := i == |variants| - 1;
        var fits := isLast;
        if !isLast {
          fits := FitsRegionWithExtra(body, 0, L.WholeRegion, 0);
        }
        if fits {
          modes := modes + [if isLast then Expanded else Flat];
          PrintElements(body);
          if modes != [] { modes := modes[..|modes| - 1]; }
          return;
        }
        i := i + 1;
      }
    }

    method PrintElements(elements: seq<Element>)
      modifies this
      ensures State() == L.Loop(options, elements, old(State()), false).1
      decreases elements, |elements| + 1, 0
    {
      var index := 0;
      assert elements[0..] == elements;
      while index < |elements|
        invariant 0 <= index <= |elements|
        invariant L.Loop(options, elements[index..], State(), false).1
                  == L.Loop(options, elements, old(State()), false).1
      {
        var next := PrintElement(elements, index);
        assert elements[index..][next - index..] == elements[next..];
        index := next;
      }
    }

    /** The elements of one fill entry, up to its end tag. */
    method PrintEntry(elements: seq<Element>, start: nat) returns (end: nat)
      requires start <= |elements|
      modifies this
      ensures start <= end <= |elements|
      ensures (end - start, State()) == L.Loop(options, elements[start..], old(State()), true)
      decreases elements, |elements| - start, 2
    {
      hide L.Loop, L.Step;
      end := start;
      ghost var goal := L.Loop(options, elements[start..], State(), true);
      while end < |elements| && elements[end] != Mark(EndEntry)
        invariant start <= end <= |elements|
        invariant DocLayout.After(end - start, L.Loop(options, elements[end..], State(), true)) == goal
      {
        ghost var before := State();
        var next := PrintElement(elements, end);
        assert elements[end..][next - end..] == elements[next..];
        DocLayout.LoopOn(options, elements[end..], next - end, before, State(), elements[next..], true);
        end := next;
      }
      DocLayout.LoopDone(options, elements[end..], State(), true);
    }

    /** One fill entry with its tags, measured and printed. */
    method PrintFillEntry(elements: seq<Element>, index: nat) returns (next: nat)
      requires index < |elements| && elements[index] == Mark(StartEntry)
      modifies this
      ensures index < next <= |elements|
      ensures DocLayout.After(next - index, L.FillFlat(options, elements[next..], State()))
           == L.FillFlat(options, elements[index..], old(State()))
      decreases elements, |elements| - index, 1
    {
      hide L.FillFlat, L.Loop, L.Step, L.FitsRegion;
      ghost var tail := elements[index + 1..];
      ghost var before := State();
      assert elements[index..] == [Mark(StartEntry)] + tail;
      var fits := FitsRegionWithExtra(elements, index + 1, L.EntryRegion, 0);
      modes := modes + [if fits then Flat else Expanded];
      var end := PrintEntry(elements, index + 1);
      if end == |elements| {
        DocLayout.FillUnclosed(options, tail, before, State());
        assert elements[end..] == [];
        DocLayout.FillNothing(options, State());
        return end;
      }
      ghost var printed := State();
      if modes != [] { modes := modes[..|modes| - 1]; }
      next := end + 1;
      assert tail[end - index..] == elements[next..];
      DocLayout.FillEnters(options, tail, end - index - 1, elements[next..], before, printed);
    }

    /** Greedy fill: each entry goes on the current line if it fits, otherwise the preceding
        separator becomes a newline; entries that fit no line print expanded. */
    method PrintFill(elements: seq<Element>, start: nat) returns (next: nat)
      requires start <= |elements|
      modifies this
      ensures start <= next <= |elements|
      ensures (next - start, State()) == L.FillFlat(options, elements[start..], old(State()))
      decreases elements, |elements| - start, 3
    {
      hide L.FillFlat, L.Loop, L.Step, L.FillSeparator, L.FitsRegion;
      var index := start;
      ghost var goal := L.FillFlat(options, elements[start..], State());
      while index < |elements|
        invariant start <= index <= |elements|
        invariant DocLayout.After(index - start, L.FillFlat(options, elements[index..], State())) == goal
        decreases |elements| - index
      {
        ghost var before := State();
        ghost var tail := elements[index + 1..];
        assert elements[index..] == [elements[index]] + tail;
        var element := elements[index];
        if element == Mark(EndFill) {
          DocLayout.FillEnds(options, tail, before);
          return index + 1;
        } else if element.Plain? && element.atom.Line? {
          DocLayout.FillSeparates(options, element.atom.lineMode, tail, before);
          FillSeparator(elements, index + 1, element.atom.lineMode);
          index := index + 1;
        } else if element == Mark(StartEntry) {
          index := PrintFillEntry(elements, index);
        } else {
          var after := PrintElement(elements, index);
          DocLayout.FillOther(options, elements[index..], after - index, before, State());
          assert elements[index..][after - index..] == elements[after..];
          index := after;
        }
      }
      assert elements[index..] == [];
      DocLayout.FillNothing(options, State());
      next := index;
    }

    /** The separator before the entry that starts at `entryStart`. */
    method FillSeparator(elements: seq<Element>, entryStart: nat, separator: LineMode)
      requires entryStart <= |elements|
      modifies this
      ensures State() == L.FillSeparator(options, separator, elements[entryStart..], old(State()))
    {
      hide L.EmitNewline, L.FitsFrom, L.RemainingWidth;
      if separator == Hard || separator == Empty {
        EmitNewline(separator == Empty);
        return;
      }
      var width := if separator == SoftOrSpace then 1 else 0;
      var fits := true;
      if entryStart < |elements| {
        assert elements[entryStart..][1..] == elements[entryStart + 1..];
        fits := FitsRegionWithExtra(elements, entryStart + 1, L.EntryRegion, width);
      }
      if !fits {
        EmitNewline(false);
      } else if separator == SoftOrSpace {
        isPendingSpace := true;
      }
    }
  }

  /** The state a document starts printing in. */
  ghost function Start(d: Doc): L.State {
    L.State("", 0, 0, [], [], Propagate.Pass(Stream(d), Propagate.Scan([], 0, map[])).marks, [], false, false)
  }

  ghost function Printed(o: L.Options, d: Doc): string {
    L.FlushSuffixes(o, DocLayout.PrintDoc(o, d, Start(d))).output
  }

  /** `print`: lay out the stream of a document. */
  method Print(elements: seq<Element>, options: L.Options, ghost d: Doc) returns (output: string)
    requires elements == Stream(d)
    ensures output == Printed(options, d)
  {
    var printer := new Printer(options);
    var marked := Propagate.PropagateExpand(elements, printer.groupModes);
    printer.groupModes := marked;
    DocLayout.WholeStream(options, d, printer.State());
    printer.PrintElements(elements);
    printer.FlushSuffixes();
    output := printer.output;
  }
}
