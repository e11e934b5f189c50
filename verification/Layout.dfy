/** The printer (`printer.rs`) as functions on its state: first over the flat stream exactly as
    the code walks it, then over the document the stream was written from. */
module Layout {
  import opened Wrappers
  import opened Document

  /** `charWidth` stands for the display width of one character. */
  datatype Options = Options(lineWidth: nat, useTabs: bool, indentWidth: nat, charWidth: char -> nat)

  datatype Indent = Level | Align(spaces: nat) | Inactive

  datatype State = State(
    output: string,
    lineStart: nat,
    column: nat,
    indents: seq<Indent>,
    modes: seq<PrintMode>,
    groupModes: map<GroupId, PrintMode>,
    suffixes: seq<Element>,
    pendingSpace: bool,
    pendingIndent: bool)

  function Width(o: Options, s: string): nat {
    if s == "" then 0 else o.charWidth(s[0]) + Width(o, s[1..])
  }

  /** Index of the last newline; the text is known to have one. */
  function LastNewline(s: string): (i: nat)
    requires '\n' in s
    ensures i < |s| && s[i] == '\n' && '\n' !in s[i + 1..]
  {
    if s[|s| - 1] == '\n' then |s| - 1
    else
      assert s == s[..|s| - 1] + [s[|s| - 1]];
      LastNewline(s[..|s| - 1])
  }

  function CurrentMode(st: State): PrintMode {
    if st.modes == [] then Expanded else st.modes[|st.modes| - 1]
  }

  // ----- indentation -----

  function IndentLevels(indents: seq<Indent>): nat {
    if indents == [] then 0 else (if indents[0].Level? then 1 else 0) + IndentLevels(indents[1..])
  }

  function AlignSpaces(indents: seq<Indent>): nat {
    if indents == [] then 0 else (if indents[0].Align? then indents[0].spaces else 0) + AlignSpaces(indents[1..])
  }

  /** `pending_indent_width`: one sum over the stack, as the measuring side computes it. */
  function PendingIndentWidth(o: Options, indents: seq<Indent>): nat {
    if indents == [] then 0
    else
      (match indents[0]
       case Level => if o.useTabs then 1 else o.indentWidth
       case Align(n) => n
       case Inactive => 0) + PendingIndentWidth(o, indents[1..])
  }

  /** `flush_indent`: levels first, then the explicit spaces, as the printing side writes them. */
  function FlushIndent(o: Options, st: State): State {
    var levels := IndentLevels(st.indents);
    var lead := if o.useTabs then Times('\t', levels) else Times(' ', levels * o.indentWidth);
    var align := AlignSpaces(st.indents);
    st.(pendingIndent := false,
        output := st.output + lead + Times(' ', align),
        column := st.column + |lead| + align)
  }

  // ----- text and newlines -----

  function FlushSpace(st: State): State {
    if st.pendingSpace
    then st.(pendingSpace := false, output := st.output + " ", column := st.column + 1)
    else st
  }

  function Write(o: Options, st: State, s: string): State {
    var out := st.output + s;
    if '\n' in s then
      var last := LastNewline(s);
      st.(output := out, lineStart := |out| - (|s| - last - 1), column := Width(o, s[last + 1..]))
    else
      st.(output := out, column := st.column + Width(o, s))
  }

  function EmitText(o: Options, st: State, s: string): State {
    Write(o, FlushSpace(if st.pendingIndent then FlushIndent(o, st) else st), s)
  }

  function FlushElements(o: Options, st: State, es: seq<Element>): State
    decreases |es|
  {
    if es == [] then st
    else
      FlushElements(o, FlushElement(o, st, es[0]), es[1..])
  }

  /** Only text and spaces print from a suffix; anything else in one is ignored. */
  function FlushElement(o: Options, st: State, e: Element): State {
    match e
    case Plain(Token(s)) => EmitText(o, st, s)
    case Plain(Text(s)) => EmitText(o, st, s)
    case Plain(Space) => st.(pendingSpace := true)
    case _ => st
  }

  function FlushSuffixes(o: Options, st: State): State {
    FlushElements(o, st.(suffixes := []), st.suffixes)
  }

  predicate IsBlank(c: char) { c == ' ' || c == '\t' }

  function TrimFrom(s: string, lineStart: nat): (r: string)
    ensures r <= s
    ensures forall k :: |r| <= k < |s| ==> IsBlank(s[k])
  {
    if |s| > lineStart && IsBlank(s[|s| - 1]) then TrimFrom(s[..|s| - 1], lineStart) else s
  }

  predicate EndsBlankLine(s: string) { |s| >= 2 && s[|s| - 2] == '\n' && s[|s| - 1] == '\n' }

  /** How many newlines the blank-line loop still has to push. */
  function BlankLineGap(s: string): (n: nat)
    ensures EndsBlankLine(s + Times('\n', n))
    ensures n <= 2 && (n >= 1 ==> !EndsBlankLine(s)) && (n == 2 ==> !EndsBlankLine(s + "\n"))
  {
    if EndsBlankLine(s) then 0 else if s != "" && s[|s| - 1] == '\n' then 1 else 2
  }

  function EmitNewline(o: Options, st: State, blankLine: bool): State {
    var flushed := FlushSuffixes(o, st);
    var trimmed := TrimFrom(flushed.output, flushed.lineStart);
    var out :=
      if blankLine then trimmed + Times('\n', BlankLineGap(trimmed))
      else if EndsBlankLine(trimmed) then trimmed
      else trimmed + "\n";
    flushed.(output := out, pendingSpace := false, lineStart := |out|, column := 0, pendingIndent := true)
  }

  function PrintLine(o: Options, st: State, m: LineMode): State {
    match (CurrentMode(st), m)
    case (Flat, Soft) => st
    case (Flat, SoftOrSpace) => st.(pendingSpace := true)
    case (_, Empty) => EmitNewline(o, st, true)
    case (_, _) => EmitNewline(o, st, false)
  }

  function PrintAtom(o: Options, st: State, a: Atom): State {
    match a
    case Token(s) => EmitText(o, st, s)
    case Text(s) => EmitText(o, st, s)
    case Space => st.(pendingSpace := true)
    case Line(m) => PrintLine(o, st, m)
    case ExpandParent => st
    case LineSuffixBoundary => if st.suffixes != [] then EmitNewline(o, st, false) else st
  }

  // ----- measuring the flat stream -----

  function RemainingWidth(o: Options, st: State): int {
    o.lineWidth - st.column
    - (if st.pendingIndent then PendingIndentWidth(o, st.indents) else 0)
    - (if st.pendingSpace then 1 else 0)
  }

  function Decided(gm: map<GroupId, PrintMode>, id: GroupId): Option<PrintMode> {
    if id in gm then Some(gm[id]) else None
  }

  /** The measuring side's reading of a group that has no decision yet. */
  function Effective(gm: map<GroupId, PrintMode>, id: GroupId): PrintMode {
    if id in gm then gm[id] else Flat
  }

  /** Flat width of an atom; `None` when it cannot print flat at all. */
  function AtomCost(o: Options, a: Atom): Option<nat> {
    match a
    case Token(s) => Some(Width(o, s))
    case Text(s) => if '\n' in s then None else Some(Width(o, s))
    case Space => Some(1)
    case Line(Soft) => Some(0)
    case Line(SoftOrSpace) => Some(1)
    case Line(_) => None
    case ExpandParent => None
    case LineSuffixBoundary => Some(0)
  }

  function Charge(budget: int, cost: Option<nat>): Option<int> {
    if cost.None? || budget - cost.value < 0 then None else Some(budget - cost.value)
  }

  datatype Region = GroupRegion | EntryRegion | WholeRegion

  /** `region_end_*`: the new depth, and whether this element may end the region. */
  function Track(r: Region, e: Element, depth: int): (int, bool) {
    match (r, e)
    case (GroupRegion, Mark(StartGroup(_))) => (depth + 1, false)
    case (GroupRegion, Mark(EndGroup)) => (depth - 1, true)
    case (EntryRegion, Mark(StartEntry)) => (depth + 1, false)
    case (EntryRegion, Mark(EndEntry)) => (depth - 1, true)
    case _ => (depth, false)
  }

  predicate Opens(t: Tag, e: Element) {
    match (t, e)
    case (EndConditional, Mark(StartConditional(_, _))) => true
    case (EndLineSuffix, Mark(StartLineSuffix)) => true
    case _ => false
  }

  /** `skip_region`: how many elements there are up to and including the `close` that matches an
      already open bracket; all of them when there is none. */
  function SkipRegion(rest: seq<Element>, close: Tag, depth: nat): (n: nat)
    ensures n <= |rest|
  {
    if rest == [] then 0
    else if Opens(close, rest[0]) then 1 + SkipRegion(rest[1..], close, depth + 1)
    else if rest[0] == Mark(close) then
      if depth <= 1 then 1 else 1 + SkipRegion(rest[1..], close, depth - 1)
    else 1 + SkipRegion(rest[1..], close, depth)
  }

  /** `fits_slice_flat`: the budget left, or `None` when the slice does not fit. */
  function SliceFits(o: Options, es: seq<Element>, budget: int): Option<int>
    decreases es
  {
    if es == [] then Some(budget)
    else
      var left :=
        match es[0]
        case Plain(a) => Charge(budget, AtomCost(o, a))
        case BestFitting(vs) =>
          if vs == [] then Charge(budget, Some(0))
          else (match SliceFits(o, vs[0].elements, budget) case None => None case Some(b) => Charge(b, Some(0)))
        case Mark(_) => Charge(budget, Some(0));
      if left.None? then None else SliceFits(o, es[1..], left.value)
  }

  /** `fits_region_with_extra` from some point of the stream on. */
  function FitsFrom(o: Options, gm: map<GroupId, PrintMode>, rest: seq<Element>, r: Region,
                    depth: int, suffixDepth: nat, budget: int): bool
    decreases |rest|
  {
    if rest == [] then true
    else
      var (depth', mayEnd) := Track(r, rest[0], depth);
      var opening := if rest[0] == Mark(StartLineSuffix) then 1 else 0;
      var closing := if rest[0] == Mark(EndLineSuffix) then 1 else 0;
      if mayEnd && depth' == 0 then true
      else if suffixDepth == 0 then
        match rest[0]
        case Plain(a) =>
          var left := Charge(budget, AtomCost(o, a));
          left.Some? && FitsFrom(o, gm, rest[1..], r, depth', 0, left.value)
        case BestFitting(vs) =>
          var left := if vs == [] then Some(budget) else SliceFits(o, vs[0].elements, budget);
          left.Some? && left.value >= 0 && FitsFrom(o, gm, rest[1..], r, depth', 0, left.value)
        case Mark(StartConditional(m, id)) =>
          if Effective(gm, id) != m then
            FitsFrom(o, gm, rest[1..][SkipRegion(rest[1..], EndConditional, 1)..], r, depth', 0, budget)
          else
            budget >= 0 && FitsFrom(o, gm, rest[1..], r, depth', 0, budget)
        case Mark(_) =>
          budget >= 0 && FitsFrom(o, gm, rest[1..], r, depth', opening, budget)
      else
        budget >= 0 && FitsFrom(o, gm, rest[1..], r, depth', suffixDepth + opening - closing, budget)
  }

  function FitsRegion(o: Options, st: State, rest: seq<Element>, r: Region, extra: int): bool {
    FitsFrom(o, st.groupModes, rest, r, 1, 0, RemainingWidth(o, st) - extra)
  }

  // ----- printing the flat stream -----

  function PushMode(st: State, m: PrintMode): State { st.(modes := st.modes + [m]) }

  function PopMode(st: State): State {
    if st.modes == [] then st else st.(modes := st.modes[..|st.modes| - 1])
  }

  function PushIndent(st: State, i: Indent): State { st.(indents := st.indents + [i]) }

  function PopIndent(st: State): State {
    if st.indents == [] then st else st.(indents := st.indents[..|st.indents| - 1])
  }

  function GroupMode(o: Options, st: State, id: GroupId, rest: seq<Element>): PrintMode {
    match Decided(st.groupModes, id)
    case Some(m) => m
    case None =>
      if CurrentMode(st) == Flat then Flat
      else if FitsRegion(o, st, rest, GroupRegion, 0) then Flat
      else Expanded
  }

  function IndentFor(st: State, how: Indentation): Indent {
    match how
    case ByLevel => Level
    case ByAlign(n) => Align(n)
    case IfBreaks(id) => if Decided(st.groupModes, id) == Some(Expanded) then Level else Inactive
  }

  function EnterGroup(st: State, id: GroupId, m: PrintMode): State {
    PushMode(st.(groupModes := st.groupModes[id := m]), m)
  }

  function QueueSuffix(st: State, es: seq<Element>): State {
    st.(suffixes := st.suffixes + es)
  }

  /** `print_element`: one element, or the region it opens where the code consumes that too.
      Returns how many elements it consumed. */
  function Step(o: Options, rest: seq<Element>, st: State): (r: (nat, State))
    requires rest != []
    ensures 1 <= r.0 <= |rest|
    decreases rest, 1
  {
    match rest[0]
    case Plain(a) => (1, PrintAtom(o, st, a))
    case BestFitting(vs) => (1, BestFlat(o, vs, st))
    case Mark(StartGroup(id)) => (1, EnterGroup(st, id, GroupMode(o, st, id, rest[1..])))
    case Mark(EndGroup) => (1, PopMode(st))
    case Mark(StartIndent) => (1, PushIndent(st, IndentFor(st, ByLevel)))
    case Mark(StartAlign(n)) => (1, PushIndent(st, IndentFor(st, ByAlign(n))))
    case Mark(StartIndentIfGroupBreaks(id)) => (1, PushIndent(st, IndentFor(st, IfBreaks(id))))
    case Mark(EndIndent) => (1, PopIndent(st))
    case Mark(EndAlign) => (1, PopIndent(st))
    case Mark(EndIndentIfGroupBreaks) => (1, PopIndent(st))
    case Mark(StartConditional(m, id)) =>
      (if Decided(st.groupModes, id) == Some(m) then 1 else 1 + SkipRegion(rest[1..], EndConditional, 1), st)
    case Mark(StartFill) =>
      var (n, st') := FillFlat(o, rest[1..], st);
      (1 + n, st')
    case Mark(StartLineSuffix) =>
      var n := SkipRegion(rest[1..], EndLineSuffix, 1);
      (1 + n, if n == 0 then st else QueueSuffix(st, rest[1..n]))
    case Mark(_) => (1, st)
  }

  /** `print_best_fitting`: the first variant that fits, else the last. */
  function BestFlat(o: Options, vs: seq<Variant>, st: State): State
    decreases vs, 0
  {
    if vs == [] then st
    else if |vs| == 1 then PopMode(Loop(o, vs[0].elements, PushMode(st, Expanded), false).1)
    else if FitsRegion(o, st, vs[0].elements, WholeRegion, 0) then
      PopMode(Loop(o, vs[0].elements, PushMode(st, Flat), false).1)
    else BestFlat(o, vs[1..], st)
  }

  /** `print_elements`, and with `inEntry` the inner loop of `print_fill`, which stops at the
      entry's end tag. */
  function Loop(o: Options, rest: seq<Element>, st: State, inEntry: bool): (r: (nat, State))
    ensures r.0 <= |rest|
    decreases rest, 2
  {
    if rest == [] || (inEntry && rest[0] == Mark(EndEntry)) then (0, st)
    else
      var (n, st') := Step(o, rest, st);
      var (m, st'') := Loop(o, rest[n..], st', inEntry);
      (n + m, st'')
  }

  /** `print_fill` from just after its start tag. Where the code would run past the end of an
      unclosed fill, this stops. */
  function FillFlat(o: Options, rest: seq<Element>, st: State): (r: (nat, State))
    ensures r.0 <= |rest|
    decreases rest, 3
  {
    if rest == [] then (0, st)
    else match rest[0]
      case Mark(EndFill) => (1, st)
      case Plain(Line(sep)) =>
        var (n, st') := FillFlat(o, rest[1..], FillSeparator(o, sep, rest[1..], st));
        (1 + n, st')
      case Mark(StartEntry) =>
        var (k, st') := EntryFlat(o, rest[1..], st);
        if 1 + k == |rest| then (1 + k, st')
        else
          var (n, st'') := FillFlat(o, rest[k + 2..], PopMode(st'));
          (k + 2 + n, st'')
      case _ =>
        var (k, st') := Step(o, rest, st);
        var (n, st'') := FillFlat(o, rest[k..], st');
        (k + n, st'')
  }

  /** The content of an entry, in the mode its own measurement gives, up to its end tag. */
  function EntryFlat(o: Options, body: seq<Element>, st: State): (r: (nat, State))
    ensures r.0 <= |body|
    decreases body, 3
  {
    Loop(o, body, PushMode(st, if FitsRegion(o, st, body, EntryRegion, 0) then Flat else Expanded), true)
  }

  /** The separator before the entry whose start tag is `rest[0]`. */
  function FillSeparator(o: Options, sep: LineMode, rest: seq<Element>, st: State): State {
    match sep
    case Hard => EmitNewline(o, st, false)
    case Empty => EmitNewline(o, st, true)
    case _ =>
      var extra := if sep == SoftOrSpace then 1 else 0;
      if rest == [] || FitsRegion(o, st, rest[1..], EntryRegion, extra) then
        if sep == SoftOrSpace then st.(pendingSpace := true) else st
      else EmitNewline(o, st, false)
  }
}
