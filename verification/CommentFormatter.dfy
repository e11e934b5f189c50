/** The formatter as the comment emitters see it (`comments.rs`, `ir.rs`, `format_block.rs`): an element
    stream and a comment cursor, changed step by step. */
module CommentFormatting {
  import opened Document
  import opened Comments
  import opened Reanchoring
  import Lexing

  lemma MarkedOneMore(entries: seq<Entry>, l: Ledger, n: nat, slice: Slice)
    requires l.printed + n < |entries|
    ensures Marked(entries, l, n + 1, slice)
            == Ledger(Marked(entries, l, n, slice).printed + 1, Marked(entries, l, n, slice).elements,
                      Marked(entries, l, n, slice).places + [PlaceIn(slice, entries[l.printed + n])])
  {
    hide Home, InOneLine;
    var more, less := Marked(entries, l, n + 1, slice), Marked(entries, l, n, slice);
    assert more.places == less.places + [PlaceIn(slice, entries[l.printed + n])];
  }

  lemma MarkedNone(entries: seq<Entry>, l: Ledger, slice: Slice)
    requires l.printed <= |entries|
    ensures Marked(entries, l, 0, slice) == l
  {
    hide Home, InOneLine;
    assert Marked(entries, l, 0, slice).places == l.places;
  }

  class Formatter {
    const entries: seq<Entry>
    const file: Lexing.Input
    var printed: nat
    var elements: seq<Element>
    ghost var places: seq<Place>

    ghost predicate Valid()
      reads this
    {
      WellOrdered(entries, file.source) && printed <= |entries|
    }

    ghost function State(): Ledger
      reads this
    {
      Ledger(printed, elements, places)
    }

    constructor (entries: seq<Entry>, file: Lexing.Input)
      requires WellOrdered(entries, file.source)
      ensures Valid() && State() == EMPTY && this.entries == entries && this.file == file
    {
      this.entries := entries;
      this.file := file;
      printed := 0;
      elements := [];
      places := [];
    }

    method PushElement(element: Element)
      requires Valid()
      modifies this
      ensures Valid() && State() == Pushed(old(State()), [element])
    {
      elements := elements + [element];
    }

    /** The comment at the cursor, in `shape`; the cursor moves with it. */
    method Write(shape: Shape)
      requires Valid() && printed < |entries|
      modifies this
      ensures Valid() && State() == Written(entries, old(State()), shape)
    {
      places := places + [InElement(|elements| + TextAt(shape))];
      elements := elements + Shaped(shape, entries[printed].text);
      printed := printed + 1;
    }

    method WriteMany(n: nat, shape: Shape)
      requires Valid() && printed + n <= |entries|
      modifies this
      ensures Valid() && State() == WrittenRun(entries, old(State()), n, shape)
    {
      hide Shaped, WellOrdered;
      var left := n;
      while left > 0
        invariant Valid() && printed + left <= |entries|
        invariant WrittenRun(entries, State(), left, shape) == WrittenRun(entries, old(State()), n, shape)
        decreases left
      {
        Write(shape);
        left := left - 1;
      }
    }

    method WriteLines(n: nat, before: bool)
      requires Valid() && printed + n <= |entries|
      modifies this
      ensures Valid() && State() == WrittenLines(entries, old(State()), n, before)
    {
      if n > 0 && !before {
        Write(Bare);
        WriteMany(n - 1, OnLineAfter);
      } else {
        WriteMany(n, OnLineAfter);
      }
    }

    method EmitShebangLine()
      requires Valid()
      modifies this
      ensures Valid() && State() == Exec(entries, file, old(State()), EmitShebang)
    {
      if printed < |entries| && entries[printed].kind.Shebang? {
        Write(OnLineBefore);
      }
    }

    method EmitLeadingComments(anchor: nat)
      requires Valid()
      modifies this
      ensures Valid() && State() == Exec(entries, file, old(State()), EmitLeading(anchor))
    {
      hide Consistent, WellOrdered, Shaped, ExecAll, PutAsItStands, PutReanchored;
      while printed < |entries| && entries[printed].attachedTo == anchor && entries[printed].position.Leading?
        invariant Valid() && printed <= |entries|
        invariant WrittenRun(entries, State(), LeadingRun(entries, printed, anchor), OnLineBefore)
                  == old(WrittenRun(entries, State(), LeadingRun(entries, printed, anchor), OnLineBefore))
        decreases |entries| - printed
      {
        Write(OnLineBefore);
      }
    }

    method EmitOwnLineCommentsIn(start: nat, limit: nat)
      requires Valid()
      modifies this
      ensures Valid() && State() == Exec(entries, file, old(State()), EmitOwnLine(start, limit))
    {
      hide Consistent, WellOrdered, Shaped, ExecAll, PutAsItStands, PutReanchored;
      while printed < |entries| && start <= entries[printed].start < limit
        invariant Valid() && printed <= |entries|
        invariant WrittenRun(entries, State(), InsideRun(entries, printed, start, limit), OnLineAfter)
                  == old(WrittenRun(entries, State(), InsideRun(entries, printed, start, limit), OnLineAfter))
        decreases |entries| - printed
      {
        Write(OnLineAfter);
      }
    }

    method EmitInlineCommentsAfter(position: nat)
      requires Valid() && position <= |file.source|
      modifies this
      ensures Valid() && State() == Exec(entries, file, old(State()), EmitInline(position))
    {
      hide Consistent, Shaped, IsComment, ExecAll, PutAsItStands, PutReanchored;
      var gapStart: nat := position;
      while printed < |entries| && gapStart <= entries[printed].start && entries[printed].kind.SingleLineBlock?
            && CodeFree(file.source[gapStart..entries[printed].start])
        invariant Valid() && printed <= |entries| && gapStart <= |file.source|
        invariant WrittenRun(entries, State(), InlineRun(entries, file.source, printed, gapStart), Inline)
                  == old(WrittenRun(entries, State(), InlineRun(entries, file.source, printed, position), Inline))
        decreases |entries| - printed
      {
        gapStart := entries[printed].end;
        Write(Inline);
      }
    }

    method EmitSameLineCommentsAfter(position: nat, limit: nat)
      requires Valid() && position <= |file.source|
      modifies this
      ensures Valid() && State() == Exec(entries, file, old(State()), EmitSameLine(position, limit))
    {
      hide Consistent, Shaped, IsComment, ExecAll, PutAsItStands, PutReanchored;
      var gapStart: nat := position;
      while printed < |entries| && gapStart <= entries[printed].start < limit
            && !HasBreak(file.source[gapStart..entries[printed].start])
        invariant Valid() && printed <= |entries| && gapStart <= |file.source|
        invariant WrittenRun(entries, State(), SameLineRun(entries, file.source, printed, gapStart, limit), Suffix)
                  == old(WrittenRun(entries, State(), SameLineRun(entries, file.source, printed, position, limit),
                                    Suffix))
        decreases |entries| - printed
      {
        gapStart := entries[printed].end;
        Write(Suffix);
      }
    }

    /** The comments inside the statement, each on a line of its own. */
    method EmitInsideComments(anchor: nat, end: nat) returns (found: bool)
      requires Valid()
      modifies this
      ensures Valid() && State()
              == WrittenRun(entries, old(State()), InsideRun(entries, old(printed), anchor, end), OnLineAfter)
      ensures found == (InsideRun(entries, old(printed), anchor, end) > 0)
    {
      found := printed < |entries| && anchor <= entries[printed].start < end;
      EmitOwnLineCommentsIn(anchor, end);
    }

    /** The comments behind the statement on its line. */
    method EmitCommentsBehind(end: nat, shape: Shape)
      requires Valid() && end <= |file.source|
      modifies this
      ensures Valid() && State()
              == WrittenRun(entries, old(State()), TrailingRun(entries, file.source, old(printed), end), shape)
    {
      hide Consistent, Shaped, IsComment, ExecAll, PutAsItStands, PutReanchored;
      while printed < |entries| && entries[printed].position.Trailing? && end <= entries[printed].start
            && !HasBreak(file.source[end..entries[printed].start]) && CodeFree(file.source[end..entries[printed].start])
        invariant Valid() && printed <= |entries|
        invariant WrittenRun(entries, State(), TrailingRun(entries, file.source, printed, end), shape)
                  == old(WrittenRun(entries, State(), TrailingRun(entries, file.source, printed, end), shape))
        decreases |entries| - printed
      {
        Write(shape);
      }
    }

    method EmitTrailingComments(anchor: nat, end: nat)
      requires Valid() && anchor <= end <= |file.source|
      modifies this
      ensures Valid() && State() == Exec(entries, file, old(State()), EmitTrailing(anchor, end))
    {
      hide Consistent, WellOrdered, WrittenRun;
      var hasInner := EmitInsideComments(anchor, end);
      EmitCommentsBehind(end, if hasInner then OnLineAfter else Suffix);
    }

    /** Whether the next `n` comments and then `last` lie apart by no token. */
    method IsMovable(n: nat, last: nat) returns (movable: bool)
      requires Valid() && printed + n <= |entries| && last <= |file.source|
      ensures movable == Movable(entries, file.source, printed, n, last)
    {
      hide Consistent, IsComment, CodeFree;
      var i := 0;
      while i < n
        invariant i <= n
        invariant Movable(entries, file.source, printed, n, last)
                  == Movable(entries, file.source, printed + i, n - i, last)
      {
        var entry := entries[printed + i];
        var next := if i + 1 == n then last else entries[printed + i + 1].start;
        if next < entry.end || !CodeFree(file.source[entry.end..next]) {
          return false;
        }
        i := i + 1;
      }
      return true;
    }

    method EmitStalledComments(anchor: nat)
      requires Valid() && anchor <= |file.source|
      modifies this
      ensures Valid() && State() == Exec(entries, file, old(State()), EmitStalled(anchor))
    {
      hide Consistent, Shaped, IsComment, ExecAll, PutAsItStands, PutReanchored, Movable, WrittenRun;
      var n := 0;
      while printed + n < |entries| && entries[printed + n].start < anchor
            && !(entries[printed + n].attachedTo == anchor && entries[printed + n].position.Leading?)
        invariant printed + n <= |entries|
        invariant n + StalledCandidates(entries, printed + n, anchor) == StalledCandidates(entries, printed, anchor)
        decreases |entries| - printed - n
      {
        n := n + 1;
      }
      var last := if printed + n < |entries| && entries[printed + n].start < anchor then entries[printed + n].start
        else anchor;
      var movable := IsMovable(n, last);
      ZeroRun(entries, State(), OnLineBefore);
      if movable {
        WriteMany(n, OnLineBefore);
      }
    }

    method EmitDanglingComments(end: nat)
      requires Valid() && end <= |file.source|
      modifies this
      ensures Valid() && State() == Exec(entries, file, old(State()), EmitDangling(end))
    {
      hide Consistent, Shaped, IsComment, ExecAll, PutAsItStands, PutReanchored, Movable, WrittenLines;
      var n := 0;
      while printed + n < |entries| && entries[printed + n].start < end
        invariant printed + n <= |entries|
        invariant n + BeforeRun(entries, printed + n, end) == BeforeRun(entries, printed, end)
        decreases |entries| - printed - n
      {
        n := n + 1;
      }
      var movable := IsMovable(n, end);
      if movable {
        WriteLines(n, false);
      }
    }

    method EmitRemainingComments(hasStatementsBefore: bool)
      requires Valid()
      modifies this
      ensures Valid() && State() == Exec(entries, file, old(State()), EmitRemaining(hasStatementsBefore))
    {
      hide Consistent, WellOrdered, Shaped, ExecAll, PutAsItStands, PutReanchored, WrittenLines;
      WriteLines(|entries| - printed, hasStatementsBefore);
    }

    /** The comments of the range are part of `slice`, which has been pushed. */
    method MarkPrintedRange(start: nat, end: nat, ghost slice: Slice)
      requires Valid()
      modifies this`printed, this`places
      ensures Valid() && State() == MarkedInside(entries, old(State()), start, end, slice)
    {
      hide Marked, Home, InOneLine, WellOrdered;
      ghost var before := State();
      ghost var n := InsideRun(entries, printed, start, end);
      MarkedNone(entries, before, slice);
      while printed < |entries| && start <= entries[printed].start < end
        invariant Valid() && printed <= |entries|
        invariant before.printed <= printed && (printed - before.printed) + InsideRun(entries, printed, start, end) == n
        invariant State() == Marked(entries, before, printed - before.printed, slice)
        decreases |entries| - printed
      {
        MarkedOneMore(entries, before, printed - before.printed, slice);
        places := places + [PlaceIn(slice, entries[printed])];
        printed := printed + 1;
      }
    }

    method HasUnhandledIn(start: nat, end: nat) returns (found: bool)
      requires Valid()
      ensures found == Unhandled(entries, State(), start, end)
    {
      var i := printed;
      while i < |entries| && entries[i].start < start
        invariant printed <= i <= |entries|
        invariant forall k :: printed <= k < i ==> entries[k].start < start
      {
        i := i + 1;
      }
      found := i < |entries| && entries[i].start < end;
      if i < |entries| && !found {
        assert forall k :: i <= k < |entries| ==> entries[i].start <= entries[k].start;
      }
    }

    /** Truncate the stream and rewind the cursor to a checkpoint of this formatter. */
    method Restore(printed_: nat, length: nat, ghost checkpoint: Ledger)
      requires Valid() && Extends(checkpoint, State())
      requires checkpoint.printed == printed_ && |checkpoint.elements| == length
      modifies this
      ensures Valid() && State() == checkpoint && State() == Restored(old(State()), checkpoint)
    {
      RestoreRewinds(checkpoint, State());
      elements := elements[..length];
      printed := printed_;
      places := places[..|checkpoint.places|];
    }

    method PushLines(lines: seq<string>)
      requires Valid()
      modifies this
      ensures Valid() && State() == Pushed(old(State()), Lines(lines))
    {
      for i := 0 to |lines|
        invariant Valid() && State() == Pushed(old(State()), Lines(lines[..i]))
      {
        ghost var before := State();
        if i > 0 {
          PushElement(Plain(Line(Hard)));
        }
        if lines[i] != "" {
          PushElement(Plain(Text(lines[i])));
        }
        assert lines[..i + 1][..i] == lines[..i];
        assert State().elements == old(elements) + Lines(lines[..i + 1]);
      }
      assert lines[..|lines|] == lines;
    }

    /** One operation; a statement's own formatting is its `body`. The ledger it was called with stays
        consistent. */
    method Perform(op: Op)
      requires Valid() && InSource(op, |file.source|)
      modifies this
      ensures Valid() && State() == Exec(entries, file, old(State()), op)
      ensures old(Consistent(entries, State())) ==> Consistent(entries, State())
      decreases op, 1
    {
      hide Consistent, WrittenRun, WrittenLines, AllWhole;
      match op {
        case Push(element) => PushElement(element);
        case EmitShebang => EmitShebangLine();
        case EmitLeading(anchor) => EmitLeadingComments(anchor);
        case EmitStalled(anchor) => EmitStalledComments(anchor);
        case EmitTrailing(anchor, end) => EmitTrailingComments(anchor, end);
        case EmitOwnLine(start, limit) => EmitOwnLineCommentsIn(start, limit);
        case EmitInline(position) => EmitInlineCommentsAfter(position);
        case EmitSameLine(position, limit) => EmitSameLineCommentsAfter(position, limit);
        case EmitDangling(end) => EmitDanglingComments(end);
        case EmitRemaining(before) => EmitRemainingComments(before);
        case Attempt(body) => TryOut(body);
        case VerbatimOr(start, end, optedOut, body) => EmitVerbatimOr(start, end, optedOut, body);
      }
      if old(Consistent(entries, State())) {
        RunsKeepLedger(entries, file, old(State()), op);
      }
    }

    method PerformAll(ops: Ops)
      requires Valid() && AllInSource(ops, |file.source|)
      modifies this
      ensures Valid() && State() == ExecAll(entries, file, old(State()), ops)
      ensures Extends(old(State()), State())
      decreases ops, 0
    {
      hide Exec, Consistent, AllWhole;
      if ops.MoreOps? {
        Perform(ops.head);
        PerformAll(ops.tail);
      }
    }

    /** A speculative region, taken back. */
    method TryOut(body: Ops)
      requires Valid() && AllInSource(body, |file.source|)
      modifies this
      ensures Valid() && State() == Exec(entries, file, old(State()), Attempt(body))
      decreases body, 1
    {
      hide Consistent, ExecAll;
      var printed_, length := printed, |elements|;
      PerformAll(body);
      Restore(printed_, length, old(State()));
    }

    /** A statement: as it stands where it has opted out; else formatted, unless a comment of it would be
        left over, and then re-anchored. */
    method EmitVerbatimOr(start: nat, end: nat, optedOut: bool, body: Ops)
      requires Valid() && start <= end <= |file.source| && AllInSource(body, |file.source|)
      modifies this
      ensures Valid() && State() == Exec(entries, file, old(State()), VerbatimOr(start, end, optedOut, body))
      decreases body, 1
    {
      hide Consistent, ExecAll, Marked, Lines, Breaks, BaseIndent, LinesOf, WellOrdered;
      if optedOut {
        PushElement(Plain(Text(file.source[start..end])));
        MarkPrintedRange(start, end, AsItStands(file, start, end, |old(elements)|));
      } else {
        var printed_, length := printed, |elements|;
        PerformAll(body);
        var unhandled := HasUnhandledIn(start, end);
        if unhandled {
          var lines := ReindentedLines(file, start, end);
          Restore(printed_, length, old(State()));
          PushLines(lines);
          MarkPrintedRange(start, end, Reanchored(file, start, end, |old(elements)|));
        }
      }
    }
  }
}
