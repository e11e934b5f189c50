/** Which comments an emission takes: the ones from the cursor on that belong where it emits, as far as they
    go; and a run that has to move takes all its comments or none. */
module CommentRuns {
  import opened Document
  import opened Comments
  import opened CommentLines
  import Lexing

  /** The comment at `k` belongs where `op` emits, those from `p` on in front of it being taken too. */
  predicate Belongs(op: Op, entries: seq<Entry>, source: string, p: nat, k: nat)
    requires WellOrdered(entries, source) && p <= k < |entries| && InSource(op, |source|)
  {
    var e := entries[k];
    match op
    case EmitShebang => k == p && e.kind == Shebang
    case EmitLeading(anchor) => e.attachedTo == anchor && e.position == Leading
    case EmitTrailing(anchor, end) =>
      || anchor <= e.start < end
      || (e.position == Trailing && end <= e.start && OnOneLine(source, end, e.start) && Loose(source, end, e.start))
    case EmitOwnLine(start, limit) => start <= e.start < limit
    case EmitInline(position) =>
      var from := if k == p then position else entries[k - 1].end;
      from <= e.start && e.kind == SingleLineBlock && Loose(source, from, e.start)
    case EmitSameLine(position, limit) =>
      var from := if k == p then position else entries[k - 1].end;
      from <= e.start < limit && OnOneLine(source, from, e.start)
    case EmitRemaining(_) => true
    case _ => false
  }

  predicate OnOneLine(source: string, from: nat, to: nat)
    requires from <= to <= |source|
  {
    forall i :: from <= i < to ==> source[i] != '\n' && source[i] != '\r'
  }

  /** Nothing but white space and `;`. */
  predicate Loose(source: string, from: nat, to: nat)
    requires from <= to <= |source|
  {
    forall i :: from <= i < to ==> source[i] in " \t\n\r;" || source[i] == '\U{000C}'
  }

  lemma LooseIs(source: string, from: nat, to: nat)
    requires from <= to <= |source|
    ensures Loose(source, from, to) <==> CodeFree(source[from..to])
    ensures OnOneLine(source, from, to) <==> !HasBreak(source[from..to])
  {
    var s := source[from..to];
    assert forall i :: from <= i < to ==> source[i] == s[i - from];
    assert forall i :: 0 <= i < |s| ==> s[i] == source[from + i];
  }

  /** The run is the longest whose comments all belong. */
  predicate TakesThese(op: Op, entries: seq<Entry>, source: string, p: nat, n: nat)
    requires WellOrdered(entries, source) && p + n <= |entries| && InSource(op, |source|)
  {
    && (forall k :: p <= k < p + n ==> Belongs(op, entries, source, p, k))
    && (p + n < |entries| ==> !Belongs(op, entries, source, p, p + n))
  }

  lemma {:induction false} LeadingTakes(entries: seq<Entry>, source: string, p: nat, anchor: nat)
    requires p <= |entries| && WellOrdered(entries, source)
    ensures TakesThese(EmitLeading(anchor), entries, source, p, LeadingRun(entries, p, anchor))
    decreases |entries| - p
  {
    hide WellOrdered;
    var n := LeadingRun(entries, p, anchor);
    if n > 0 {
      LeadingTakes(entries, source, p + 1, anchor);
      forall k | p <= k < p + n ensures Belongs(EmitLeading(anchor), entries, source, p, k) {
        if k > p {
          assert Belongs(EmitLeading(anchor), entries, source, p + 1, k);
        }
      }
    }
  }

  lemma {:induction false} InsideTakes(entries: seq<Entry>, source: string, p: nat, start: nat, limit: nat)
    requires p <= |entries| && WellOrdered(entries, source)
    ensures TakesThese(EmitOwnLine(start, limit), entries, source, p, InsideRun(entries, p, start, limit))
    decreases |entries| - p
  {
    hide WellOrdered;
    var n := InsideRun(entries, p, start, limit);
    if n > 0 {
      InsideTakes(entries, source, p + 1, start, limit);
      forall k | p <= k < p + n ensures Belongs(EmitOwnLine(start, limit), entries, source, p, k) {
        if k > p {
          assert Belongs(EmitOwnLine(start, limit), entries, source, p + 1, k);
        }
      }
    }
  }

  lemma FirstInline(entries: seq<Entry>, source: string, p: nat, position: nat)
    requires p <= |entries| && WellOrdered(entries, source) && position <= |source|
    ensures p < |entries| ==>
              (Belongs(EmitInline(position), entries, source, p, p) <==> InlineRun(entries, source, p, position) > 0)
  {
    hide WellOrdered, Loose, CodeFree;
    if p < |entries| && position <= entries[p].start {
      EntryInside(entries, source, p);
      LooseIs(source, position, entries[p].start);
    }
  }

  lemma LaterInline(entries: seq<Entry>, source: string, p: nat, position: nat, next: nat, k: nat)
    requires WellOrdered(entries, source) && p < k < |entries| && next == entries[p].end
    requires position <= |source| && next <= |source|
    ensures Belongs(EmitInline(position), entries, source, p, k) == Belongs(EmitInline(next), entries, source, p + 1, k)
  {
    hide WellOrdered, Loose;
  }

  lemma {:induction false} InlineTakes(entries: seq<Entry>, source: string, p: nat, position: nat)
    requires p <= |entries| && WellOrdered(entries, source) && position <= |source|
    ensures TakesThese(EmitInline(position), entries, source, p, InlineRun(entries, source, p, position))
    decreases |entries| - p
  {
    hide WellOrdered, Loose, CodeFree, Belongs;
    var n, op := InlineRun(entries, source, p, position), EmitInline(position);
    FirstInline(entries, source, p, position);
    if n > 0 {
      EntryInside(entries, source, p);
      var next := entries[p].end;
      InlineTakes(entries, source, p + 1, next);
      forall k | p < k < |entries|
        ensures Belongs(op, entries, source, p, k) == Belongs(EmitInline(next), entries, source, p + 1, k)
      {
        LaterInline(entries, source, p, position, next, k);
      }
    }
  }

  lemma FirstSameLine(entries: seq<Entry>, source: string, p: nat, position: nat, limit: nat)
    requires p <= |entries| && WellOrdered(entries, source) && position <= |source|
    ensures p < |entries| ==>
              (Belongs(EmitSameLine(position, limit), entries, source, p, p)
               <==> SameLineRun(entries, source, p, position, limit) > 0)
  {
    hide WellOrdered, OnOneLine, HasBreak;
    if p < |entries| && position <= entries[p].start {
      EntryInside(entries, source, p);
      LooseIs(source, position, entries[p].start);
    }
  }

  lemma LaterSameLine(entries: seq<Entry>, source: string, p: nat, position: nat, next: nat, limit: nat, k: nat)
    requires WellOrdered(entries, source) && p < k < |entries| && next == entries[p].end
    requires position <= |source| && next <= |source|
    ensures Belongs(EmitSameLine(position, limit), entries, source, p, k)
            == Belongs(EmitSameLine(next, limit), entries, source, p + 1, k)
  {
    hide WellOrdered, OnOneLine;
  }

  lemma {:induction false} SameLineTakes(entries: seq<Entry>, source: string, p: nat, position: nat, limit: nat)
    requires p <= |entries| && WellOrdered(entries, source) && position <= |source|
    ensures TakesThese(EmitSameLine(position, limit), entries, source, p,
                       SameLineRun(entries, source, p, position, limit))
    decreases |entries| - p
  {
    hide WellOrdered, OnOneLine, HasBreak, Belongs;
    var n, op := SameLineRun(entries, source, p, position, limit), EmitSameLine(position, limit);
    FirstSameLine(entries, source, p, position, limit);
    if n > 0 {
      EntryInside(entries, source, p);
      var next := entries[p].end;
      SameLineTakes(entries, source, p + 1, next, limit);
      forall k | p < k < |entries|
        ensures Belongs(op, entries, source, p, k) == Belongs(EmitSameLine(next, limit), entries, source, p + 1, k)
      {
        LaterSameLine(entries, source, p, position, next, limit, k);
      }
    }
  }

  /** Behind the statement. */
  predicate Trails(entries: seq<Entry>, source: string, end: nat, k: nat)
    requires WellOrdered(entries, source) && k < |entries| && end <= |source|
  {
    var e := entries[k];
    e.position == Trailing && end <= e.start && OnOneLine(source, end, e.start) && Loose(source, end, e.start)
  }

  lemma {:induction false} TrailingTakes(entries: seq<Entry>, source: string, p: nat, end: nat)
    requires p <= |entries| && WellOrdered(entries, source) && end <= |source|
    ensures var n := TrailingRun(entries, source, p, end);
            && (forall k :: p <= k < p + n ==> Trails(entries, source, end, k))
            && (p + n < |entries| ==> !Trails(entries, source, end, p + n))
    decreases |entries| - p
  {
    hide WellOrdered, Loose, CodeFree, OnOneLine, HasBreak;
    if p < |entries| {
      EntryInside(entries, source, p);
      if end <= entries[p].start {
        LooseIs(source, end, entries[p].start);
      }
    }
    if TrailingRun(entries, source, p, end) > 0 {
      TrailingTakes(entries, source, p + 1, end);
    }
  }

  lemma TrailTakes(entries: seq<Entry>, source: string, l: Ledger, anchor: nat, end: nat)
    requires l.printed <= |entries| && WellOrdered(entries, source) && anchor <= end <= |source|
    ensures var r := Trail(entries, source, l, anchor, end);
            && l.printed <= r.printed <= |entries|
            && TakesThese(EmitTrailing(anchor, end), entries, source, l.printed, r.printed - l.printed)
  {
    hide WellOrdered, Loose, OnOneLine, WrittenRun, InsideRun, TrailingRun;
    var p := l.printed;
    var inner := InsideRun(entries, p, anchor, end);
    InsideTakes(entries, source, p, anchor, end);
    TrailingTakes(entries, source, p + inner, end);
    TrailingIsOne(entries, source, p + inner, end);
    var n := TrailingRun(entries, source, p + inner, end);
    var op := EmitTrailing(anchor, end);
    forall k | p <= k < |entries|
      ensures Belongs(op, entries, source, p, k)
              <==> Belongs(EmitOwnLine(anchor, end), entries, source, p, k) || Trails(entries, source, end, k)
    {
    }
    if p + inner + 1 < |entries| && n == 1 {
      EntryInside(entries, source, p + inner);
      assert Trails(entries, source, end, p + inner);
    }
  }

  /** Which comments an emission takes that leaves each comment between the tokens it was written between. */
  lemma EmissionTakes(entries: seq<Entry>, file: Lexing.Input, l: Ledger, op: Op)
    requires WellOrdered(entries, file.source) && l.printed <= |entries| && InSource(op, |file.source|)
    requires Emission(op) && !op.EmitStalled? && !op.EmitDangling?
    ensures var r := Exec(entries, file, l, op);
            && l.printed <= r.printed <= |entries|
            && TakesThese(op, entries, file.source, l.printed, r.printed - l.printed)
  {
    hide WellOrdered, WrittenRun, WrittenLines, LeadingRun, InlineRun, SameLineRun, InsideRun, TrailingRun, Loose,
         OnOneLine, Trail;
    var p, source := l.printed, file.source;
    match op
    case EmitShebang =>
    case EmitLeading(anchor) => LeadingTakes(entries, source, p, anchor);
    case EmitTrailing(anchor, end) => TrailTakes(entries, source, l, anchor, end);
    case EmitOwnLine(start, limit) => InsideTakes(entries, source, p, start, limit);
    case EmitInline(position) => InlineTakes(entries, source, p, position);
    case EmitSameLine(position, limit) => SameLineTakes(entries, source, p, position, limit);
    case EmitRemaining(_) =>
  }

  // ----- runs that move -----

  /** The comment at `k` is one of those that have to move. */
  predicate Waits(op: Op, entries: seq<Entry>, k: nat)
    requires k < |entries|
  {
    var e := entries[k];
    match op
    case EmitStalled(anchor) => e.start < anchor && !(e.attachedTo == anchor && e.position == Leading)
    case EmitDangling(end) => e.start < end
    case _ => false
  }

  /** Where a run of `n` moves to: what it comes to stand in front of. */
  function Target(op: Op, entries: seq<Entry>, p: nat, n: nat): nat
    requires p + n <= |entries|
  {
    match op
    case EmitStalled(anchor) =>
      if p + n < |entries| && entries[p + n].start < anchor then entries[p + n].start else anchor
    case EmitDangling(end) => end
    case _ => 0
  }

  /** Between each comment and the next, and between the last one and the target, there is no token. */
  predicate FreeToMove(entries: seq<Entry>, source: string, p: nat, n: nat, target: nat)
    requires WellOrdered(entries, source) && p + n <= |entries| && target <= |source|
  {
    forall k :: p <= k < p + n ==>
      var next := if k == p + n - 1 then target else entries[k + 1].start;
      entries[k].end <= next && Loose(source, entries[k].end, next)
  }

  lemma FreeStep(entries: seq<Entry>, source: string, p: nat, n: nat, target: nat)
    requires p + n <= |entries| && WellOrdered(entries, source) && target <= |source|
    ensures FreeToMove(entries, source, p, n, target)
            <==> n == 0 || (var next := if n == 1 then target else entries[p + 1].start;
                            && entries[p].end <= next && next <= |source| && Loose(source, entries[p].end, next)
                            && FreeToMove(entries, source, p + 1, n - 1, target))
  {
    hide Loose;
    if n > 0 && FreeToMove(entries, source, p, n, target) {
      forall k | p + 1 <= k < p + n
        ensures var next := if k == p + n - 1 then target else entries[k + 1].start;
                entries[k].end <= next && Loose(source, entries[k].end, next)
      {
      }
    }
  }

  lemma {:induction false} MovableIs(entries: seq<Entry>, source: string, p: nat, n: nat, target: nat)
    requires p + n <= |entries| && WellOrdered(entries, source) && target <= |source|
    ensures Movable(entries, source, p, n, target) <==> FreeToMove(entries, source, p, n, target)
    decreases n
  {
    hide WellOrdered, Loose, CodeFree, FreeToMove;
    FreeStep(entries, source, p, n, target);
    if n > 0 {
      EntryInside(entries, source, p);
      if p + 1 < |entries| {
        EntryInside(entries, source, p + 1);
      }
      var next := if n == 1 then target else entries[p + 1].start;
      if entries[p].end <= next {
        LooseIs(source, entries[p].end, next);
      }
      MovableIs(entries, source, p + 1, n - 1, target);
    }
  }

  lemma {:induction false} CandidatesAre(entries: seq<Entry>, p: nat, anchor: nat)
    requires p <= |entries|
    ensures var n, op := StalledCandidates(entries, p, anchor), EmitStalled(anchor);
            && (forall k :: p <= k < p + n ==> Waits(op, entries, k))
            && (p + n < |entries| ==> !Waits(op, entries, p + n))
    decreases |entries| - p
  {
    if StalledCandidates(entries, p, anchor) > 0 {
      CandidatesAre(entries, p + 1, anchor);
    }
  }

  lemma {:induction false} BeforeAre(entries: seq<Entry>, p: nat, end: nat)
    requires p <= |entries|
    ensures var n, op := BeforeRun(entries, p, end), EmitDangling(end);
            && (forall k :: p <= k < p + n ==> Waits(op, entries, k))
            && (p + n < |entries| ==> !Waits(op, entries, p + n))
    decreases |entries| - p
  {
    if BeforeRun(entries, p, end) > 0 {
      BeforeAre(entries, p + 1, end);
    }
  }

  /** All the comments that wait move, if no token is in the way of any of them; otherwise none does. */
  lemma AllMoveOrNone(entries: seq<Entry>, file: Lexing.Input, l: Ledger, op: Op) returns (n: nat)
    requires WellOrdered(entries, file.source) && l.printed <= |entries| && InSource(op, |file.source|)
    requires op.EmitStalled? || op.EmitDangling?
    ensures l.printed + n <= |entries| && forall k :: l.printed <= k < l.printed + n ==> Waits(op, entries, k)
    ensures l.printed + n < |entries| ==> !Waits(op, entries, l.printed + n)
    ensures var target := Target(op, entries, l.printed, n);
            && target <= |file.source|
            && Exec(entries, file, l, op).printed
               == l.printed + if FreeToMove(entries, file.source, l.printed, n, target) then n else 0
  {
    hide WellOrdered, FreeToMove, Movable, WrittenRun, WrittenLines, Waits;
    var p := l.printed;
    match op {
      case EmitStalled(anchor) => n := StalledCandidates(entries, p, anchor); CandidatesAre(entries, p, anchor);
      case EmitDangling(end) => n := BeforeRun(entries, p, end); BeforeAre(entries, p, end);
    }
    if p + n < |entries| {
      EntryInside(entries, file.source, p + n);
    }
    MovableIs(entries, file.source, p, n, Target(op, entries, p, n));
  }
}
