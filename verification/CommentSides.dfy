/** Which side of a token a comment belongs to: it trails the token before it unless a line ends between
    them. */
module CommentSides {
  import opened Wrappers
  import opened Scanner
  import opened Lexing

  /** A comment, one that waits included, covers the byte at `k`. */
  predicate Inside(s: State, k: int) {
    || (exists i :: 0 <= i < |s.comments| && s.comments[i].start <= k < s.comments[i].end)
    || (exists i :: 0 <= i < |s.waiting| && s.waiting[i].start <= k < s.waiting[i].end)
  }

  /** A line ends in `from..to`, not counting what stands in a comment. */
  predicate LineEnds(source: string, s: State, from: nat, to: nat) {
    exists k :: from <= k < to && k < |source| && (source[k] == '\n' || source[k] == '\r') && !Inside(s, k)
  }

  /** A leading comment has no token before it or a line end between the two, a trailing one has a token before
      it and no line end in between. */
  predicate SideAt(source: string, s: State, tokens: seq<Lexeme>, c: Comment, i: int)
    requires 0 <= i < |tokens|
  {
    && AttachedAt(c, tokens, i)
    && (if c.leading then i == 0 || (tokens[i - 1].Piece? && LineEnds(source, s, tokens[i - 1].end, c.start))
        else tokens[i].Piece? && !LineEnds(source, s, tokens[i].end, c.start))
  }

  predicate Sided(source: string, s: State, tokens: seq<Lexeme>, c: Comment) {
    exists i :: 0 <= i < |tokens| && SideAt(source, s, tokens, c, i)
  }

  /** What holds between dispatches, as long as nothing is malformed. */
  predicate SidesKnown(source: string, s: State, tokens: seq<Lexeme>) {
    && InOrder(s, tokens) && s.cursor <= |source|
    && (s.hasToken ==>
          && tokens[|tokens| - 1].Piece? && tokens[|tokens| - 1].end <= s.cursor
          && (s.sawNewline <==> LineEnds(source, s, tokens[|tokens| - 1].end, s.cursor))
          && forall i :: 0 <= i < |s.waiting| ==> LineEnds(source, s, tokens[|tokens| - 1].end, s.waiting[i].start))
    && (forall i :: 0 <= i < |s.comments| ==> Sided(source, s, tokens, s.comments[i]))
  }

  /** Up to `n` both states have the same bytes in comments. */
  ghost predicate SameUpTo(s: State, r: State, n: nat) { forall k :: k < n ==> (Inside(s, k) <==> Inside(r, k)) }

  lemma LineEndsSame(source: string, s: State, r: State, n: nat, from: nat, to: nat)
    requires SameUpTo(s, r, n) && to <= n
    ensures LineEnds(source, s, from, to) == LineEnds(source, r, from, to)
  {
    hide Inside;
  }

  lemma SidedOn(source: string, s: State, r: State, n: nat, tokens: seq<Lexeme>, more: seq<Lexeme>, c: Comment)
    requires Sided(source, s, tokens, c) && SameUpTo(s, r, n) && c.start <= n && c.end <= n && tokens <= more
    requires |tokens| < |more| ==> n <= more[|tokens|].start
    ensures Sided(source, r, more, c)
  {
    hide LineEnds, SameUpTo;
    var i :| 0 <= i < |tokens| && SideAt(source, s, tokens, c, i);
    if c.leading {
      if i > 0 {
        LineEndsSame(source, s, r, n, tokens[i - 1].end, c.start);
      }
    } else {
      LineEndsSame(source, s, r, n, tokens[i].end, c.start);
    }
    assert SideAt(source, r, more, c, i);
  }

  // ----- blanks -----

  /** What the blanks have shown: a line end among them, or one before. */
  lemma {:induction false} BlanksTell(input: Input, s: State)
    requires s.cursor <= |input.source|
    ensures var r := SkipBlanks(input, s); r.sawNewline <==> s.sawNewline || HasBreak(input.source[s.cursor..r.cursor])
    decreases |input.source| - s.cursor
  {
    var source, at := input.source, s.cursor;
    if at < |source| && IsBlank(source[at]) {
      var next := s.(cursor := at + 1, sawNewline := s.sawNewline || IsBreak(source[at]));
      BlanksTell(input, next);
      var r := SkipBlanks(input, next);
      assert source[at..r.cursor] == [source[at]] + source[at + 1..r.cursor];
    }
  }

  lemma SkippedKnown(input: Input, s: State, tokens: seq<Lexeme>)
    requires SidesKnown(input.source, s, tokens)
    ensures SidesKnown(input.source, SkipBlanks(input, s), tokens)
  {
    hide InOrder, Sided, SkipBlanks, Inside, LineEnds;
    var source, r := input.source, SkipBlanks(input, s);
    SkippedInOrder(input, s, tokens);
    BlanksTell(input, s);
    assert SameUpTo(s, r, r.cursor) by { SameComments(s, r, r.cursor); }
    TokensKnown(s, tokens);
    if s.hasToken {
      var from := tokens[|tokens| - 1].end;
      LineEndsMore(source, s, tokens, r, from);
      forall i | 0 <= i < |r.waiting|
        ensures LineEnds(source, r, from, r.waiting[i].start)
      {
        WaitingBefore(s, tokens, i);
        LineEndsSame(source, s, r, r.cursor, from, s.waiting[i].start);
      }
    }
    forall i | 0 <= i < |r.comments|
      ensures Sided(source, r, tokens, r.comments[i])
    {
      CommentBefore(s, tokens, i);
      SidedOn(source, s, r, r.cursor, tokens, tokens, s.comments[i]);
    }
  }

  lemma SameComments(s: State, r: State, n: nat)
    requires r.comments == s.comments && r.waiting == s.waiting
    ensures SameUpTo(s, r, n)
  {
  }

  lemma TokensKnown(s: State, tokens: seq<Lexeme>)
    requires InOrder(s, tokens)
    ensures s.hasToken <==> tokens != []
  {
  }

  lemma CommentBefore(s: State, tokens: seq<Lexeme>, i: nat)
    requires InOrder(s, tokens) && i < |s.comments|
    ensures s.comments[i].start <= s.comments[i].end <= s.cursor
  {
  }

  lemma WaitingBefore(s: State, tokens: seq<Lexeme>, i: nat)
    requires InOrder(s, tokens) && i < |s.waiting|
    ensures s.waiting[i].start <= s.waiting[i].end <= s.cursor
  {
  }

  /** Behind the cursor nothing is inside a comment. */
  lemma LooseAhead(s: State, tokens: seq<Lexeme>, k: int)
    requires InOrder(s, tokens) && s.cursor <= k
    ensures !Inside(s, k)
  {
  }

  lemma LineEndsMore(source: string, s: State, tokens: seq<Lexeme>, r: State, from: nat)
    requires InOrder(s, tokens) && r.comments == s.comments && r.waiting == s.waiting
    requires from <= s.cursor <= r.cursor <= |source|
    ensures LineEnds(source, r, from, r.cursor)
            <==> LineEnds(source, s, from, s.cursor) || HasBreak(source[s.cursor..r.cursor])
  {
    hide InOrder, Inside;
    SameComments(s, r, r.cursor);
    if HasBreak(source[s.cursor..r.cursor]) {
      var k :| 0 <= k < r.cursor - s.cursor
        && (source[s.cursor..r.cursor][k] == '\n' || source[s.cursor..r.cursor][k] == '\r');
      LooseAhead(s, tokens, s.cursor + k);
      assert source[s.cursor + k] == source[s.cursor..r.cursor][k];
    }
    if LineEnds(source, r, from, r.cursor) && !LineEnds(source, s, from, s.cursor) {
      var k :| from <= k < r.cursor && (source[k] == '\n' || source[k] == '\r') && !Inside(r, k);
      assert source[s.cursor..r.cursor][k - s.cursor] == source[k];
    }
  }

  // ----- one dispatch -----

  /** One more comment, at the cursor. */
  lemma NotedKnown(source: string, s: State, tokens: seq<Lexeme>, end: nat)
    requires SidesKnown(source, s, tokens) && s.cursor < end <= |source|
    ensures SidesKnown(source, Noted(s.(cursor := end), s.cursor, end), tokens)
  {
    hide InOrder, Sided, Inside, LineEnds;
    var at, r := s.cursor, Noted(s.(cursor := end), s.cursor, end);
    NotedInOrder(s, tokens, end);
    NotedCovers(s, tokens, end);
    TokensKnown(s, tokens);
    if s.hasToken {
      var from := tokens[|tokens| - 1].end;
      LineEndsSame(source, s, r, at, from, at);
      CoveredAdds(source, r, from, at, end);
      forall i | 0 <= i < |r.waiting|
        ensures LineEnds(source, r, from, r.waiting[i].start)
      {
        if i < |s.waiting| {
          WaitingBefore(s, tokens, i);
          LineEndsSame(source, s, r, at, from, s.waiting[i].start);
        }
      }
    }
    forall i | 0 <= i < |r.comments|
      ensures Sided(source, r, tokens, r.comments[i])
    {
      if i < |s.comments| {
        CommentBefore(s, tokens, i);
        SidedOn(source, s, r, at, tokens, tokens, s.comments[i]);
      } else {
        TrailsHere(source, s, r, tokens, end);
      }
    }
  }

  lemma NotedCovers(s: State, tokens: seq<Lexeme>, end: nat)
    requires InOrder(s, tokens) && s.cursor < end
    ensures var r := Noted(s.(cursor := end), s.cursor, end);
            SameUpTo(s, r, s.cursor) && forall k :: s.cursor <= k < end ==> Inside(r, k)
  {
    var r := Noted(s.(cursor := end), s.cursor, end);
    forall k | k < s.cursor
      ensures Inside(s, k) <==> Inside(r, k)
    {
      if Inside(s, k) {
        if i :| 0 <= i < |s.comments| && s.comments[i].start <= k < s.comments[i].end {
          assert r.comments[i] == s.comments[i];
        } else {
          var i :| 0 <= i < |s.waiting| && s.waiting[i].start <= k < s.waiting[i].end;
          assert r.waiting[i] == s.waiting[i];
        }
      }
    }
    if s.sawNewline || !s.hasToken {
      assert r.waiting[|s.waiting|] == Waiting(s.cursor, end);
    } else {
      assert r.comments[|s.comments|] == Comment(s.cursor, end, false, s.lastStart);
    }
  }

  /** What a comment covers adds no line end. */
  lemma CoveredAdds(source: string, r: State, from: nat, at: nat, end: nat)
    requires from <= at <= end && forall k :: at <= k < end ==> Inside(r, k)
    ensures LineEnds(source, r, from, end) == LineEnds(source, r, from, at)
  {
    hide Inside;
  }

  lemma TrailsHere(source: string, s: State, r: State, tokens: seq<Lexeme>, end: nat)
    requires SidesKnown(source, s, tokens) && s.hasToken && !s.sawNewline && s.cursor < end
    requires SameUpTo(s, r, s.cursor)
    ensures Sided(source, r, tokens, Comment(s.cursor, end, false, s.lastStart))
  {
    hide LineEnds, SameUpTo;
    var c, i := Comment(s.cursor, end, false, s.lastStart), |tokens| - 1;
    LineEndsSame(source, s, r, s.cursor, tokens[i].end, s.cursor);
    assert SideAt(source, r, tokens, c, i);
  }

  /** One more token, at the cursor: the comments that wait lead it. */
  lemma MadeKnown(source: string, s: State, tokens: seq<Lexeme>, lexeme: Lexeme, end: nat)
    requires SidesKnown(source, s, tokens) && lexeme.start == s.cursor
    ensures forall i :: 0 <= i < |Made(s, s.cursor).comments| ==>
              Sided(source, Made(s, s.cursor), tokens + [lexeme], Made(s, s.cursor).comments[i])
    ensures s.cursor < end <= |source| && lexeme.Piece? && lexeme.end == end ==>
              SidesKnown(source, Made(s, s.cursor).(cursor := end), tokens + [lexeme])
  {
    hide InOrder, Sided, Inside, LineEnds;
    var at, r, more := s.cursor, Made(s, s.cursor), tokens + [lexeme];
    MadeCovers(s, at);
    forall i | 0 <= i < |r.comments|
      ensures Sided(source, r, more, r.comments[i])
    {
      if i < |s.comments| {
        CommentBefore(s, tokens, i);
        SidedOn(source, s, r, at, tokens, more, s.comments[i]);
      } else {
        LeadsHere(source, s, r, tokens, lexeme, i - |s.comments|);
      }
    }
    if s.cursor < end <= |source| && lexeme.Piece? && lexeme.end == end {
      MadeInOrder(s, tokens, lexeme, at);
      var moved := r.(cursor := end);
      NoLineEnds(source, moved, end);
      forall i | 0 <= i < |moved.comments|
        ensures Sided(source, moved, more, moved.comments[i])
      {
        MovedSided(source, r, moved, more, moved.comments[i]);
      }
      HasTokenNow(s, at);
    }
  }

  lemma HasTokenNow(s: State, at: nat)
    ensures Made(s, at).hasToken && Made(s, at).waiting == [] && !Made(s, at).sawNewline
  {
  }

  lemma NoLineEnds(source: string, s: State, at: nat)
    ensures !LineEnds(source, s, at, at)
  {
  }

  lemma MovedSided(source: string, r: State, moved: State, tokens: seq<Lexeme>, c: Comment)
    requires Sided(source, r, tokens, c) && moved == r.(cursor := moved.cursor)
    ensures Sided(source, moved, tokens, c)
  {
    SameComments(r, moved, c.start + c.end);
    SidedOn(source, r, moved, c.start + c.end, tokens, tokens, c);
  }

  lemma MadeCovers(s: State, at: nat)
    ensures forall n: nat :: SameUpTo(s, Made(s, at), n)
  {
    var r := Made(s, at);
    forall k
      ensures Inside(s, k) <==> Inside(r, k)
    {
      if Inside(s, k) {
        if i :| 0 <= i < |s.comments| && s.comments[i].start <= k < s.comments[i].end {
          assert r.comments[i] == s.comments[i];
        } else {
          var i :| 0 <= i < |s.waiting| && s.waiting[i].start <= k < s.waiting[i].end;
          assert r.comments[|s.comments| + i] == Attached(s.waiting, at)[i];
        }
      }
      if Inside(r, k) {
        var i :| 0 <= i < |r.comments| && r.comments[i].start <= k < r.comments[i].end;
        if i >= |s.comments| {
          assert r.comments[i] == Attached(s.waiting, at)[i - |s.comments|];
        }
      }
    }
  }

  lemma LeadsHere(source: string, s: State, r: State, tokens: seq<Lexeme>, lexeme: Lexeme, i: nat)
    requires SidesKnown(source, s, tokens) && i < |s.waiting| && lexeme.start == s.cursor
    requires SameUpTo(s, r, s.cursor)
    ensures Sided(source, r, tokens + [lexeme], Comment(s.waiting[i].start, s.waiting[i].end, true, lexeme.start))
  {
    hide LineEnds, SameUpTo;
    var w, more := s.waiting[i], tokens + [lexeme];
    if tokens != [] {
      LineEndsSame(source, s, r, s.cursor, tokens[|tokens| - 1].end, w.start);
    }
    assert SideAt(source, r, more, Comment(w.start, w.end, true, lexeme.start), |tokens|);
  }

  lemma DispatchedKnown(input: Input, s: State, tokens: seq<Lexeme>)
    requires SidesKnown(input.source, s, tokens) && s.queued.None?
    requires s.cursor < |input.source| && !IsBlank(input.source[s.cursor])
    ensures var (after, lexeme) := Dispatched(input, s);
            after.errors == s.errors
            ==> SidesKnown(input.source, after.(queued := None), tokens + TokensOf(lexeme, after.queued))
  {
    hide SidesKnown, InOrder, Dispatch, Made, Noted;
    var text, at := input.Rest(s.cursor), s.cursor;
    var (after, lexeme) := Dispatched(input, s);
    match Dispatch(input.version, text, s.braces)
    case Malformed => assert after.errors == s.errors + [at];
    case Commented(length) =>
      var end := at + Within(length, text);
      NotedKnown(input.source, s, tokens, end);
      NotedKeepsQueue(s.(cursor := end), at, end);
      assert tokens + [] == tokens;
    case Lexed(token, length, braces) =>
      var end := at + Within(length, text);
      if token.InterpWhole? {
        WholeSpansTwo(input.version, text, s.braces);
        WholeKnown(input.source, s, tokens, lexeme.value, after.queued.value, end, braces);
        assert tokens + TokensOf(lexeme, after.queued) == tokens + [lexeme.value] + [after.queued.value];
      } else {
        PieceKnown(input.source, s, tokens, lexeme.value, end, braces);
        assert tokens + TokensOf(lexeme, after.queued) == tokens + [lexeme.value];
      }
  }

  lemma PieceKnown(source: string, s: State, tokens: seq<Lexeme>, lexeme: Lexeme, end: nat, braces: seq<nat>)
    requires SidesKnown(source, s, tokens) && s.queued.None? && lexeme.Piece?
    requires lexeme.start == s.cursor < end <= |source| && lexeme.end == end
    ensures SidesKnown(source, Made(s.(cursor := end, braces := braces), s.cursor).(queued := None), tokens + [lexeme])
    ensures Made(s.(cursor := end, braces := braces), s.cursor).queued.None?
  {
    hide SidesKnown;
    MadeKnown(source, s, tokens, lexeme, end);
    KnownSame(source, Made(s.(cursor := end, braces := braces), s.cursor).(queued := None),
              Made(s, s.cursor).(cursor := end), tokens + [lexeme]);
  }

  /** Neither the queue nor the brace counts matter. */
  lemma KnownSame(source: string, a: State, b: State, tokens: seq<Lexeme>)
    requires SidesKnown(source, b, tokens) && a == b.(queued := a.queued, braces := a.braces)
    ensures SidesKnown(source, a, tokens)
  {
    hide InOrder, Sided, LineEnds, Inside;
    WholeSame(a, b, tokens);
    TokensKnown(b, tokens);
    if b.hasToken {
      var from := tokens[|tokens| - 1].end;
      SameComments(b, a, b.cursor);
      LineEndsSame(source, b, a, b.cursor, from, b.cursor);
      forall i | 0 <= i < |a.waiting|
        ensures LineEnds(source, a, from, a.waiting[i].start)
      {
        WaitingBefore(b, tokens, i);
        LineEndsSame(source, b, a, b.cursor, from, a.waiting[i].start);
      }
    }
    forall i | 0 <= i < |a.comments|
      ensures Sided(source, a, tokens, a.comments[i])
    {
      var c := a.comments[i];
      SameComments(b, a, c.start + c.end);
      SidedOn(source, b, a, c.start + c.end, tokens, tokens, c);
    }
  }

  lemma WholeKnown(source: string, s: State, tokens: seq<Lexeme>, begin: Lexeme, close: Lexeme, end: nat,
                   braces: seq<nat>)
    requires SidesKnown(source, s, tokens) && s.queued.None? && begin.Piece? && close.Piece?
    requires begin.start == s.cursor < end - 1 && close.start == end - 1 && begin.end == close.end == end <= |source|
    ensures SidesKnown(source, Made(Made(s.(cursor := end, braces := braces), s.cursor), end - 1).(queued := None),
                       tokens + [begin] + [close])
  {
    hide InOrder, Sided, Inside, LineEnds, Made;
    var at, both := s.cursor, tokens + [begin] + [close];
    var first := Made(s, at);
    var r := Made(Made(s.(cursor := end, braces := braces), at), end - 1).(queued := None);
    WholeInOrder(s, tokens, begin, close, end, braces);
    MadeKnown(source, s, tokens, begin, end);
    MadeTwice(s, end, braces);
    SameComments(first, r, at);
    NoLineEnds(source, r, end);
    forall i | 0 <= i < |r.comments|
      ensures Sided(source, r, both, r.comments[i])
    {
      MadeBefore(s, tokens, i);
      SidedOn(source, first, r, at, tokens + [begin], both, r.comments[i]);
    }
  }

  lemma MadeTwice(s: State, end: nat, braces: seq<nat>)
    requires 0 < end
    ensures var r := Made(Made(s.(cursor := end, braces := braces), s.cursor), end - 1).(queued := None);
            && r.comments == Made(s, s.cursor).comments && r.waiting == Made(s, s.cursor).waiting == []
            && r.hasToken && !r.sawNewline && r.cursor == end
  {
    assert Attached([], end - 1) == [];
  }

  lemma MadeBefore(s: State, tokens: seq<Lexeme>, i: nat)
    requires InOrder(s, tokens) && i < |Made(s, s.cursor).comments|
    ensures Made(s, s.cursor).comments[i].start <= Made(s, s.cursor).comments[i].end <= s.cursor
  {
    var r := Made(s, s.cursor);
    if i >= |s.comments| {
      assert r.comments[i] == Attached(s.waiting, s.cursor)[i - |s.comments|];
    }
  }

  lemma {:induction false} AllKnown(input: Input, s: State, tokens: seq<Lexeme>)
    requires s.cursor <= |input.source| && SidesKnown(input.source, s, tokens) && s.queued.None?
    ensures var (last, rest) := All(input, s);
            last.errors == s.errors
            ==> forall i :: 0 <= i < |last.comments| ==> Sided(input.source, last, tokens + rest, last.comments[i])
    decreases |input.source| - s.cursor
  {
    hide SidesKnown, Sided, Dispatched, Made, TokensOf, SkipBlanks;
    var skipped := SkipBlanks(input, s);
    SkippedKnown(input, s, tokens);
    if skipped.cursor == |input.source| {
      MadeKnown(input.source, skipped, tokens, EndOfFile(skipped.cursor), skipped.cursor);
    } else {
      var (after, lexeme) := Dispatched(input, skipped);
      DispatchKeepsQueue(input, skipped);
      DispatchedKnown(input, skipped, tokens);
      ErrorsGrow(input, skipped);
      var made := TokensOf(lexeme, after.queued);
      var clear := after.(queued := None);
      AllErrors(input, clear);
      if after.errors == s.errors {
        AllKnown(input, clear, tokens + made);
      }
      var (last, rest) := All(input, clear);
      assert tokens + made + rest == tokens + (made + rest);
      AllUnfolds(input, s);
    }
  }

  lemma ErrorsGrow(input: Input, s: State)
    requires s.cursor < |input.source| && !IsBlank(input.source[s.cursor])
    ensures s.errors <= Dispatched(input, s).0.errors
  {
    hide Dispatch;
  }

  lemma {:induction false} AllErrors(input: Input, s: State)
    requires s.cursor <= |input.source|
    ensures s.errors <= All(input, s).0.errors
    decreases |input.source| - s.cursor
  {
    hide Dispatched;
    var skipped := SkipBlanks(input, s);
    if skipped.cursor < |input.source| {
      ErrorsGrow(input, skipped);
      var (after, lexeme) := Dispatched(input, skipped);
      AllErrors(input, if lexeme.None? then after else after.(queued := None));
    }
  }

  /** Over every source with nothing malformed in it: a comment trails the token before it exactly where no
      line ends between the two, and leads the token behind it otherwise. */
  lemma SidesAreTold(input: Input)
    ensures var (last, tokens) := All(input, Start(input));
            last.errors == []
            ==> forall i :: 0 <= i < |last.comments| ==> Sided(input.source, last, tokens, last.comments[i])
  {
    hide All, SidesKnown, Sided;
    var s := Start(input);
    StartKnown(input);
    AllKnown(input, s, []);
    assert [] + All(input, s).1 == All(input, s).1;
  }

  lemma StartKnown(input: Input)
    ensures SidesKnown(input.source, Start(input), []) && Start(input).queued.None? && Start(input).errors == []
  {
  }

  // ----- nothing is skipped -----

  predicate InToken(tokens: seq<Lexeme>, k: int) {
    exists i :: 0 <= i < |tokens| && tokens[i].Piece? && tokens[i].start <= k < tokens[i].end
  }

  /** Every byte from `from` up to the cursor is blank, part of a comment or part of a token. */
  predicate Accounted(source: string, s: State, tokens: seq<Lexeme>, from: nat) {
    forall k :: from <= k < s.cursor && k < |source| ==> IsBlank(source[k]) || Inside(s, k) || InToken(tokens, k)
  }

  lemma {:induction false} BlanksOnly(input: Input, s: State)
    requires s.cursor <= |input.source|
    ensures forall k :: s.cursor <= k < SkipBlanks(input, s).cursor ==> IsBlank(input.source[k])
    decreases |input.source| - s.cursor
  {
    var source, at := input.source, s.cursor;
    if at < |source| && IsBlank(source[at]) {
      BlanksOnly(input, s.(cursor := at + 1, sawNewline := s.sawNewline || IsBreak(source[at])));
    }
  }

  lemma InTokenMore(tokens: seq<Lexeme>, more: seq<Lexeme>, k: int)
    requires InToken(tokens, k) && tokens <= more
    ensures InToken(more, k)
  {
    var i :| 0 <= i < |tokens| && tokens[i].Piece? && tokens[i].start <= k < tokens[i].end;
    assert more[i] == tokens[i];
  }

  lemma DispatchedAccounted(input: Input, s: State, tokens: seq<Lexeme>, from: nat)
    requires InOrder(s, tokens) && Accounted(input.source, s, tokens, from) && s.queued.None?
    requires s.cursor < |input.source| && !IsBlank(input.source[s.cursor])
    ensures var (after, lexeme) := Dispatched(input, s);
            after.errors == s.errors
            ==> Accounted(input.source, after.(queued := None), tokens + TokensOf(lexeme, after.queued), from)
  {
    hide InOrder, Dispatch, Made, Noted, Inside;
    var text, at := input.Rest(s.cursor), s.cursor;
    var (after, lexeme) := Dispatched(input, s);
    match Dispatch(input.version, text, s.braces)
    case Malformed => assert after.errors == s.errors + [at];
    case Commented(length) =>
      var end := at + Within(length, text);
      NotedCovers(s, tokens, end);
      NotedKeepsQueue(s.(cursor := end), at, end);
      NotedMoves(s.(cursor := end), at, end);
      assert tokens + [] == tokens;
    case Lexed(token, length, braces) =>
      var end := at + Within(length, text);
      var moved, all := s.(cursor := end, braces := braces), tokens + TokensOf(lexeme, after.queued);
      SameComments(s, moved, end);
      MadeCovers(moved, at);
      MadeCovers(Made(moved, at), end - 1);
      var made := if token.InterpWhole? then Made(Made(moved, at), end - 1) else Made(moved, at);
      MadeMoves(moved, at);
      MadeMoves(Made(moved, at), end - 1);
      SameComments(made, after.(queued := None), end);
      assert all[|tokens|] == lexeme.value;
      forall k | from <= k < end
        ensures IsBlank(input.source[k]) || Inside(after.(queued := None), k) || InToken(all, k)
      {
        SameAt(s, moved, end, k);
        SameAt(moved, Made(moved, at), end, k);
        SameAt(Made(moved, at), made, end, k);
        SameAt(made, after.(queued := None), end, k);
        if k >= at {
          assert all[|tokens|].Piece? && all[|tokens|].start <= k < all[|tokens|].end;
        } else if InToken(tokens, k) {
          InTokenMore(tokens, all, k);
        }
      }
  }

  lemma SameAt(s: State, r: State, n: nat, k: int)
    requires SameUpTo(s, r, n) && k < n
    ensures Inside(s, k) <==> Inside(r, k)
  {
  }

  lemma NotedMoves(s: State, start: nat, end: nat)
    ensures Noted(s, start, end).cursor == s.cursor
  {
  }

  lemma MadeMoves(s: State, start: nat)
    ensures Made(s, start).cursor == s.cursor
  {
  }

  lemma {:induction false} AllAccounted(input: Input, s: State, tokens: seq<Lexeme>, from: nat)
    requires InOrder(s, tokens) && Accounted(input.source, s, tokens, from) && s.queued.None?
    requires from <= s.cursor <= |input.source|
    ensures var (last, rest) := All(input, s);
            last.errors == s.errors
            ==> forall k :: from <= k < |input.source| ==>
                  IsBlank(input.source[k]) || Inside(last, k) || InToken(tokens + rest, k)
    decreases |input.source| - s.cursor
  {
    hide InOrder, Dispatched, Made, TokensOf, SkipBlanks, Inside;
    var skipped := SkipBlanks(input, s);
    BlanksOnly(input, s);
    SkippedInOrder(input, s, tokens);
    SameComments(s, skipped, skipped.cursor);
    forall k | from <= k < skipped.cursor
      ensures IsBlank(input.source[k]) || Inside(skipped, k) || InToken(tokens, k)
    {
      SameAt(s, skipped, skipped.cursor, k);
    }
    if skipped.cursor == |input.source| {
      MadeCovers(skipped, skipped.cursor);
      var last := Made(skipped, skipped.cursor);
      forall k | from <= k < |input.source|
        ensures IsBlank(input.source[k]) || Inside(last, k) || InToken(tokens + [EndOfFile(skipped.cursor)], k)
      {
        SameAt(skipped, last, |input.source|, k);
        if InToken(tokens, k) {
          InTokenMore(tokens, tokens + [EndOfFile(skipped.cursor)], k);
        }
      }
    } else {
      var (after, lexeme) := Dispatched(input, skipped);
      DispatchKeepsQueue(input, skipped);
      DispatchedInOrder(input, skipped, tokens);
      DispatchedAccounted(input, skipped, tokens, from);
      ErrorsGrow(input, skipped);
      var made := TokensOf(lexeme, after.queued);
      var clear := after.(queued := None);
      AllErrors(input, clear);
      if after.errors == s.errors {
        AllAccounted(input, clear, tokens + made, from);
      }
      var (last, rest) := All(input, clear);
      assert tokens + made + rest == tokens + (made + rest);
      AllUnfolds(input, s);
    }
  }

  /** Over every source with nothing malformed in it: every byte behind the byte-order mark is part of a token,
      part of a comment, or blank. */
  lemma NothingIsSkipped(input: Input)
    ensures var (last, tokens) := All(input, Start(input));
            var from := if BOM <= input.source then 3 else 0;
            last.errors == []
            ==> forall k :: from <= k < |input.source| ==>
                  IsBlank(input.source[k]) || Inside(last, k) || InToken(tokens, k)
  {
    hide All, InOrder;
    var s := Start(input);
    StartKnown(input);
    assert s.waiting != [] ==>
           s.waiting[0].start == (if BOM <= input.source then 3 else 0) && s.waiting[0].end == s.cursor;
    AllAccounted(input, s, [], if BOM <= input.source then 3 else 0);
    assert [] + All(input, s).1 == All(input, s).1;
  }
}
