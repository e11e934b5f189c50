/** The lexer as a stateful reader (`lexer.rs`): tokens one by one or all at once, comments on the side. */
module Lexing {
  import opened Wrappers
  import opened LuaSyntax
  import opened Scanner

  /** A token with its span, or the end of the source. */
  datatype Lexeme = Piece(token: Token, start: nat, end: nat) | EndOfFile(start: nat)

  datatype Comment = Comment(start: nat, end: nat, leading: bool, attachedTo: nat)

  /** A comment that waits for the token it leads. */
  datatype Waiting = Waiting(start: nat, end: nat)

  datatype State = State(
    cursor: nat, queued: Option<Lexeme>, comments: seq<Comment>, waiting: seq<Waiting>, braces: seq<nat>,
    errors: seq<nat>, lastStart: nat, hasToken: bool, sawNewline: bool)

  /** What is read, in which dialect, and where reading resumes behind a malformed piece. */
  datatype Input = Input(version: Version, source: string, resume: string -> nat) {
    /** Reading always moves on, and never past the end. */
    function Resume(s: string): (n: nat)
      requires s != ""
      ensures 1 <= n <= |s|
    {
      var n := resume(s);
      if n == 0 then 1 else if n <= |s| then n else |s|
    }

    function Rest(i: nat): string
      requires i <= |source|
    {
      source[i..]
    }
  }

  predicate HasBreak(s: string) { '\n' in s || '\r' in s }

  function SkipBlanks(input: Input, s: State): (r: State)
    requires s.cursor <= |input.source|
    ensures s.cursor <= r.cursor <= |input.source|
    ensures r == s.(cursor := r.cursor, sawNewline := r.sawNewline) && (s.sawNewline ==> r.sawNewline)
    ensures r.cursor < |input.source| ==> !IsBlank(input.source[r.cursor])
    decreases |input.source| - s.cursor
  {
    if s.cursor < |input.source| && IsBlank(input.source[s.cursor]) then
      SkipBlanks(input, s.(cursor := s.cursor + 1, sawNewline := s.sawNewline || IsBreak(input.source[s.cursor])))
    else s
  }

  function Attached(ws: seq<Waiting>, start: nat): (cs: seq<Comment>)
    ensures |cs| == |ws|
    ensures forall k :: 0 <= k < |ws| ==> cs[k] == Comment(ws[k].start, ws[k].end, true, start)
  {
    seq(|ws|, k requires 0 <= k < |ws| => Comment(ws[k].start, ws[k].end, true, start))
  }

  /** A token starts at `start`: the waiting comments lead it. */
  function Made(s: State, start: nat): State {
    s.(comments := s.comments + Attached(s.waiting, start), waiting := [], lastStart := start, hasToken := true,
       sawNewline := false)
  }

  function Noted(s: State, start: nat, end: nat): State {
    if s.sawNewline || !s.hasToken then s.(waiting := s.waiting + [Waiting(start, end)])
    else s.(comments := s.comments + [Comment(start, end, false, s.lastStart)])
  }

  /** The brace counts behind a malformed piece: a `}` that closes a hole has closed it. */
  function BracesBehind(c: char, braces: seq<nat>): seq<nat> {
    if c == '}' && braces != [] && braces[|braces| - 1] == 0 then braces[..|braces| - 1] else braces
  }

  /** One dispatch at a byte that is not blank: at most one lexeme now, and one more in the queue. */
  function Dispatched(input: Input, s: State): (r: (State, Option<Lexeme>))
    requires s.cursor < |input.source| && !IsBlank(input.source[s.cursor])
    ensures s.cursor < r.0.cursor <= |input.source|
  {
    var text := input.Rest(s.cursor);
    var at := s.cursor;
    match Dispatch(input.version, text, s.braces)
    case Malformed =>
      (s.(cursor := at + input.Resume(text), errors := s.errors + [at], braces := BracesBehind(text[0], s.braces)),
       None)
    case Commented(length) =>
      var end := at + Within(length, text);
      (Noted(s.(cursor := end), at, end), None)
    case Lexed(token, length, braces) =>
      var end := at + Within(length, text);
      var moved := s.(cursor := end, braces := braces);
      if token.InterpWhole? then
        (Made(Made(moved, at), end - 1).(queued := Some(Piece(InterpEnd(token.text), end - 1, end))),
         Some(Piece(InterpBegin(""), at, end)))
      else (Made(moved, at), Some(Piece(token, at, end)))
  }

  /** A length the scanner gives is inside the text and not empty. */
  function Within(length: nat, text: string): (n: nat)
    requires text != ""
    ensures 1 <= n <= |text|
  {
    if length == 0 then 1 else if length <= |text| then length else |text|
  }

  /** `next_token`: the queue first; then whatever the next dispatches give. */
  function Next(input: Input, s: State): (r: (State, Lexeme))
    requires s.cursor <= |input.source|
    ensures s.cursor <= r.0.cursor <= |input.source|
    ensures s.queued.None? && !r.1.EndOfFile? ==> s.cursor < r.0.cursor
    decreases |input.source| - s.cursor
  {
    if s.queued.Some? then (s.(queued := None), s.queued.value)
    else
      var skipped := SkipBlanks(input, s);
      if skipped.cursor == |input.source| then (Made(skipped, skipped.cursor), EndOfFile(skipped.cursor))
      else
        var (after, lexeme) := Dispatched(input, skipped);
        if lexeme.Some? then (after, lexeme.value) else Next(input, after)
  }

  /** `tokenize`: every dispatch to the end, the queue emptied at once. */
  function All(input: Input, s: State): (State, seq<Lexeme>)
    requires s.cursor <= |input.source|
    decreases |input.source| - s.cursor
  {
    var skipped := SkipBlanks(input, s);
    if skipped.cursor == |input.source| then (Made(skipped, skipped.cursor), [EndOfFile(skipped.cursor)])
    else
      var (after, lexeme) := Dispatched(input, skipped);
      if lexeme.None? then All(input, after)
      else
        var queued := if after.queued.Some? then [after.queued.value] else [];
        var (last, rest) := All(input, after.(queued := None));
        (last, [lexeme.value] + queued + rest)
  }

  /** What a caller gets that asks for tokens one by one until the end of the file. */
  function Drained(input: Input, s: State): (State, seq<Lexeme>)
    requires s.cursor <= |input.source| && (s.queued.Some? ==> s.queued.value.Piece?)
    decreases |input.source| - s.cursor, if s.queued.Some? then 1 else 0
  {
    var (after, lexeme) := Next(input, s);
    if lexeme.EndOfFile? then (after, [lexeme])
    else
      QueueHoldsPieces(input, s);
      var (last, rest) := Drained(input, after);
      (last, [lexeme] + rest)
  }

  lemma {:induction false} QueueHoldsPieces(input: Input, s: State)
    requires s.cursor <= |input.source| && (s.queued.Some? ==> s.queued.value.Piece?)
    ensures Next(input, s).0.queued.Some? ==> Next(input, s).0.queued.value.Piece?
    decreases |input.source| - s.cursor
  {
    hide Dispatch, Made, Noted;
    if s.queued.None? {
      var skipped := SkipBlanks(input, s);
      if skipped.cursor < |input.source| {
        DispatchKeepsQueue(input, skipped);
        var (after, lexeme) := Dispatched(input, skipped);
        if lexeme.None? {
          QueueHoldsPieces(input, after);
        }
      } else {
        MadeKeeps(skipped, skipped.cursor);
      }
    }
  }

  lemma MadeKeeps(s: State, start: nat)
    ensures Made(s, start).queued == s.queued && Made(s, start).cursor == s.cursor
  {
  }

  lemma DispatchKeepsQueue(input: Input, s: State)
    requires s.cursor < |input.source| && !IsBlank(input.source[s.cursor]) && s.queued.None?
    ensures var (after, lexeme) := Dispatched(input, s);
            && (lexeme.None? ==> after.queued.None?)
            && (lexeme.Some? ==> lexeme.value.Piece?)
            && (after.queued.Some? ==> after.queued.value.Piece?)
  {
    hide Dispatch;
  }

  /** Asking one by one gives the tokens, the comments and the errors of the whole pass. */
  lemma {:induction false} DrainingIsTokenizing(input: Input, s: State)
    requires s.cursor <= |input.source| && s.queued.None?
    ensures Drained(input, s) == All(input, s)
    decreases |input.source| - s.cursor
  {
    hide Dispatched, Made;
    var skipped := SkipBlanks(input, s);
    if skipped.cursor < |input.source| {
      var (after, lexeme) := Dispatched(input, skipped);
      DispatchKeepsQueue(input, skipped);
      if lexeme.None? {
        DrainingIsTokenizing(input, after);
        assert Next(input, s) == Next(input, after);
        assert Drained(input, s) == Drained(input, after);
      } else {
        var clear := after.(queued := None);
        DrainingIsTokenizing(input, clear);
        assert Next(input, s) == (after, lexeme.value);
        if after.queued.Some? {
          assert Next(input, after) == (clear, after.queued.value);
          var (last, rest) := Drained(input, clear);
          assert [lexeme.value] + ([after.queued.value] + rest) == [lexeme.value] + [after.queued.value] + rest;
        } else {
          assert clear == after;
          var (last, rest) := Drained(input, clear);
          assert [lexeme.value] + [] + rest == [lexeme.value] + rest;
        }
      }
    }
  }

  /** The whole pass, one dispatch at a time. */
  lemma AllUnfolds(input: Input, s: State)
    requires s.cursor <= |input.source| && s.queued.None?
    requires SkipBlanks(input, s).cursor < |input.source|
    ensures var (after, lexeme) := Dispatched(input, SkipBlanks(input, s));
            var (last, rest) := All(input, after.(queued := None));
            All(input, s) == (last, TokensOf(lexeme, after.queued) + rest)
  {
    hide Dispatched, Made, SkipBlanks;
    var (after, lexeme) := Dispatched(input, SkipBlanks(input, s));
    DispatchKeepsQueue(input, SkipBlanks(input, s));
    var rest := All(input, after.(queued := None)).1;
    if lexeme.None? {
      assert after.(queued := None) == after && TokensOf(lexeme, after.queued) + rest == rest;
    }
  }

  lemma AllEnds(input: Input, s: State)
    requires s.cursor == |input.source|
    ensures All(input, s) == (Made(s, s.cursor), [EndOfFile(s.cursor)])
  {
    hide Dispatched, Made;
  }

  lemma AllStarts(input: Input, s: State)
    requires s.cursor <= |input.source| && SkipBlanks(input, s).cursor == |input.source|
    ensures All(input, s) == All(input, SkipBlanks(input, s))
  {
    hide Dispatched, Made;
  }

  // ----- where comments go -----

  /** `c` leads the first token behind it, or trails the last token before it. */
  predicate WellAttached(c: Comment, tokens: seq<Lexeme>) {
    exists i :: 0 <= i < |tokens| && AttachedAt(c, tokens, i)
  }

  predicate AttachedAt(c: Comment, tokens: seq<Lexeme>, i: int)
    requires 0 <= i < |tokens|
  {
    && tokens[i].start == c.attachedTo
    && (if c.leading then c.end <= tokens[i].start && (i > 0 ==> tokens[i - 1].start < c.start)
        else tokens[i].start < c.start && (i + 1 < |tokens| ==> c.end <= tokens[i + 1].start))
  }

  /** What holds between dispatches: `tokens` are those made so far, the queued one included. */
  predicate InOrder(s: State, tokens: seq<Lexeme>) {
    // comments, those that wait included, in source order, none behind the cursor
    && (forall i :: 0 <= i < |s.comments| ==> s.comments[i].start <= s.comments[i].end <= s.cursor)
    && (forall i :: 0 <= i < |s.waiting| ==> s.waiting[i].start <= s.waiting[i].end <= s.cursor)
    && (forall i, j :: 0 <= i < j < |s.comments| ==> s.comments[i].end <= s.comments[j].start)
    && (forall i, j :: 0 <= i < j < |s.waiting| ==> s.waiting[i].end <= s.waiting[j].start)
    && (forall i, j :: 0 <= i < |s.comments| && 0 <= j < |s.waiting| ==> s.comments[i].end <= s.waiting[j].start)
    // once one waits, so do those that follow
    && (s.waiting != [] ==> s.sawNewline || !s.hasToken)
    // tokens
    && (s.hasToken <==> tokens != [])
    && (s.hasToken ==> tokens[|tokens| - 1].start == s.lastStart && s.lastStart < s.cursor)
    && (forall j :: 0 <= j < |s.waiting| && s.hasToken ==> s.lastStart < s.waiting[j].start)
    && (forall i :: 0 <= i < |s.comments| ==> WellAttached(s.comments[i], tokens))
  }

  /** One more token at or behind the cursor. */
  lemma MadeInOrder(s: State, tokens: seq<Lexeme>, lexeme: Lexeme, start: nat)
    requires InOrder(s, tokens) && lexeme.start == start && s.cursor <= start
    ensures forall end: nat :: start < end ==> InOrder(Made(s, start).(cursor := end), tokens + [lexeme])
    ensures forall i :: 0 <= i < |Made(s, start).comments| ==>
              WellAttached(Made(s, start).comments[i], tokens + [lexeme])
    ensures forall i, j :: 0 <= i < j < |Made(s, start).comments| ==>
              Made(s, start).comments[i].end <= Made(s, start).comments[j].start
  {
    hide WellAttached, AttachedAt;
    var r := Made(s, start);
    var more := tokens + [lexeme];
    forall i | 0 <= i < |r.comments|
      ensures WellAttached(r.comments[i], more)
    {
      if i < |s.comments| {
        StaysAttached(s.comments[i], tokens, lexeme);
      } else {
        LeadsNew(r.comments[i], tokens, lexeme);
      }
    }
  }

  lemma StaysAttached(c: Comment, tokens: seq<Lexeme>, lexeme: Lexeme)
    requires WellAttached(c, tokens) && c.end <= lexeme.start
    ensures WellAttached(c, tokens + [lexeme])
  {
    var i :| 0 <= i < |tokens| && AttachedAt(c, tokens, i);
    assert AttachedAt(c, tokens + [lexeme], i);
  }

  lemma LeadsNew(c: Comment, tokens: seq<Lexeme>, lexeme: Lexeme)
    requires c.leading && c.attachedTo == lexeme.start && c.end <= lexeme.start
    requires tokens != [] ==> tokens[|tokens| - 1].start < c.start
    ensures WellAttached(c, tokens + [lexeme])
  {
    assert AttachedAt(c, tokens + [lexeme], |tokens|);
  }

  lemma TrailsLast(c: Comment, tokens: seq<Lexeme>)
    requires !c.leading && tokens != [] && c.attachedTo == tokens[|tokens| - 1].start < c.start
    ensures WellAttached(c, tokens)
  {
    assert AttachedAt(c, tokens, |tokens| - 1);
  }

  lemma NotedInOrder(s: State, tokens: seq<Lexeme>, end: nat)
    requires InOrder(s, tokens) && s.cursor < end
    ensures InOrder(Noted(s.(cursor := end), s.cursor, end), tokens)
  {
    hide WellAttached, AttachedAt;
    if !(s.sawNewline || !s.hasToken) {
      TrailsLast(Comment(s.cursor, end, false, s.lastStart), tokens);
    }
  }

  function TokensOf(lexeme: Option<Lexeme>, queued: Option<Lexeme>): seq<Lexeme> {
    (if lexeme.Some? then [lexeme.value] else []) + (if queued.Some? then [queued.value] else [])
  }

  lemma SkippedInOrder(input: Input, s: State, tokens: seq<Lexeme>)
    requires InOrder(s, tokens) && s.cursor <= |input.source|
    ensures InOrder(SkipBlanks(input, s), tokens)
  {
    hide WellAttached;
  }

  lemma DispatchedInOrder(input: Input, s: State, tokens: seq<Lexeme>)
    requires InOrder(s, tokens) && s.cursor < |input.source| && !IsBlank(input.source[s.cursor]) && s.queued.None?
    ensures var (after, lexeme) := Dispatched(input, s);
            InOrder(after.(queued := None), tokens + TokensOf(lexeme, after.queued))
  {
    hide InOrder, Dispatch, Made, Noted;
    var text := input.Rest(s.cursor);
    var at := s.cursor;
    var (after, lexeme) := Dispatched(input, s);
    match Dispatch(input.version, text, s.braces)
    case Malformed =>
      FailedInOrder(s, tokens, after.cursor, after.errors, after.braces);
      assert tokens + [] == tokens;
    case Commented(length) =>
      NotedInOrder(s, tokens, at + Within(length, text));
      NotedKeepsQueue(s.(cursor := at + Within(length, text)), at, at + Within(length, text));
      assert tokens + [] == tokens;
    case Lexed(token, length, braces) =>
      var end := at + Within(length, text);
      if token.InterpWhole? {
        WholeSpansTwo(input.version, text, s.braces);
        WholeInOrder(s, tokens, lexeme.value, after.queued.value, end, braces);
        assert tokens + TokensOf(lexeme, after.queued) == tokens + [lexeme.value] + [after.queued.value];
      } else {
        PieceInOrder(s, tokens, lexeme.value, end, braces);
        assert tokens + TokensOf(lexeme, after.queued) == tokens + [lexeme.value];
      }
  }

  lemma NotedKeepsQueue(s: State, start: nat, end: nat)
    requires s.queued.None?
    ensures Noted(s, start, end).queued.None? && Noted(s, start, end).(queued := None) == Noted(s, start, end)
  {
  }

  lemma FailedInOrder(s: State, tokens: seq<Lexeme>, cursor: nat, errors: seq<nat>, braces: seq<nat>)
    requires InOrder(s, tokens) && s.cursor <= cursor
    ensures InOrder(s.(cursor := cursor, errors := errors, braces := braces), tokens)
    ensures s.queued.None? ==>
              s.(cursor := cursor, errors := errors, braces := braces, queued := None)
              == s.(cursor := cursor, errors := errors, braces := braces)
  {
    hide WellAttached;
  }

  lemma PieceInOrder(s: State, tokens: seq<Lexeme>, lexeme: Lexeme, end: nat, braces: seq<nat>)
    requires InOrder(s, tokens) && lexeme.start == s.cursor < end && s.queued.None?
    ensures InOrder(Made(s.(cursor := end, braces := braces), s.cursor).(queued := None), tokens + [lexeme])
    ensures Made(s.(cursor := end, braces := braces), s.cursor).queued.None?
  {
    hide WellAttached;
    MadeInOrder(s, tokens, lexeme, s.cursor);
    assert InOrder(Made(s, s.cursor).(cursor := end), tokens + [lexeme]);
  }

  /** The order depends on neither the queue nor the brace counts. */
  lemma WholeSame(a: State, b: State, tokens: seq<Lexeme>)
    requires InOrder(b, tokens) && a == b.(queued := a.queued, braces := a.braces)
    ensures InOrder(a, tokens)
  {
    hide WellAttached;
  }

  lemma WholeInOrder(s: State, tokens: seq<Lexeme>, begin: Lexeme, close: Lexeme, end: nat, braces: seq<nat>)
    requires InOrder(s, tokens) && begin.start == s.cursor < end - 1 && close.start == end - 1 && s.queued.None?
    ensures InOrder(Made(Made(s.(cursor := end, braces := braces), s.cursor), end - 1).(queued := None),
                    tokens + [begin] + [close])
  {
    hide InOrder;
    MadeInOrder(s, tokens, begin, s.cursor);
    var first := Made(s, s.cursor).(cursor := end - 1);
    assert InOrder(first, tokens + [begin]);
    MadeInOrder(first, tokens + [begin], close, end - 1);
    assert InOrder(Made(first, end - 1).(cursor := end), tokens + [begin] + [close]);
    WholeSame(Made(Made(s.(cursor := end, braces := braces), s.cursor), end - 1).(queued := None),
              Made(first, end - 1).(cursor := end), tokens + [begin] + [close]);
  }

  /** A backtick string has at least its two backticks. */
  lemma WholeSpansTwo(v: Version, s: string, braces: seq<nat>)
    requires s != "" && Dispatch(v, s, braces).Lexed? && Dispatch(v, s, braces).token.InterpWhole?
    ensures 2 <= Dispatch(v, s, braces).length <= |s|
  {
    hide KeywordOf, NumberEnd, ShortEnd, LongEnd, LongLevel, SymbolAt, SpellSymbol;
  }

  /** In source order, each where it belongs. */
  predicate AttachedInOrder(comments: seq<Comment>, tokens: seq<Lexeme>) {
    && (forall i :: 0 <= i < |comments| ==> WellAttached(comments[i], tokens))
    && (forall i, j :: 0 <= i < j < |comments| ==> comments[i].end <= comments[j].start)
  }

  lemma {:induction false} AllInOrder(input: Input, s: State, tokens: seq<Lexeme>)
    requires InOrder(s, tokens) && s.cursor <= |input.source| && s.queued.None?
    ensures var (last, rest) := All(input, s); AttachedInOrder(last.comments, tokens + rest)
    decreases |input.source| - s.cursor
  {
    hide InOrder, AttachedInOrder, Dispatched, Made, TokensOf;
    var skipped := SkipBlanks(input, s);
    SkippedInOrder(input, s, tokens);
    if skipped.cursor == |input.source| {
      LastInOrder(skipped, tokens);
    } else {
      var (after, lexeme) := Dispatched(input, skipped);
      DispatchKeepsQueue(input, skipped);
      DispatchedInOrder(input, skipped, tokens);
      var made := TokensOf(lexeme, after.queued);
      var clear := after.(queued := None);
      AllInOrder(input, clear, tokens + made);
      var (last, rest) := All(input, clear);
      assert tokens + made + rest == tokens + (made + rest);
      AllUnfolds(input, s);
    }
  }

  lemma LastInOrder(s: State, tokens: seq<Lexeme>)
    requires InOrder(s, tokens)
    ensures AttachedInOrder(Made(s, s.cursor).comments, tokens + [EndOfFile(s.cursor)])
  {
    hide InOrder, WellAttached;
    MadeInOrder(s, tokens, EndOfFile(s.cursor), s.cursor);
  }

  // ----- the start of a source -----

  const BOM := "\U{00EF}\U{00BB}\U{00BF}"

  /** Behind a byte-order mark; a first line that starts with `#` is a comment. */
  function Start(input: Input): (s: State)
    ensures s.cursor <= |input.source| && s.queued.None?
  {
    var from := if BOM <= input.source then 3 else 0;
    var initial := State(from, None, [], [], [], [], 0, false, true);
    if from < |input.source| && input.source[from] == '#' then
      var end := LineEnd(input.source, from);
      initial.(cursor := end, waiting := [Waiting(from, end)])
    else initial
  }

  /** Over every source: the comments come out in source order, each leading one attached to the first
      token behind it, each trailing one to the last token before it, whichever way the tokens are read. */
  lemma CommentsAreAttached(input: Input)
    ensures var (last, tokens) := All(input, Start(input));
            && Drained(input, Start(input)) == (last, tokens)
            && AttachedInOrder(last.comments, tokens)
  {
    hide All, Drained, AttachedInOrder;
    assert InOrder(Start(input), []);
    DrainingIsTokenizing(input, Start(input));
    AllInOrder(input, Start(input), []);
    assert [] + All(input, Start(input)).1 == All(input, Start(input)).1;
  }

  // ----- the reader -----

  class Lexer {
    const input: Input
    var cursor: nat
    var queued: Option<Lexeme>
    var comments: seq<Comment>
    var waiting: seq<Waiting>
    var braces: seq<nat>
    var errors: seq<nat>
    var lastStart: nat
    var hasToken: bool
    var sawNewline: bool

    ghost predicate Valid()
      reads this
    {
      cursor <= |input.source|
    }

    ghost function Now(): State
      reads this
    {
      State(cursor, queued, comments, waiting, braces, errors, lastStart, hasToken, sawNewline)
    }

    constructor (input: Input)
      ensures Valid() && this.input == input && Now() == Start(input)
    {
      this.input := input;
      queued, comments, waiting, braces, errors := None, [], [], [], [];
      lastStart, hasToken, sawNewline := 0, false, true;
      cursor := 0;
      new;
      if BOM <= input.source {
        cursor := cursor + 3;
      }
      if cursor < |input.source| && input.source[cursor] == '#' {
        LexShebang();
      }
    }

    method LexShebang()
      requires Valid()
      modifies this
      ensures Valid()
      ensures var end := LineEnd(input.source, old(cursor));
              Now() == old(Now()).(cursor := end, waiting := old(waiting) + [Waiting(old(cursor), end)])
    {
      var start := cursor;
      while cursor < |input.source| && !IsBreak(input.source[cursor])
        invariant Valid() && start <= cursor && LineEnd(input.source, cursor) == LineEnd(input.source, start)
        invariant Now() == old(Now()).(cursor := cursor)
        decreases |input.source| - cursor
      {
        cursor := cursor + 1;
      }
      waiting := waiting + [Waiting(start, cursor)];
    }

    method HandleWhitespace()
      requires Valid()
      modifies this`cursor, this`sawNewline
      ensures Valid() && Now() == SkipBlanks(input, old(Now()))
    {
      while cursor < |input.source| && IsBlank(input.source[cursor])
        invariant Valid() && SkipBlanks(input, Now()) == SkipBlanks(input, old(Now()))
        decreases |input.source| - cursor
      {
        if IsBreak(input.source[cursor]) {
          sawNewline := true;
        }
        cursor := cursor + 1;
      }
    }

    /** Hands the waiting comments to the token that starts at `start`. */
    method MakeToken(start: nat)
      requires Valid()
      modifies this
      ensures Valid() && Now() == Made(old(Now()), start)
    {
      var drained: seq<Comment> := [];
      for i := 0 to |waiting|
        invariant Valid() && Now() == old(Now())
        invariant drained == Attached(waiting, start)[..i]
      {
        drained := drained + [Comment(waiting[i].start, waiting[i].end, true, start)];
      }
      assert Attached(waiting, start)[..|waiting|] == Attached(waiting, start);
      comments := comments + drained;
      waiting := [];
      lastStart := start;
      hasToken := true;
      sawNewline := false;
    }

    method LexComment(start: nat, end: nat)
      requires Valid()
      modifies this
      ensures Valid() && Now() == Noted(old(Now()), start, end)
    {
      if sawNewline || !hasToken {
        waiting := waiting + [Waiting(start, end)];
      } else {
        comments := comments + [Comment(start, end, false, lastStart)];
      }
    }

    method DispatchByte() returns (lexeme: Option<Lexeme>)
      requires Valid() && cursor < |input.source| && !IsBlank(input.source[cursor])
      modifies this
      ensures Valid() && (Now(), lexeme) == Dispatched(input, old(Now()))
    {
      hide Dispatch, Made, Noted;
      var text := input.source[cursor..];
      var at := cursor;
      lexeme := None;
      match Dispatch(input.version, text, braces) {
        case Malformed =>
          errors := errors + [at];
          braces := BracesBehind(text[0], braces);
          cursor := at + input.Resume(text);
        case Commented(length) =>
          cursor := at + Within(length, text);
          LexComment(at, cursor);
        case Lexed(token, length, after) =>
          var end := at + Within(length, text);
          cursor := end;
          braces := after;
          MakeToken(at);
          if token.InterpWhole? {
            MakeToken(end - 1);
            queued := Some(Piece(InterpEnd(token.text), end - 1, end));
            lexeme := Some(Piece(InterpBegin(""), at, end));
          } else {
            lexeme := Some(Piece(token, at, end));
          }
      }
    }

    method NextToken() returns (token: Lexeme)
      requires Valid()
      modifies this
      ensures Valid() && (Now(), token) == Next(input, old(Now()))
    {
      hide Dispatched, Made, SkipBlanks;
      if queued.Some? {
        token := queued.value;
        queued := None;
        return;
      }
      while true
        invariant Valid() && old(cursor) <= cursor && queued.None? && Next(input, Now()) == Next(input, old(Now()))
        decreases |input.source| - cursor
      {
        ghost var before := Now();
        HandleWhitespace();
        if cursor == |input.source| {
          token := EndOfFile(cursor);
          MakeToken(cursor);
          return;
        }
        ghost var skipped := Now();
        DispatchKeepsQueue(input, skipped);
        var lexeme := DispatchByte();
        if lexeme.Some? {
          token := lexeme.value;
          return;
        }
      }
    }

    /** One dispatch, the queue emptied at once. */
    method DispatchAll() returns (made: seq<Lexeme>)
      requires Valid() && cursor < |input.source| && !IsBlank(input.source[cursor]) && queued.None?
      modifies this
      ensures Valid() && queued.None?
      ensures var (after, lexeme) := Dispatched(input, old(Now()));
              old(cursor) < cursor && Now() == after.(queued := None) && made == TokensOf(lexeme, after.queued)
    {
      hide Dispatched;
      DispatchKeepsQueue(input, Now());
      var lexeme := DispatchByte();
      made := TokensOf(lexeme, queued);
      queued := None;
    }

    method Tokenize() returns (tokens: seq<Lexeme>)
      requires Valid() && queued.None?
      modifies this
      ensures Valid() && (Now(), tokens) == All(input, old(Now()))
    {
      hide Dispatched, Made, SkipBlanks, All, TokensOf;
      tokens := [];
      ghost var whole := All(input, Now());
      assert tokens + whole.1 == whole.1;
      while true
        invariant Valid() && queued.None?
        invariant whole.0 == All(input, Now()).0 && whole.1 == tokens + All(input, Now()).1
        decreases |input.source| - cursor
      {
        ghost var (before, start) := (tokens, Now());
        HandleWhitespace();
        if cursor == |input.source| {
          AllStarts(input, start);
          break;
        }
        AllUnfolds(input, start);
        var made := DispatchAll();
        tokens := tokens + made;
        assert before + (made + All(input, Now()).1) == tokens + All(input, Now()).1;
      }
      AllEnds(input, Now());
      tokens := tokens + [EndOfFile(cursor)];
      MakeToken(cursor);
    }
  }

  // ----- what a comment looks like -----

  /** The text of a comment that is not a long bracket: it goes on to the end of its line. */
  predicate RunsToLineEnd(text: string) { text != "" && (text[0] == '#' || LongLevel(text, 2).None?) }

  /** It starts with a `-`, or with the `#` of a first line, never ends with a `\r`, and, unless it is a long
      bracket, goes to the end of its line and no further. */
  predicate CommentAt(source: string, start: nat, end: nat) {
    && start < end <= |source| && (source[start] == '-' || source[start] == '#') && source[end - 1] != '\r'
    && (RunsToLineEnd(source[start..end]) ==>
          !HasBreak(source[start..end]) && (end == |source| || IsBreak(source[end])))
  }

  predicate CommentsAt(source: string, s: State) {
    && (forall i :: 0 <= i < |s.comments| ==> CommentAt(source, s.comments[i].start, s.comments[i].end))
    && (forall i :: 0 <= i < |s.waiting| ==> CommentAt(source, s.waiting[i].start, s.waiting[i].end))
  }

  lemma {:induction false} LineEndShape(s: string, i: nat)
    requires i <= |s|
    ensures LineEnd(s, i) > i ==> !IsBreak(s[LineEnd(s, i) - 1])
    ensures LineEnd(s, i) < |s| ==> IsBreak(s[LineEnd(s, i)])
    ensures forall k :: i <= k < LineEnd(s, i) ==> !IsBreak(s[k])
    decreases |s| - i
  {
    if i < |s| && !IsBreak(s[i]) {
      LineEndShape(s, i + 1);
    }
  }

  lemma {:induction false} LongEndShape(s: string, i: nat, level: nat)
    requires LongEnd(s, i, level).Some?
    ensures 0 < LongEnd(s, i, level).value <= |s| && s[LongEnd(s, i, level).value - 1] == ']'
    decreases |s| - i
  {
    if !(s[i] == ']' && RunEnd(Equals, s, i + 1) == i + 1 + level && CharAt(s, i + 1 + level) == ']') {
      LongEndShape(s, i + 1, level);
    }
  }

  /** The text of a comment tells whether it is a long bracket. */
  lemma BracketShows(s: string)
    requires 2 <= |s| && s[0] == '-' && CommentEnd(s).Some?
    ensures RunsToLineEnd(s[..CommentEnd(s).value]) <==> LongLevel(s, 2).None?
  {
    hide LineEnd;
    var end := CommentEnd(s).value;
    var text := s[..end];
    if LongLevel(s, 2).Some? {
      var level := LongLevel(s, 2).value;
      assert level + 4 < end;
      assert forall k :: 3 <= k < 3 + level ==> Equals.Has(s[k]) && text[k] == s[k];
      RunStops(Equals, text, 3, 3 + level);
      assert text[2] == '[' && text[3 + level] == s[3 + level] == '[';
    } else if LongLevel(text, 2).Some? {
      var level := LongLevel(text, 2).value;
      assert forall k :: 3 <= k < 3 + level ==> Equals.Has(text[k]) && text[k] == s[k];
      RunStops(Equals, s, 3, 3 + level);
    }
  }

  lemma {:induction false} RunStops(cls: CharClass, s: string, i: nat, end: nat)
    requires i <= end < |s| && !cls.Has(s[end])
    requires forall k :: i <= k < end ==> cls.Has(s[k])
    ensures RunEnd(cls, s, i) == end
    decreases end - i
  {
    if i < end {
      RunStops(cls, s, i + 1, end);
    }
  }

  lemma CommentShape(s: string)
    requires 2 <= |s| && s[0] == '-' && s[1] == '-' && CommentEnd(s).Some?
    ensures CommentAt(s, 0, CommentEnd(s).value)
  {
    hide LongLevel, LongEnd, LineEnd;
    BracketShows(s);
    var level := LongLevel(s, 2);
    if level.Some? {
      LongEndShape(s, level.value + 4, level.value);
    } else {
      LineEndShape(s, 2);
    }
  }

  lemma MadeAt(source: string, s: State, start: nat)
    requires CommentsAt(source, s)
    ensures CommentsAt(source, Made(s, start))
  {
    hide CommentAt;
    var r := Made(s, start);
    forall i | 0 <= i < |r.comments|
      ensures CommentAt(source, r.comments[i].start, r.comments[i].end)
    {
      assert i >= |s.comments| ==> r.comments[i] == Attached(s.waiting, start)[i - |s.comments|];
    }
  }

  lemma DispatchedAt(input: Input, s: State)
    requires s.cursor < |input.source| && !IsBlank(input.source[s.cursor]) && CommentsAt(input.source, s)
    ensures CommentsAt(input.source, Dispatched(input, s).0)
  {
    hide Dispatch, Made, CommentAt;
    var text, at := input.Rest(s.cursor), s.cursor;
    match Dispatch(input.version, text, s.braces)
    case Malformed =>
    case Commented(length) =>
      DispatchedComment(input.version, text, s.braces);
      var end := at + Within(length, text);
      assert CommentAt(input.source, at, end) by {
        CommentMoves(input.source, at, Within(length, text));
      }
    case Lexed(token, length, braces) =>
      var end := at + Within(length, text);
      var moved := s.(cursor := end, braces := braces);
      MadeAt(input.source, moved, at);
      MadeAt(input.source, Made(moved, at), end - 1);
  }

  lemma NoOtherComment(v: Version, s: string, braces: seq<nat>)
    requires s != "" && Dispatch(v, s, braces).Commented?
    ensures 2 <= |s| && s[0] == '-' && s[1] == '-' && CommentEnd(s).Some?
    ensures Dispatch(v, s, braces) == Commented(CommentEnd(s).value)
  {
    hide ShortEnd, CommentEnd, LongEnd, LongLevel, Segment, NumberEnd, RunEnd, SymbolAt, KeywordOf;
  }

  lemma DispatchedComment(v: Version, s: string, braces: seq<nat>)
    requires s != "" && Dispatch(v, s, braces).Commented?
    ensures CommentAt(s, 0, Within(Dispatch(v, s, braces).length, s))
  {
    hide WordStep, NumberStep, StringStep, InterpStep, ShortEnd, CommentEnd, LongEnd, LongLevel;
    NoOtherComment(v, s, braces);
    assert CharAt(s, 1) == s[1];
    CommentShape(s);
  }

  lemma CommentMoves(source: string, at: nat, length: nat)
    requires at <= |source| && CommentAt(source[at..], 0, length)
    ensures CommentAt(source, at, at + length)
  {
    assert source[at..][length - 1] == source[at + length - 1];
    assert source[at..][0..length] == source[at..at + length];
  }

  lemma {:induction false} AllCommentsAt(input: Input, s: State)
    requires s.cursor <= |input.source| && CommentsAt(input.source, s)
    ensures forall i :: 0 <= i < |All(input, s).0.comments| ==>
              CommentAt(input.source, All(input, s).0.comments[i].start, All(input, s).0.comments[i].end)
    decreases |input.source| - s.cursor
  {
    hide Dispatched, Made, CommentAt;
    var skipped := SkipBlanks(input, s);
    if skipped.cursor == |input.source| {
      MadeAt(input.source, skipped, skipped.cursor);
    } else {
      DispatchedAt(input, skipped);
      var (after, lexeme) := Dispatched(input, skipped);
      AllCommentsAt(input, if lexeme.None? then after else after.(queued := None));
    }
  }

  /** Over every source: each comment is a stretch of it that starts like one. */
  lemma CommentsLookIt(input: Input)
    ensures CommentsAt(input.source, Start(input))
    ensures var comments := All(input, Start(input)).0.comments;
            forall i :: 0 <= i < |comments| ==> CommentAt(input.source, comments[i].start, comments[i].end)
  {
    hide All;
    var from := if BOM <= input.source then 3 else 0;
    if from < |input.source| && input.source[from] == '#' {
      LineEndShape(input.source, from);
    }
    AllCommentsAt(input, Start(input));
  }
}
