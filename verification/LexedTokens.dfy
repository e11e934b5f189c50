/** The stateful reader and the reading of a whole text agree: without errors, the lexer's lexemes are the
    tokens that `Lex` gives. */
module LexedTokens {
  import opened Wrappers
  import opened LuaSyntax
  import opened Scanner
  import opened Lexing
  import SourceTokens

  /** The two lexemes of a plain backtick string, told by their overlapping spans. */
  predicate IsWhole(a: Lexeme, b: Lexeme) {
    a.Piece? && b.Piece? && a.token.InterpBegin? && b.token.InterpEnd? && b.start < a.end
  }

  /** The tokens of a run of lexemes that ends with the end of the file. */
  function Bare(ls: seq<Lexeme>): Tokens
    decreases |ls|
  {
    if ls == [] || ls[0].EndOfFile? then Eof
    else if |ls| >= 2 && IsWhole(ls[0], ls[1]) then Tok(InterpWhole(ls[1].token.text), Bare(ls[2..]))
    else Tok(ls[0].token, Bare(ls[1..]))
  }

  // ----- lengths -----

  lemma SymbolLength(v: Version, s: string)
    requires s != "" && SymbolAt(v, s[0], CharAt(s, 1), CharAt(s, 2)).Some?
    ensures 1 <= |SpellSymbol(SymbolAt(v, s[0], CharAt(s, 1), CharAt(s, 2)).value)| <= |s|
  {
  }

  lemma {:induction false} NumberLength(v: Version, s: string)
    requires s != "" && (IsDigit(s[0]) || (s[0] == '.' && IsDigit(CharAt(s, 1)))) && NumberEnd(v, s).Some?
    ensures 1 <= NumberEnd(v, s).value
  {
    hide RunEnd, IntegerSuffix, ExponentEnd, InRange;
    if CharAt(s, 0) == '0' && (CharAt(s, 1) == 'x' || CharAt(s, 1) == 'X') {
      HexLength(v, s);
    } else if v.Luau? && CharAt(s, 0) == '0' && (CharAt(s, 1) == 'b' || CharAt(s, 1) == 'B') {
      SourceTokens.SuffixRises(v, s, 2, RunEnd(Bits, s, 2), 2);
    } else {
      DecimalLength(v, s);
    }
  }

  lemma HexLength(v: Version, s: string)
    requires HexEnd(v, s).Some?
    ensures 2 <= HexEnd(v, s).value
  {
    hide RunEnd, IntegerSuffix, ExponentEnd, HasDigitsUpTo;
    var whole := RunEnd(Hexes(v.Luau?), s, 2);
    if HasHexFloats(v) {
      var fraction := if CharAt(s, whole) == '.' then RunEnd(Hexes(false), s, whole + 1) else whole;
      SourceTokens.ExponentRises(v, s, fraction, 'p', 'P');
    } else {
      SourceTokens.SuffixRises(v, s, 2, whole, 16);
    }
  }

  lemma DecimalLength(v: Version, s: string)
    requires s != "" && (IsDigit(s[0]) || (s[0] == '.' && IsDigit(CharAt(s, 1)))) && DecimalEnd(v, s).Some?
    ensures 1 <= DecimalEnd(v, s).value
  {
    var cls := Decimals(v.Luau?);
    var whole := RunEnd(cls, s, 0);
    assert whole >= 1 || (CharAt(s, whole) == '.' && RunEnd(cls, s, 1) >= 1);
    hide RunEnd, IntegerSuffix, ExponentEnd;
    var fraction := if CharAt(s, whole) == '.' && TakesDot(CharAt(s, whole + 1)) then RunEnd(cls, s, whole + 1)
      else whole;
    SourceTokens.ExponentRises(v, s, fraction, 'e', 'E');
    SourceTokens.SuffixRises(v, s, 0, ExponentEnd(v, s, fraction, 'e', 'E').value, 10);
  }

  lemma DispatchLength(v: Version, s: string, braces: seq<nat>)
    requires s != ""
    ensures var step := Dispatch(v, s, braces);
            (step.Lexed? || step.Commented?) ==> 1 <= step.length <= |s|
  {
    hide KeywordOf, NumberEnd, ShortEnd, LongEnd, LongLevel, SymbolAt, SpellSymbol, Segment;
    var c := s[0];
    if IsDigit(c) || (c == '.' && IsDigit(CharAt(s, 1))) {
      if NumberEnd(v, s).Some? {
        NumberLength(v, s);
      }
    } else if IsAlpha(c) || c == '_' {
      assert RunEnd(WordChars, s, 0) >= 1;
    } else if SymbolAt(v, s[0], CharAt(s, 1), CharAt(s, 2)).Some? {
      SymbolLength(v, s);
    }
  }

  // ----- blanks -----

  lemma {:induction false} SkipIsRun(input: Input, s: State)
    requires s.cursor <= |input.source|
    ensures RunEnd(Blanks, input.source, s.cursor) == SkipBlanks(input, s).cursor
    decreases |input.source| - s.cursor
  {
    if s.cursor < |input.source| && IsBlank(input.source[s.cursor]) {
      SkipIsRun(input, s.(cursor := s.cursor + 1, sawNewline := s.sawNewline || IsBreak(input.source[s.cursor])));
    }
  }

  lemma {:induction false} RunInRest(s: string, from: nat, i: nat)
    requires from + i <= |s|
    ensures RunEnd(Blanks, s, from + i) == from + RunEnd(Blanks, s[from..], i)
    decreases |s| - from - i
  {
    if from + i < |s| && IsBlank(s[from + i]) {
      RunInRest(s, from, i + 1);
    }
  }

  // ----- the whole text -----

  /** Errors are only ever added. */
  lemma {:induction false} ErrorsStay(input: Input, s: State)
    requires s.cursor <= |input.source|
    ensures |s.errors| <= |All(input, s).0.errors|
    decreases |input.source| - s.cursor
  {
    hide Dispatch;
    var skipped := SkipBlanks(input, s);
    if skipped.cursor < |input.source| {
      var (after, lexeme) := Dispatched(input, skipped);
      assert |s.errors| <= |after.errors|;
      ErrorsStay(input, if lexeme.None? then after else after.(queued := None));
    }
  }

  lemma StepOfDispatched(input: Input, s: State)
    requires s.cursor < |input.source| && !IsBlank(input.source[s.cursor]) && s.queued.None?
    ensures var (after, lexeme) := Dispatched(input, s);
            var text := input.Rest(s.cursor);
            match Dispatch(input.version, text, s.braces)
            case Malformed => lexeme.None? && |after.errors| > |s.errors|
            case Commented(length) =>
              && lexeme.None? && after.cursor == s.cursor + length <= |input.source| && after.braces == s.braces
              && after.errors == s.errors
            case Lexed(token, length, braces) =>
              && lexeme.Some? && lexeme.value.Piece? && after.errors == s.errors
              && after.cursor == s.cursor + length <= |input.source| && after.braces == braces
              && (if token.InterpWhole?
                  then after.queued.Some? && IsWhole(lexeme.value, after.queued.value)
                    && after.queued.value.token.text == token.text
                  else after.queued.None? && lexeme.value.token == token && lexeme.value.end == after.cursor)
  {
    hide Dispatch;
    var text := input.Rest(s.cursor);
    DispatchLength(input.version, text, s.braces);
    if Dispatch(input.version, text, s.braces).Lexed? && Dispatch(input.version, text, s.braces).token.InterpWhole? {
      WholeSpansTwo(input.version, text, s.braces);
    }
  }

  /** Lexemes start at or behind the place they are read from. */
  lemma {:induction false} StartsBehind(input: Input, s: State)
    requires s.cursor <= |input.source| && s.queued.None?
    ensures var ls := All(input, s).1; ls != [] && ls[0].start >= s.cursor
    decreases |input.source| - s.cursor
  {
    hide Dispatch, Dispatched, TokensOf;
    var skipped := SkipBlanks(input, s);
    if skipped.cursor < |input.source| {
      AllUnfolds(input, s);
      var (after, lexeme) := Dispatched(input, skipped);
      DispatchKeepsQueue(input, skipped);
      FirstStart(input, skipped);
      if lexeme.None? {
        StartsBehind(input, after);
      }
    }
  }

  lemma FirstStart(input: Input, s: State)
    requires s.cursor < |input.source| && !IsBlank(input.source[s.cursor]) && s.queued.None?
    ensures var (after, lexeme) := Dispatched(input, s);
            && (lexeme.Some? ==>
                  TokensOf(lexeme, after.queued) != [] && TokensOf(lexeme, after.queued)[0].start == s.cursor)
            && (lexeme.None? ==> TokensOf(lexeme, after.queued) == [] && after.(queued := None) == after)
  {
    hide Dispatch;
  }

  /** The text has tokens if and only if the lexer records no error in it, and then they are its lexemes. */
  lemma {:induction false} LexemesAreTokens(input: Input, s: State)
    requires s.cursor <= |input.source| && s.queued.None?
    ensures Lex(input.version, input.source[s.cursor..], s.braces)
            == if |All(input, s).0.errors| == |s.errors| then Some(Bare(All(input, s).1)) else None
    decreases |input.source| - s.cursor
  {
    hide Dispatch, Dispatched, TokensOf, SkipBlanks, All, RunEnd, Bare, Lex, IsWhole;
    var skipped := SkipBlanks(input, s);
    SkipIsRun(input, s);
    RunInRest(input.source, s.cursor, 0);
    var text := input.source[s.cursor..];
    var i := skipped.cursor - s.cursor;
    assert i == RunEnd(Blanks, text, 0);
    if skipped.cursor == |input.source| {
      LexEnds(input.version, text, s.braces);
      AllStarts(input, s);
      AllEnds(input, skipped);
      EndIsBare(skipped.cursor);
    } else {
      AllUnfolds(input, s);
      StepOfDispatched(input, skipped);
      FirstStart(input, skipped);
      var (after, lexeme) := Dispatched(input, skipped);
      var next := after.(queued := None);
      ErrorsStay(input, next);
      StartsBehind(input, next);
      assert text[i..] == input.Rest(skipped.cursor);
      match Dispatch(input.version, text[i..], s.braces)
      case Malformed => LexStops(input.version, text, i, s.braces);
      case Commented(length) =>
        LexPastComment(input.version, text, i, s.braces, length);
        assert text[i + length..] == input.source[next.cursor..];
        LexemesAreTokens(input, next);
        assert TokensOf(lexeme, after.queued) + All(input, next).1 == All(input, next).1;
      case Lexed(token, length, braces) =>
        LexPastToken(input.version, text, i, s.braces, token, length, braces);
        assert text[i + length..] == input.source[next.cursor..];
        LexemesAreTokens(input, next);
        BareStep(lexeme.value, after.queued, All(input, next).1);
    }
  }

  lemma LexEnds(v: Version, s: string, braces: seq<nat>)
    requires RunEnd(Blanks, s, 0) == |s|
    ensures Lex(v, s, braces) == Some(Eof)
  {
    hide RunEnd;
  }

  lemma LexStops(v: Version, s: string, i: nat, braces: seq<nat>)
    requires i == RunEnd(Blanks, s, 0) < |s| && Dispatch(v, s[i..], braces).Malformed?
    ensures Lex(v, s, braces) == None
  {
    hide RunEnd, Dispatch;
  }

  lemma LexPastComment(v: Version, s: string, i: nat, braces: seq<nat>, length: nat)
    requires i == RunEnd(Blanks, s, 0) < |s| && Dispatch(v, s[i..], braces) == Commented(length)
    ensures 1 <= length <= |s| - i && Lex(v, s, braces) == Lex(v, s[i + length..], braces)
  {
    hide RunEnd, Dispatch;
    DispatchLength(v, s[i..], braces);
  }

  lemma LexPastToken(v: Version, s: string, i: nat, braces: seq<nat>, token: Token, length: nat, after: seq<nat>)
    requires i == RunEnd(Blanks, s, 0) < |s| && Dispatch(v, s[i..], braces) == Lexed(token, length, after)
    ensures 1 <= length <= |s| - i
    ensures var rest := Lex(v, s[i + length..], after);
            Lex(v, s, braces) == if rest.None? then None else Some(Tok(token, rest.value))
  {
    hide RunEnd, Dispatch;
    DispatchLength(v, s[i..], braces);
  }

  lemma EndIsBare(at: nat)
    ensures Bare([EndOfFile(at)]) == Eof
  {
  }

  lemma BareStep(lexeme: Lexeme, queued: Option<Lexeme>, rest: seq<Lexeme>)
    requires lexeme.Piece? && rest != []
    requires queued.Some? ==> IsWhole(lexeme, queued.value)
    requires queued.None? ==> lexeme.end <= rest[0].start
    ensures Bare(TokensOf(Some(lexeme), queued) + rest)
         == Tok(if queued.Some? then InterpWhole(queued.value.token.text) else lexeme.token, Bare(rest))
  {
    var ls := TokensOf(Some(lexeme), queued) + rest;
    if queued.Some? {
      assert ls[2..] == rest;
    } else {
      assert ls == [lexeme] + rest && ls[1..] == rest && ls[1] == rest[0];
    }
  }
}
