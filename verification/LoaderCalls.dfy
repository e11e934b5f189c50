/** What a rewritten require says (`emitter.rs`): read back, its text is one call of the loader, and the
    argument leads to the module the require stands for. */
module LoaderCalls {
  import opened Wrappers
  import opened LuaSyntax
  import opened Emission
  import opened Grammar
  import opened CanonicalForm
  import opened Scanner
  import opened Spacing
  import opened Relex
  import opened Discovery
  import opened Splicing
  import LexedTokens
  import Literals
  import SourceLines
  import RoundTrip

  // ----- the numbers -----

  predicate Digits(s: string) { s != "" && forall k :: 0 <= k < |s| ==> IsDigit(s[k]) }

  /** A slot number is written so that it reads as itself. */
  lemma {:induction false} DecimalReads(n: nat)
    ensures Digits(Decimal(n)) && Value(Decimal(n), 10) == n
    ensures |Decimal(n)| > 1 ==> Decimal(n)[0] != '0'
  {
    var last := [('0' as int + n % 10) as char];
    assert DigitValue(last[0]) == n % 10;
    if n < 10 {
      assert last[..0] == "";
      assert Value(last, 10) == Value(last[..0], 10) * 10 + n % 10;
    } else {
      DecimalReads(n / 10);
      var more := Decimal(n / 10);
      assert Decimal(n)[..|Decimal(n)| - 1] == more;
    }
  }

  lemma {:induction false} AllDigitsRun(cls: CharClass, s: string, i: nat)
    requires Digits(s) && i <= |s| && cls.Decimals?
    ensures RunEnd(cls, s, i) == |s|
    decreases |s| - i
  {
    if i < |s| {
      AllDigitsRun(cls, s, i + 1);
    }
  }

  lemma DigitsAreNumeral(v: Version, s: string)
    requires Digits(s) && (|s| > 1 ==> s[0] != '0')
    ensures IsNumeral(v, s)
  {
    hide RunEnd;
    AllDigitsRun(Decimals(v.Luau?), s, 0);
    assert CharAt(s, |s|) == '\0' && CharAt(s, |s| + 1) == '\0';
    assert |s| == 1 ==> CharAt(s, 1) == '\0';
  }

  // ----- the text, read -----

  function ArgumentToken(a: Argument): Token
    requires Writable(a)
  {
    match a
    case Slot(_) => Numeral(ArgumentText(a))
    case Name(_) => Quoted(ArgumentText(a))
  }

  predicate Writable(a: Argument) { a.Name? ==> Literals.AllBytes(a.name) }

  function Loader(prefix: string): string { prefix + "require" }

  function CallTokens(prefix: string, a: Argument, k: Tokens): Tokens
    requires Writable(a)
  {
    Tok(Identifier(Loader(prefix)), Tok(Sign(LeftParen), Tok(ArgumentToken(a), Tok(Sign(RightParen), k))))
  }

  predicate IsPrefixText(prefix: string) {
    prefix != "" && prefix[0] == '_' && forall k :: 0 <= k < |prefix| ==> IsWordChar(prefix[k])
  }

  lemma CandidateIsPrefix(n: nat)
    ensures IsPrefixText(Candidate(n))
  {
    DecimalReads(n);
    var candidate := Candidate(n);
    if n > 0 {
      assert candidate == "__luck" + Decimal(n) + "_";
      forall k | 0 <= k < |candidate|
        ensures IsWordChar(candidate[k])
      {
        assert 6 <= k < |candidate| - 1 ==> candidate[k] == Decimal(n)[k - 6];
      }
    }
  }

  lemma LoaderIsName(v: Version, prefix: string, word: string)
    requires IsPrefixText(prefix) && forall k :: 0 <= k < |word| ==> IsWordChar(word[k])
    ensures IsName(v, prefix + word)
  {
    var name := prefix + word;
    assert name[0] == '_';
    NoKeyword(v, name);
  }

  lemma NoKeyword(v: Version, name: string)
    requires name != "" && name[0] == '_'
    ensures KeywordOf(v, name).None?
  {
  }

  lemma ArgumentSpells(v: Version, a: Argument)
    requires Writable(a)
    ensures Spellable(v, ArgumentToken(a)) && Spell(ArgumentToken(a)) == ArgumentText(a)
  {
    match a
    case Slot(slot) =>
      DecimalReads(slot);
      DigitsAreNumeral(v, Decimal(slot));
    case Name(name) => Literals.QuoteIsOneToken(v, Literals.QuoteLuaString, name);
  }

  predicate AllBlank(s: string) { forall k :: 0 <= k < |s| ==> IsBlank(s[k]) }

  /** One token, behind blanks, at the front of a text. */
  lemma LexFront(v: Version, gap: string, t: Token, rest: string, braces: seq<nat>)
    requires AllBlank(gap) && Spellable(v, t) && Loose(v, t, CharAt(rest, 0))
    requires BracesAllow(braces, t) && BracesAfter(braces, t) == braces
    ensures Lex(v, gap + (Spell(t) + rest), braces)
            == var after := Lex(v, rest, braces); if after.None? then None else Some(Tok(t, after.value))
  {
    hide Dispatch, Lex, Spell, Loose, BracesAllow, BracesAfter, Spellable, RunEnd;
    var front := Spell(t) + rest;
    var s := gap + front;
    TokenLexes(v, t, rest, braces);
    TokenStart(v, t);
    BlanksRun(gap, front, 0);
    assert s[|gap|..] == front && front[|Spell(t)|..] == rest;
    assert s[|gap| + |Spell(t)|..] == rest;
    LexedTokens.LexPastToken(v, s, |gap|, braces, t, |Spell(t)|, braces);
  }

  lemma {:induction false} BlanksRun(gap: string, rest: string, i: nat)
    requires AllBlank(gap) && i <= |gap| && rest != "" && !IsBlank(rest[0])
    ensures RunEnd(Blanks, gap + rest, i) == |gap|
    decreases |gap| - i
  {
    if i < |gap| {
      BlanksRun(gap, rest, i + 1);
    }
  }

  lemma {:induction false} TimesAreBlank(n: nat)
    ensures |Times('\n', n)| == n && AllBlank(Times('\n', n)) && (n > 0 ==> Times('\n', n)[0] == '\n')
  {
    if n > 0 {
      TimesAreBlank(n - 1);
    }
  }

  lemma LexNext(v: Version, t: Token, rest: string, braces: seq<nat>)
    requires Spellable(v, t) && Loose(v, t, CharAt(rest, 0)) && BracesAllow(braces, t)
             && BracesAfter(braces, t) == braces
    ensures Lex(v, Spell(t) + rest, braces)
            == var after := Lex(v, rest, braces); if after.None? then None else Some(Tok(t, after.value))
  {
    hide Lex, Spell, Spellable, Loose, BracesAfter, BracesAllow;
    LexFront(v, "", t, rest, braces);
    assert "" + (Spell(t) + rest) == Spell(t) + rest;
  }

  function Closing(newlines: nat, rest: string): string { Times('\n', newlines) + (")" + rest) }

  lemma CallPieces(prefix: string, argument: string, newlines: nat, rest: string)
    ensures CallText(prefix, argument, newlines) + rest
            == Loader(prefix) + ("(" + (argument + Closing(newlines, rest)))
  {
    hide Times;
  }

  /** From the argument on. */
  lemma ArgumentLexes(v: Version, a: Argument, newlines: nat, rest: string, braces: seq<nat>)
    requires Writable(a)
    ensures Lex(v, ArgumentText(a) + Closing(newlines, rest), braces)
            == var after := Lex(v, rest, braces);
               if after.None? then None else Some(Tok(ArgumentToken(a), Tok(Sign(RightParen), after.value)))
  {
    hide Lex, Spell, Spellable, Loose, ArgumentText, BracesAfter, BracesAllow, Times;
    var close := Closing(newlines, rest);
    ArgumentSpells(v, a);
    FourFronts(v, "", a, braces);
    TimesAreBlank(newlines);
    assert close[0] == (if newlines == 0 then ')' else '\n');
    ArgumentIsLoose(v, a, CharAt(close, 0));
    ParenIsLoose(v, "", ' ', CharAt(rest, 0));
    LexFront(v, Times('\n', newlines), Sign(RightParen), rest, braces);
    LexNext(v, ArgumentToken(a), close, braces);
  }

  /** Wherever it stands, a rewritten require is read as these four tokens. */
  lemma CallLexes(v: Version, prefix: string, a: Argument, newlines: nat, rest: string, braces: seq<nat>)
    requires IsPrefixText(prefix) && Writable(a)
    ensures Lex(v, CallText(prefix, ArgumentText(a), newlines) + rest, braces)
            == var after := Lex(v, rest, braces); if after.None? then None else Some(CallTokens(prefix, a, after.value))
  {
    hide Lex, Spell, Spellable, Loose, ArgumentText, IsName, BracesAfter, BracesAllow, Closing, CallText;
    var name, tail := Loader(prefix), ArgumentText(a) + Closing(newlines, rest);
    LoaderIsName(v, prefix, "require");
    FourFronts(v, prefix, a, braces);
    ParenIsLoose(v, name, CharAt(tail, 0), ' ');
    CallPieces(prefix, ArgumentText(a), newlines, rest);
    ArgumentLexes(v, a, newlines, rest, braces);
    LexNext(v, Sign(LeftParen), tail, braces);
    LexNext(v, Identifier(name), "(" + tail, braces);
  }

  lemma FourFronts(v: Version, prefix: string, a: Argument, braces: seq<nat>)
    requires Writable(a)
    ensures BracesAllow(braces, Identifier(Loader(prefix))) && BracesAfter(braces, Identifier(Loader(prefix))) == braces
    ensures BracesAllow(braces, Sign(LeftParen)) && BracesAfter(braces, Sign(LeftParen)) == braces
    ensures BracesAllow(braces, ArgumentToken(a)) && BracesAfter(braces, ArgumentToken(a)) == braces
    ensures BracesAllow(braces, Sign(RightParen)) && BracesAfter(braces, Sign(RightParen)) == braces
  {
  }

  lemma ArgumentIsLoose(v: Version, a: Argument, c: char)
    requires Writable(a) && (c == ')' || c == '\n')
    ensures Loose(v, ArgumentToken(a), c)
  {
  }

  lemma ParenIsLoose(v: Version, name: string, c: char, d: char)
    ensures Loose(v, Sign(LeftParen), c) && Loose(v, Sign(RightParen), d) && Loose(v, Identifier(name), '(')
    ensures Spellable(v, Sign(LeftParen)) && Spellable(v, Sign(RightParen))
    ensures Spell(Sign(LeftParen)) == "(" && Spell(Sign(RightParen)) == ")" && Spell(Identifier(name)) == name
    ensures IsName(v, name) ==> Spellable(v, Identifier(name))
  {
  }

  // ----- the other rewrites, read -----

  /** The tokens a rewrite puts in front of what follows it. */
  function TokensFor(prefix: string, w: Rewrite, k: Tokens): Tokens
    requires w.StaticCall? ==> Writable(w.argument)
  {
    match w
    case StaticCall(_, _, argument) => CallTokens(prefix, argument, k)
    case DynamicCallee(_, _) => Tok(Identifier(prefix + "dynamic"), k)
    case DroppedExport(_) => k
    case LocalExport(_) => Tok(Word(KwLocal), k)
    case AttributedHead(_, _) => Tok(Word(KwLocal), Tok(Word(KwFunction), k))
  }

  /** Wherever it stands, a rewrite is read as its tokens. `rest` is what follows, and goes on with none of
      them; a head ends with the blank it is written with. */
  lemma RewriteLexes(v: Version, source: string, prefix: string, w: Rewrite, rest: string, braces: seq<nat>)
    requires IsPrefixText(prefix) && Recorded(source, w)
    requires w.DynamicCallee? || w.LocalExport? ==> !IsWordChar(CharAt(rest, 0))
    requires w.AttributedHead? ==> rest != "" && rest[0] == ' '
    ensures var text := if w.AttributedHead? then "\nlocal function" else TextFor(source, prefix, w);
            Lex(v, text + rest, braces)
            == var after := Lex(v, rest, braces); if after.None? then None else Some(TokensFor(prefix, w, after.value))
    ensures w.AttributedHead? ==> TextFor(source, prefix, w) == "\nlocal function" + " "
  {
    hide Lex, CallText, ArgumentText, BracesAllow, BracesAfter, SourceLines.Newlines, IsName, KeywordOf, CallTokens;
    hide Spell, Spellable, Loose;
    match w
    case StaticCall(from, to, argument) =>
      CallLexes(v, prefix, argument, SourceLines.Newlines(source[from..to]), rest, braces);
    case DynamicCallee(_, _) =>
      LoaderIsName(v, prefix, "dynamic");
      NameLexes(v, prefix + "dynamic", rest, braces);
    case DroppedExport(_) => assert "" + rest == rest;
    case LocalExport(_) =>
      WordLexes(v, "", KwLocal, rest, braces);
      assert "" + ("local" + rest) == "local" + rest;
    case AttributedHead(_, _) =>
      HeadLexes(v, rest, braces);
  }

  lemma HeadLexes(v: Version, rest: string, braces: seq<nat>)
    requires rest != "" && rest[0] == ' '
    ensures Lex(v, "\nlocal function" + rest, braces)
            == var after := Lex(v, rest, braces);
               if after.None? then None else Some(Tok(Word(KwLocal), Tok(Word(KwFunction), after.value)))
  {
    hide Lex;
    WordLexes(v, " ", KwFunction, rest, braces);
    WordLexes(v, "\n", KwLocal, " " + ("function" + rest), braces);
    assert "\nlocal function" + rest == "\n" + ("local" + (" " + ("function" + rest)));
  }

  lemma NameLexes(v: Version, name: string, rest: string, braces: seq<nat>)
    requires IsName(v, name) && !IsWordChar(CharAt(rest, 0))
    ensures Lex(v, name + rest, braces)
            == var after := Lex(v, rest, braces); if after.None? then None else Some(Tok(Identifier(name), after.value))
  {
    hide Lex, BracesAllow, BracesAfter, IsName;
    PlainBraces(braces, Identifier(name));
    LexNext(v, Identifier(name), rest, braces);
  }

  lemma WordLexes(v: Version, gap: string, word: Keyword, rest: string, braces: seq<nat>)
    requires (word == KwLocal || word == KwFunction) && AllBlank(gap) && !IsWordChar(CharAt(rest, 0))
    ensures SpellKeyword(word) == if word == KwLocal then "local" else "function"
    ensures Lex(v, gap + (SpellKeyword(word) + rest), braces)
            == var after := Lex(v, rest, braces); if after.None? then None else Some(Tok(Word(word), after.value))
  {
    hide Lex, BracesAllow, BracesAfter;
    PlainBraces(braces, Word(word));
    LexFront(v, gap, Word(word), rest, braces);
  }

  lemma PlainBraces(braces: seq<nat>, t: Token)
    requires t.Identifier? || t.Word?
    ensures BracesAllow(braces, t) && BracesAfter(braces, t) == braces
  {
  }

  // ----- the argument, handed over -----

  /** The expression that a rewritten require is. */
  function CallExpr(prefix: string, a: Argument): Expr
    requires Writable(a)
  {
    var argument := if a.Slot? then Number(ArgumentText(a)) else StringLit(ArgumentText(a));
    Call(LuaSyntax.Name(Loader(prefix)), None, ParenArgs(MoreExprs(argument, NoExprs)))
  }

  lemma CallParses(v: Version, prefix: string, a: Argument, k: Tokens)
    requires Writable(a) && RoundTrip.StopsAt(v, k)
    ensures ParseExpr(v, 0, CallTokens(prefix, a, k)) == Ok(CallExpr(prefix, a), k)
  {
    hide ParseExpr, ArgumentText, RoundTrip.StopsAt;
    CallIsCanonical(v, prefix, a);
    CallEmits(prefix, a, k);
    RoundTrip.WholeReads(v, CallExpr(prefix, a), k);
  }

  lemma CallIsCanonical(v: Version, prefix: string, a: Argument)
    requires Writable(a)
    ensures Canonical(v, v.HasEmptyStatement(), CallExpr(prefix, a))
  {
    hide ArgumentText;
    var settled := v.HasEmptyStatement();
    var argument := if a.Slot? then Number(ArgumentText(a)) else StringLit(ArgumentText(a));
    assert Canonical(v, settled, argument) && CanonicalExprs(v, settled, NoExprs);
    assert CanonicalExprs(v, settled, MoreExprs(argument, NoExprs));
    assert CanonicalArgs(v, settled, ParenArgs(MoreExprs(argument, NoExprs)));
    assert Canonical(v, settled, LuaSyntax.Name(Loader(prefix)));
  }

  lemma CallEmits(prefix: string, a: Argument, k: Tokens)
    requires Writable(a)
    ensures EmitExpr(CallExpr(prefix, a), k) == CallTokens(prefix, a, k)
  {
    hide ArgumentText;
    var argument := if a.Slot? then Number(ArgumentText(a)) else StringLit(ArgumentText(a));
    var close := Tok(Sign(RightParen), k);
    assert EmitExpr(argument, close) == Tok(ArgumentToken(a), close);
    assert EmitExprs(MoreExprs(argument, NoExprs), close) == EmitExpr(argument, close);
    var args := ParenArgs(MoreExprs(argument, NoExprs));
    assert EmitArgs(args, k) == Tok(Sign(LeftParen), Tok(ArgumentToken(a), close));
    assert EmitMethod(None, EmitArgs(args, k)) == EmitArgs(args, k);
  }

  /** What a call of the loader, read from its text, passes: a number or a string of bytes. */
  function Passed(v: Version, prefix: string, text: string): Option<Argument> {
    var ts := Lex(v, text, []);
    if ts.None? then None
    else
      var read := ParseExpr(v, 0, ts.value);
      if read.Fail? || !read.rest.Eof? then None
      else
        match read.value
        case Call(Name(callee), None, ParenArgs(MoreExprs(argument, NoExprs))) =>
          if callee != Loader(prefix) then None
          else
            (match argument
             case Number(digits) => Some(Slot(Value(digits, 10)))
             case StringLit(literal) =>
               var bytes := Literals.Decode(literal);
               if bytes.None? then None else Some(Splicing.Name(bytes.value))
             case _ => None)
        case _ => None
  }

  /** A rewritten require passes exactly the slot or the name it was rewritten for. */
  lemma CallPasses(v: Version, n: nat, a: Argument, newlines: nat)
    requires Writable(a)
    ensures Passed(v, Candidate(n), CallText(Candidate(n), ArgumentText(a), newlines)) == Some(a)
  {
    hide Lex, ParseExpr, CallText, Candidate, Literals.Decode, Literals.QuoteWith, Value, Decimal;
    var prefix, text := Candidate(n), CallText(Candidate(n), ArgumentText(a), newlines);
    CandidateIsPrefix(n);
    CallLexes(v, prefix, a, newlines, "", []);
    assert text + "" == text;
    EmptyLexes(v);
    CallParses(v, prefix, a, Eof);
    match a
    case Slot(slot) => DecimalReads(slot);
    case Name(name) => Literals.DecodeInvertsQuote(Literals.QuoteLuaString, name);
  }

  lemma EmptyLexes(v: Version)
    ensures Lex(v, "", []) == Some(Eof)
  {
  }

  // ----- to the module -----

  /** Luau: the text of every rewritten require passes a slot that has been filled with the function of the
      file the require resolves to. */
  method LinkByFile(g: DependencyGraph, n: nat) returns (slotOf: map<Path, nat>, filled: map<nat, nat>)
    requires Graph(g.modules, g.order, g.entry)
    ensures forall i, k, newlines :: 0 <= i < |g.modules| && 0 <= k < |g.modules[i].dependencies| && 0 <= newlines ==>
              var d := g.modules[i].dependencies[k];
              && d.path in slotOf
              && var passed := Passed(Luau, Candidate(n),
                                      CallText(Candidate(n), ArgumentText(Slot(slotOf[d.path])), newlines));
              && passed.Some? && passed.value.Slot? && Holds(g.modules, filled, passed.value.slot, d.path)
  {
    slotOf, filled := RegisterByFile(g);
    forall i, k, newlines | 0 <= i < |g.modules| && 0 <= k < |g.modules[i].dependencies| && 0 <= newlines
      ensures var d := g.modules[i].dependencies[k];
              && d.path in slotOf
              && var passed := Passed(Luau, Candidate(n),
                                      CallText(Candidate(n), ArgumentText(Slot(slotOf[d.path])), newlines));
              && passed.Some? && passed.value.Slot? && Holds(g.modules, filled, passed.value.slot, d.path)
    {
      CallPasses(Luau, n, Slot(slotOf[g.modules[i].dependencies[k].path]), newlines);
    }
  }

  /** By name: the text of every rewritten require passes a name that has been given a function, that of the
      file the first dependency of that name resolves to. */
  method LinkByName(v: Version, g: DependencyGraph, n: nat) returns (table: map<string, nat>)
    requires Graph(g.modules, g.order, g.entry)
    requires forall i, k :: 0 <= i < |g.modules| && 0 <= k < |g.modules[i].dependencies| ==>
               Literals.AllBytes(g.modules[i].dependencies[k].name)
    ensures forall i, k, newlines :: 0 <= i < |g.modules| && 0 <= k < |g.modules[i].dependencies| && 0 <= newlines ==>
              var name := g.modules[i].dependencies[k].name;
              var passed := Passed(v, Candidate(n),
                                   CallText(Candidate(n), ArgumentText(Splicing.Name(name)), newlines));
              && passed == Some(Splicing.Name(name)) && name in table && table[name] < |g.modules|
              && Some(g.modules[table[name]].path) == FirstTarget(DependenciesOf(g.modules, g.order), name)
  {
    table := RegisterByName(g);
    forall i, k, newlines | 0 <= i < |g.modules| && 0 <= k < |g.modules[i].dependencies| && 0 <= newlines
      ensures var name := g.modules[i].dependencies[k].name;
              Passed(v, Candidate(n), CallText(Candidate(n), ArgumentText(Splicing.Name(name)), newlines))
              == Some(Splicing.Name(name))
    {
      CallPasses(v, n, Splicing.Name(g.modules[i].dependencies[k].name), newlines);
    }
  }
}
