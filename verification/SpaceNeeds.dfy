/** No space is written for nothing: between the two tokens one is needed, except beside a numeral. */
module SpaceNeeds {
  import opened LuaSyntax
  import opened Scanner
  import opened Spacing
  import opened Relex

  /** The text starts with the token `t`, as `v` reads it. */
  predicate ReadsFirst(v: Version, t: Token, s: string) {
    s != "" && match Dispatch(v, s, if t.InterpMid? then [0] else [])
               case Lexed(token, length, _) => token == t && length == |Spell(t)|
               case _ => false
  }

  /** Some dialect that has both tokens reads something else where they touch. */
  ghost predicate Clash(t: Token, u: Token) {
    exists v :: Spellable(v, t) && Spellable(v, u) && !ReadsFirst(v, t, Spell(t) + Spell(u))
  }

  /** A numeral in front of a word, a numeral or a `.`, and a numeral that starts with its `.` behind a word. */
  predicate BesideNumeral(t: Token, u: Token) {
    || (t.Numeral? && (Wordlike(u) || CharAt(Spell(u), 0) == '.'))
    || ((t.Identifier? || t.Word?) && u.Numeral? && CharAt(u.text, 0) == '.')
  }

  /** Every space between neighbours has its reason. */
  lemma SpaceIsNeeded(v: Version, t: Token, u: Token)
    requires Spellable(v, t) && Spellable(v, u) && Neighbours(t, u) && Apart(t, u)
    ensures BesideNumeral(t, u) || Clash(t, u)
  {
    hide Spellable, Spell, ReadsFirst;
    if t.Sign? {
      SignClash(v, t.symbol, u);
    } else if t.Identifier? || t.Word? {
      if t.Word? {
        KeywordClass(v, t.keyword);
      }
      if !BesideNumeral(t, u) {
        WordClash(v, t, u);
      }
    } else if !t.Numeral? {
      HoleClash(v, t, u);
    }
  }

  lemma WordClash(v: Version, t: Token, u: Token)
    requires Spellable(v, t) && Spellable(v, u) && (t.Identifier? || t.Word?) && Wordlike(u)
    requires u.Numeral? ==> CharAt(u.text, 0) != '.'
    ensures Clash(t, u)
  {
    hide NumberEnd, KeywordOf, SpellKeyword;
    var s := Spell(t) + Spell(u);
    TokenStart(v, t);
    TokenStart(v, u);
    if t.Word? {
      KeywordSpelling(v, t.keyword);
      KeywordLetters(t.keyword);
    }
    if u.Word? {
      KeywordLetters(u.keyword);
    }
    assert IsWordChar(s[|Spell(t)|]) && forall k :: 0 <= k < |Spell(t)| ==> s[k] == Spell(t)[k];
    assert RunEnd(WordChars, s, 0) > |Spell(t)| by { RunGoesOn(s, 0, |Spell(t)|); }
    assert s[0] == Spell(t)[0];
    assert Dispatch(v, s, []) == WordStep(v, s, []);
    assert !ReadsFirst(v, t, s);
  }

  lemma {:induction false} RunGoesOn(s: string, i: nat, n: nat)
    requires i <= n < |s| && forall k :: i <= k <= n ==> IsWordChar(s[k])
    ensures RunEnd(WordChars, s, i) > n
    decreases n - i
  {
    if i < n {
      RunGoesOn(s, i + 1, n);
    }
  }

  /** A hole does not start with a brace of its own. */
  lemma HoleClash(v: Version, t: Token, u: Token)
    requires Spellable(v, t) && Spellable(v, u) && Apart(t, u)
    requires !t.Sign? && !t.Identifier? && !t.Word? && !t.Numeral?
    ensures Clash(t, u)
  {
    hide Dispatch, Segment, IsSegment;
    assert OpensHole(t) && u == Sign(LeftBrace) && Spell(u) == "{";
    var lead, first := if t.InterpBegin? then '`' else '}', t.InterpBegin?;
    SegmentOf(v, t);
    SegmentAppends(v, lead, t.text, "{", 0);
    var s := Spell(t) + Spell(u);
    assert s == [lead] + t.text + "{" + "{";
    LeadDispatch(v, s, first, if first then [] else [0]);
    assert !ReadsFirst(v, t, s);
  }

  lemma SegmentOf(v: Version, t: Token)
    requires Spellable(v, t) && OpensHole(t)
    ensures v.Luau? && Segment(v, t.text + "`", 0) == Closed(|t.text|)
  {
    hide Segment;
  }

  /** Which symbol stands in front of which byte. */
  predicate Touches(s: Symbol, c: char) {
    match s
    case Minus => c == '-'
    case Slash => c == '/'
    case LeftBracket => c == '['
    case Dot => c == '.'
    case DotDot => c == '.'
    case Less => c == '<'
    case Greater => c == '>' || c == '='
    case _ => false
  }

  lemma SignReason(s: Symbol, u: Token)
    requires Apart(Sign(s), u)
    ensures Touches(s, CharAt(Spell(u), 0))
  {
    hide Spell, SpellSymbol;
    SymbolClass(s);
    assert ClassOf(Sign(s)) == ClassifyText(SpellSymbol(s)) by { SignSpelling(s); }
  }

  lemma SignSpelling(s: Symbol)
    ensures ClassOf(Sign(s)) == ClassifyText(SpellSymbol(s)) && Spell(Sign(s)) == SpellSymbol(s)
  {
    hide SpellSymbol, ClassifyText;
  }

  lemma SymbolClass(s: Symbol)
    ensures ClassifyText(SpellSymbol(s))
            == match s
               case Minus => MinusClass
               case Slash => SlashClass
               case LeftBracket => BracketClass
               case Dot => DotClass
               case DotDot => DotDotClass
               case Less => LessClass
               case Greater => GreaterClass
               case Semicolon => SemicolonClass
               case _ => Other
  {
  }

  /** The tokens that start with a `/`, a `<` or a `>`. */
  lemma StartsLike(v: Version, u: Token)
    requires Spellable(v, u)
    ensures CharAt(Spell(u), 0) == '/' ==> u.Sign? && u.symbol in [Slash, SlashEqual, FloorDivide, FloorDivideEqual]
    ensures CharAt(Spell(u), 0) == '<' ==> u.Sign? && u.symbol in [Less, LessEqual, ShiftLeft]
    ensures CharAt(Spell(u), 0) == '>' ==> u.Sign? && u.symbol in [Greater, GreaterEqual, ShiftRight]
  {
    hide NumberEnd, ShortEnd, LongEnd, LongLevel, KeywordOf, SpellKeyword, SpellSymbol;
    if u.Word? {
      KeywordLetters(u.keyword);
    } else if u.Sign? {
      SymbolStarts(u.symbol);
    } else if u.Quoted? && LongLevel(u.text, 0).Some? {
      LevelOpens(u.text);
    }
  }

  lemma SymbolStarts(s: Symbol)
    ensures var c := CharAt(SpellSymbol(s), 0);
            && (c == '/' ==> s == Slash || s == SlashEqual || s == FloorDivide || s == FloorDivideEqual)
            && (c == '<' ==> s == Less || s == LessEqual || s == ShiftLeft)
            && (c == '>' ==> s == Greater || s == GreaterEqual || s == ShiftRight)
  {
  }

  /** The dialect in which the two symbols clash. */
  function ClashingIn(v: Version, s: Symbol): Version {
    match s
    case Slash => if v.HasFloorDiv() then v else Lua53
    case Less => if v.HasBitwise() then v else Lua53
    case Greater => if v.HasBitwise() then v else Lua53
    case _ => v
  }

  lemma NameStart(v: Version, u: Token)
    requires Spellable(v, u) && u.Identifier?
    ensures CharAt(Spell(u), 0) != '.'
  {
  }

  lemma SignClash(v: Version, s: Symbol, u: Token)
    requires Spellable(v, Sign(s)) && Spellable(v, u) && Neighbours(Sign(s), u) && Apart(Sign(s), u)
    ensures Clash(Sign(s), u)
  {
    hide Spell, SpellSymbol, Spellable, ReadsFirst, Apart, Dispatch;
    SignReason(s, u);
    TokenStart(v, u);
    StartsLike(v, u);
    if u.Identifier? {
      NameStart(v, u);
    }
    var w := if s == Greater && CharAt(Spell(u), 0) == '=' then v else ClashingIn(v, s);
    SpellableThere(v, s, u);
    TouchingReads(w, s, Spell(u));
    SignSpelling(s);
  }

  lemma SpellableThere(v: Version, s: Symbol, u: Token)
    requires Spellable(v, Sign(s)) && Spellable(v, u) && Touches(s, CharAt(Spell(u), 0))
    requires CharAt(Spell(u), 0) == '/' ==> u.Sign? && u.symbol in [Slash, SlashEqual, FloorDivide, FloorDivideEqual]
    requires CharAt(Spell(u), 0) == '<' ==> u.Sign? && u.symbol in [Less, LessEqual, ShiftLeft]
    requires CharAt(Spell(u), 0) == '>' ==> u.Sign? && u.symbol in [Greater, GreaterEqual, ShiftRight]
    ensures Spellable(ClashingIn(v, s), Sign(s))
    ensures CharAt(Spell(u), 0) != '=' ==> Spellable(ClashingIn(v, s), u)
  {
    hide Spell, IsName, IsNumeral, IsQuoted, IsSegment;
  }

  lemma TouchingReads(v: Version, s: Symbol, rest: string)
    requires rest != "" && Touches(s, rest[0]) && s != Dot
    requires s == Slash ==> v.HasFloorDiv()
    requires (s == Less || s == Greater) && rest[0] != '=' ==> v.HasBitwise()
    ensures !ReadsFirst(v, Sign(s), SpellSymbol(s) + rest)
  {
    hide ShortEnd, LongEnd, CommentEnd, NumberEnd, KeywordOf;
    var text := SpellSymbol(s) + rest;
    SymbolChars(s, rest);
    assert CharAt(rest, 0) == rest[0];
  }

  /** Beside a numeral the rule asks for more than is needed: `1and` would be read as two tokens too. */
  lemma NumeralNeedsNoSpace()
    ensures Apart(Numeral("1"), Word(KwAnd)) && BesideNumeral(Numeral("1"), Word(KwAnd))
    ensures forall v :: ReadsFirst(v, Numeral("1"), "1and")
  {
    forall v ensures ReadsFirst(v, Numeral("1"), "1and") {
      assert RunEnd(Decimals(v.Luau?), "1and", 1) == 1;
      assert RunEnd(Decimals(v.Luau?), "1and", 0) == 1;
      assert "1and"[..1] == "1";
    }
  }
}
