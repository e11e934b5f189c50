/** Lexing printed text gives back the printed tokens. */
module Relex {
  import opened Wrappers
  import opened LuaSyntax
  import opened Scanner
  import opened Spacing

  // ----- tokens with a spelling -----

  /** The symbols a dialect has. */
  predicate HasSymbol(v: Version, s: Symbol) {
    match s
    case FloorDivide => v.HasFloorDiv()
    case Ampersand => v.HasBitwise() || v.Luau?
    case Pipe => v.HasBitwise() || v.Luau?
    case Tilde => v.HasBitwise()
    case ShiftLeft => v.HasBitwise()
    case ShiftRight => v.HasBitwise()
    case PlusEqual => v.Luau?
    case MinusEqual => v.Luau?
    case StarEqual => v.Luau?
    case SlashEqual => v.Luau?
    case FloorDivideEqual => v.Luau?
    case PercentEqual => v.Luau?
    case CaretEqual => v.Luau?
    case DotDotEqual => v.Luau?
    case Arrow => v.Luau?
    case At => v.Luau?
    case Question => v.Luau?
    case _ => true
  }

  predicate IsName(v: Version, text: string) {
    && text != "" && (IsAlpha(text[0]) || text[0] == '_')
    && (forall k :: 0 <= k < |text| ==> IsWordChar(text[k]))
    && KeywordOf(v, text).None?
  }

  predicate IsNumeral(v: Version, text: string) {
    text != "" && (IsDigit(text[0]) || (text[0] == '.' && IsDigit(CharAt(text, 1))))
      && NumberEnd(v, text) == Some(|text|)
  }

  predicate IsQuoted(v: Version, text: string) {
    && text != ""
    && (((text[0] == '"' || text[0] == '\'') && ShortEnd(v, text, 1, text[0]) == Some(|text|))
        || (LongLevel(text, 0).Some?
            && LongEnd(text, LongLevel(text, 0).value + 2, LongLevel(text, 0).value) == Some(|text|)))
  }

  predicate IsSegment(v: Version, text: string) { v.Luau? && Segment(v, text + "`", 0) == Closed(|text|) }

  /** The tokens that have a spelling in `v`. */
  predicate Spellable(v: Version, t: Token) {
    match t
    case Identifier(name) => IsName(v, name)
    case Numeral(text) => IsNumeral(v, text)
    case Quoted(text) => IsQuoted(v, text)
    case Word(w) => (w.KwGoto? ==> v.HasGoto()) && (w.KwGlobal? ==> v.HasGlobal())
    case Sign(s) => HasSymbol(v, s)
    case InterpWhole(text) => IsSegment(v, text)
    case InterpBegin(text) => IsSegment(v, text)
    case InterpMid(text) => IsSegment(v, text)
    case InterpEnd(text) => IsSegment(v, text)
  }

  predicate AllSpellable(v: Version, ts: Tokens) {
    ts.Tok? ==> Spellable(v, ts.head) && AllSpellable(v, ts.tail)
  }

  // ----- what may follow a token without being taken into it -----

  predicate Loose(v: Version, t: Token, c: char) {
    match t
    case Identifier(_) => !IsWordChar(c)
    case Word(_) => !IsWordChar(c)
    case Numeral(_) => !IsWordChar(c) && c != '.'
    case InterpBegin(_) => c != '{'
    case InterpMid(_) => c != '{'
    case Sign(s) => LooseSymbol(v, s, c)
    case _ => true
  }

  predicate LooseSymbol(v: Version, s: Symbol, c: char) {
    match s
    case Plus => !(v.Luau? && c == '=')
    case Star => !(v.Luau? && c == '=')
    case Percent => !(v.Luau? && c == '=')
    case Caret => !(v.Luau? && c == '=')
    case Minus => c != '-' && !(v.Luau? && (c == '=' || c == '>'))
    case Slash => c != '/' && !(v.Luau? && c == '=')
    case FloorDivide => !(v.Luau? && c == '=')
    case Dot => c != '.' && !IsDigit(c)
    case DotDot => c != '.' && !(v.Luau? && c == '=')
    case Colon => c != ':'
    case Equal => c != '='
    case Less => c != '=' && c != '<'
    case Greater => c != '=' && c != '>'
    case Tilde => c != '='
    case LeftBracket => c != '[' && c != '='
    case _ => true
  }

  // ----- the brace counts the tokens imply -----

  function BracesAfter(braces: seq<nat>, t: Token): seq<nat> {
    if t.InterpBegin? then braces + [0]
    else if t.InterpEnd? && braces != [] then braces[..|braces| - 1]
    else if braces == [] || !t.Sign? then braces
    else if t == Sign(LeftBrace) then braces[|braces| - 1 := braces[|braces| - 1] + 1]
    else if t == Sign(RightBrace) && braces[|braces| - 1] != 0 then braces[|braces| - 1 := braces[|braces| - 1] - 1]
    else braces
  }

  /** `}` closes a brace of its own, and a segment goes on where its hole is closed. */
  predicate BracesAllow(braces: seq<nat>, t: Token) {
    && (t == Sign(RightBrace) ==> braces == [] || braces[|braces| - 1] != 0)
    && (t.InterpMid? || t.InterpEnd? ==> braces != [] && braces[|braces| - 1] == 0)
  }

  // ----- scanning past the end of a token -----

  lemma {:induction false} RunAppends(cls: CharClass, text: string, rest: string, i: nat)
    requires i <= |text| && (RunEnd(cls, text, i) < |text| || !cls.Has(CharAt(rest, 0)))
    requires !cls.Has('\0')
    ensures RunEnd(cls, text + rest, i) == RunEnd(cls, text, i)
    decreases |text| - i
  {
    if i < |text| && cls.Has(text[i]) {
      RunAppends(cls, text, rest, i + 1);
    }
  }

  /** Characters that end every numeral. */
  predicate EndsNumber(c: char) { !IsWordChar(c) && c != '.' }

  lemma RunsStopAt(text: string, rest: string)
    requires EndsNumber(CharAt(rest, 0))
    ensures forall cls: CharClass, i: nat | i <= |text| && (cls.Decimals? || cls.Hexes? || cls.Bits?) ::
              RunEnd(cls, text + rest, i) == RunEnd(cls, text, i)
    ensures forall i: nat | i < |text| :: CharAt(text + rest, i) == CharAt(text, i)
    ensures CharAt(text + rest, |text|) == CharAt(rest, 0) && CharAt(text, |text|) == '\0'
  {
    forall cls: CharClass, i: nat | i <= |text| && (cls.Decimals? || cls.Hexes? || cls.Bits?)
      ensures RunEnd(cls, text + rest, i) == RunEnd(cls, text, i)
    {
      RunAppends(cls, text, rest, i);
    }
  }

  lemma SuffixAppends(v: Version, text: string, rest: string, from: nat, j: nat, radix: nat)
    requires EndsNumber(CharAt(rest, 0)) && from <= j <= |text|
    ensures IntegerSuffix(v, text + rest, from, j, radix) == IntegerSuffix(v, text, from, j, radix)
  {
    hide InRange;
    assert (text + rest)[from..j] == text[from..j];
    RunsStopAt(text, rest);
  }

  lemma ExponentAppends(v: Version, text: string, rest: string, j: nat, lower: char, upper: char)
    requires EndsNumber(CharAt(rest, 0)) && j <= |text| && IsAlpha(lower) && IsAlpha(upper)
    requires ExponentEnd(v, text, j, lower, upper).Some?
    ensures ExponentEnd(v, text + rest, j, lower, upper) == ExponentEnd(v, text, j, lower, upper)
    ensures j <= ExponentEnd(v, text, j, lower, upper).value <= |text|
  {
    RunsStopAt(text, rest);
  }

  lemma NumberAppends(v: Version, text: string, rest: string)
    requires IsNumeral(v, text) && EndsNumber(CharAt(rest, 0))
    ensures NumberEnd(v, text + rest) == Some(|text|)
  {
    hide HexEnd, BinaryEnd, DecimalEnd;
    RunsStopAt(text, rest);
    if CharAt(text, 0) == '0' && (CharAt(text, 1) == 'x' || CharAt(text, 1) == 'X') {
      HexAppends(v, text, rest);
    } else if v.Luau? && CharAt(text, 0) == '0' && (CharAt(text, 1) == 'b' || CharAt(text, 1) == 'B') {
      BinaryAppends(v, text, rest);
    } else {
      DecimalAppends(v, text, rest);
    }
  }

  lemma DecimalAppends(v: Version, text: string, rest: string)
    requires text != "" && EndsNumber(CharAt(rest, 0)) && DecimalEnd(v, text) == Some(|text|)
    ensures DecimalEnd(v, text + rest) == Some(|text|)
  {
    hide RunEnd, IntegerSuffix, ExponentEnd, TakesDot, CharAt;
    RunsStopAt(text, rest);
    var cls := Decimals(v.Luau?);
    var whole := RunEnd(cls, text, 0);
    assert RunEnd(cls, text + rest, 0) == whole;
    DotAgrees(text, rest, whole);
    var dotted := CharAt(text, whole) == '.' && TakesDot(CharAt(text, whole + 1));
    var fraction := if dotted then RunEnd(cls, text, whole + 1) else whole;
    assert dotted ==> RunEnd(cls, text + rest, whole + 1) == fraction;
    ExponentAppends(v, text, rest, fraction, 'e', 'E');
    SuffixAppends(v, text, rest, 0, ExponentEnd(v, text, fraction, 'e', 'E').value, 10);
  }

  /** Whether a `.` is the numeral's does not depend on what follows the numeral. */
  lemma DotAgrees(text: string, rest: string, i: nat)
    requires EndsNumber(CharAt(rest, 0)) && i <= |text|
    ensures CharAt(text + rest, i) == '.' <==> CharAt(text, i) == '.'
    ensures CharAt(text, i) == '.' ==> TakesDot(CharAt(text + rest, i + 1)) == TakesDot(CharAt(text, i + 1))
  {
  }

  lemma HexAppends(v: Version, text: string, rest: string)
    requires CharAt(text, 0) == '0' && (CharAt(text, 1) == 'x' || CharAt(text, 1) == 'X')
    requires EndsNumber(CharAt(rest, 0)) && HexEnd(v, text) == Some(|text|)
    ensures HexEnd(v, text + rest) == Some(|text|)
  {
    hide RunEnd, IntegerSuffix, ExponentEnd, HexTail;
    RunsStopAt(text, rest);
    WholePart(v, text, rest);
    if HasHexFloats(v) {
      HexFloatAppends(v, text, rest);
    } else {
      HexIntegerAppends(v, text, rest);
    }
  }

  lemma WholePart(v: Version, text: string, rest: string)
    requires 2 <= |text| && EndsNumber(CharAt(rest, 0))
    ensures var whole := RunEnd(Hexes(v.Luau?), text, 2);
            && whole <= |text| && RunEnd(Hexes(v.Luau?), text + rest, 2) == whole
            && HasDigitsUpTo(text + rest, whole) == HasDigitsUpTo(text, whole)
  {
    RunsStopAt(text, rest);
    var whole := RunEnd(Hexes(v.Luau?), text, 2);
    forall k | 2 <= k < whole
      ensures k < |text| && (text + rest)[k] == text[k]
    {
    }
  }

  lemma HexFloatAppends(v: Version, text: string, rest: string)
    requires HasHexFloats(v) && 2 <= |text| && EndsNumber(CharAt(rest, 0)) && HexEnd(v, text) == Some(|text|)
    ensures HexEnd(v, text + rest) == Some(|text|)
  {
    hide RunEnd, ExponentEnd, HasDigitsUpTo;
    RunsStopAt(text, rest);
    WholePart(v, text, rest);
    var whole := RunEnd(Hexes(v.Luau?), text, 2);
    var fraction := if CharAt(text, whole) == '.' then RunEnd(Hexes(false), text, whole + 1) else whole;
    ExponentAppends(v, text, rest, fraction, 'p', 'P');
    assert ExponentEnd(v, text, fraction, 'p', 'P') == Some(|text|);
  }

  lemma HexIntegerAppends(v: Version, text: string, rest: string)
    requires !HasHexFloats(v) && 2 <= |text| && EndsNumber(CharAt(rest, 0)) && HexEnd(v, text) == Some(|text|)
    ensures HexEnd(v, text + rest) == Some(|text|)
  {
    hide RunEnd, IntegerSuffix;
    RunsStopAt(text, rest);
    WholePart(v, text, rest);
    var whole := RunEnd(Hexes(v.Luau?), text, 2);
    SuffixAppends(v, text, rest, 2, whole, 16);
    assert IntegerSuffix(v, text, 2, whole, 16) == Some(|text|);
  }

  lemma BinaryAppends(v: Version, text: string, rest: string)
    requires CharAt(text, 0) == '0' && (CharAt(text, 1) == 'b' || CharAt(text, 1) == 'B')
    requires EndsNumber(CharAt(rest, 0)) && BinaryEnd(v, text) == Some(|text|)
    ensures BinaryEnd(v, text + rest) == Some(|text|)
  {
    hide RunEnd, IntegerSuffix;
    RunsStopAt(text, rest);
    assert RunEnd(Bits, text + rest, 2) == RunEnd(Bits, text, 2);
    SuffixAppends(v, text, rest, 2, RunEnd(Bits, text, 2), 2);
  }

  /** An escape sequence that ends inside a text does not look past it. */
  lemma EscapeAppends(v: Version, text: string, rest: string, i: nat)
    requires i < |text| && EscapeEnd(v, text, i).Some? && EscapeEnd(v, text, i).value < |text|
    ensures EscapeEnd(v, text + rest, i) == EscapeEnd(v, text, i)
  {
    hide Value;
    var s := text + rest;
    assert forall k: nat | k < |text| :: CharAt(s, k) == CharAt(text, k);
    var c := text[i];
    if c == 'z' && !v.Lua51? {
      RunAppends(Blanks, text, rest, i + 1);
    } else if c == 'u' && !v.Lua51? && !v.Lua52? && CharAt(text, i + 1) == '{' {
      var end := RunEnd(Hexes(false), text, i + 2);
      RunAppends(Hexes(false), text, rest, i + 2);
      assert s[i + 2..end] == text[i + 2..end];
    } else if IsDigit(c) && i + 3 <= |text| {
      assert s[i..i + 3] == text[i..i + 3];
    }
  }

  lemma {:induction false} ShortAppends(v: Version, text: string, rest: string, i: nat, quote: char)
    requires i <= |text| && ShortEnd(v, text, i, quote).Some?
    ensures ShortEnd(v, text + rest, i, quote) == ShortEnd(v, text, i, quote)
    decreases |text| - i
  {
    hide EscapeEnd;
    if text[i] == '\\' {
      var end := EscapeEnd(v, text, i + 1).value;
      assert end < |text|;
      EscapeAppends(v, text, rest, i + 1);
      ShortAppends(v, text, rest, end, quote);
    } else if text[i] != quote {
      ShortAppends(v, text, rest, i + 1, quote);
    }
  }

  lemma LevelAppends(text: string, rest: string)
    requires LongLevel(text, 0).Some?
    ensures LongLevel(text + rest, 0) == LongLevel(text, 0)
  {
    RunAppends(Equals, text, rest, 1);
  }

  lemma {:induction false} LongAppends(text: string, rest: string, i: nat, level: nat)
    requires LongEnd(text, i, level).Some?
    ensures LongEnd(text + rest, i, level) == LongEnd(text, i, level)
    decreases |text| - i
  {
    if text[i] == ']' {
      var end := RunEnd(Equals, text, i + 1);
      if end < |text| {
        RunAppends(Equals, text, rest, i + 1);
        assert CharAt(text + rest, end) == CharAt(text, end);
      } else {
        NoCloserInEquals(text, i + 1, level);
      }
    }
    if !(text[i] == ']' && RunEnd(Equals, text, i + 1) == i + 1 + level && CharAt(text, i + 1 + level) == ']') {
      assert LongEnd(text, i + 1, level).Some?;
      LongAppends(text, rest, i + 1, level);
    }
  }

  lemma {:induction false} NoCloserInEquals(text: string, i: nat, level: nat)
    requires i <= |text| && RunEnd(Equals, text, i) == |text|
    ensures LongEnd(text, i, level).None?
    decreases |text| - i
  {
    if i < |text| {
      NoCloserInEquals(text, i + 1, level);
    }
  }

  /** A segment text is read the same whichever way it ends. */
  lemma {:induction false} SegmentAppends(v: Version, lead: char, text: string, rest: string, i: nat)
    requires v.Luau? && i <= |text| && Segment(v, text + "`", i) == Closed(|text|)
    ensures Segment(v, [lead] + text + "`" + rest, i + 1) == Closed(|text| + 1)
    ensures Segment(v, [lead] + text + "{" + rest, i + 1)
            == if CharAt(rest, 0) == '{' then Unended else Hole(|text| + 1)
    decreases |text| - i
  {
    hide EscapeEnd;
    var closed := [lead] + text + "`" + rest;
    var holed := [lead] + text + "{" + rest;
    assert closed[|text| + 1] == '`' && holed[|text| + 1] == '{';
    assert CharAt(holed, |text| + 2) == CharAt(rest, 0);
    if i < |text| {
      assert closed[i + 1] == holed[i + 1] == (text + "`")[i];
      if text[i] == '\\' {
        assert closed[i + 2] == (text + "`")[i + 1];
        if i + 1 < |text| && (text[i + 1] == '{' || text[i + 1] == '}' || text[i + 1] == '`') {
          assert holed[i + 2] == text[i + 1];
          SegmentAppends(v, lead, text, rest, i + 2);
        } else if i + 1 < |text| {
          assert holed[i + 2] == text[i + 1];
          var end := EscapeEnd(v, text + "`", i + 1).value;
          EscapeShifts(v, lead, text, "`", "`" + rest, i + 1);
          EscapeShifts(v, lead, text, "`", "{" + rest, i + 1);
          assert [lead] + text + ("`" + rest) == closed;
          assert [lead] + text + ("{" + rest) == holed;
          SegmentAppends(v, lead, text, rest, end);
        }
      } else {
        SegmentAppends(v, lead, text, rest, i + 1);
      }
    }
  }

  /** An escape sequence in a segment does not reach the byte that ends it. */
  lemma EscapeShifts(v: Version, lead: char, text: string, end: string, rest: string, i: nat)
    requires v.Luau? && i < |text| && end == "`" && rest != "" && (rest[0] == '`' || rest[0] == '{')
    requires EscapeEnd(v, text + end, i).Some? && EscapeEnd(v, text + end, i).value <= |text|
    ensures EscapeEnd(v, [lead] + text + rest, i + 1) == Some(EscapeEnd(v, text + end, i).value + 1)
  {
    hide Value, RunEnd;
    var a, b := text + end, [lead] + text + rest;
    assert forall k: nat | k < |text| :: CharAt(b, k + 1) == CharAt(a, k);
    assert CharAt(b, |text| + 1) == rest[0] && CharAt(a, |text|) == '`';
    var c := text[i];
    assert b[i + 1] == c;
    if c == 'z' {
      RunShifts(Blanks, lead, text, end, rest, i + 1);
    } else if c == 'u' {
      UnicodeShifts(lead, text, end, rest, i);
    } else if IsDigit(c) {
      DecimalShifts(lead, text, end, rest, i);
    }
  }

  lemma UnicodeShifts(lead: char, text: string, end: string, rest: string, i: nat)
    requires i < |text| && end == "`" && rest != "" && (rest[0] == '`' || rest[0] == '{')
    requires UnicodeEscapeEnd(text + end, i).Some? && UnicodeEscapeEnd(text + end, i).value <= |text|
    ensures UnicodeEscapeEnd([lead] + text + rest, i + 1) == Some(UnicodeEscapeEnd(text + end, i).value + 1)
  {
    hide Value, RunEnd;
    var a, b := text + end, [lead] + text + rest;
    assert forall k: nat | k < |text| :: CharAt(b, k + 1) == CharAt(a, k);
    assert i + 2 <= |text|;
    RunShifts(Hexes(false), lead, text, end, rest, i + 2);
    var stop := RunEnd(Hexes(false), a, i + 2);
    assert b[i + 3..stop + 1] == a[i + 2..stop];
  }

  lemma DecimalShifts(lead: char, text: string, end: string, rest: string, i: nat)
    requires i < |text| && end == "`" && rest != "" && (rest[0] == '`' || rest[0] == '{')
    requires IsDigit(text[i])
    requires DecimalEscapeEnd(text + end, i).Some? && DecimalEscapeEnd(text + end, i).value <= |text|
    ensures ([lead] + text + rest)[i + 1] == text[i]
    ensures DecimalEscapeEnd([lead] + text + rest, i + 1) == Some(DecimalEscapeEnd(text + end, i).value + 1)
  {
    hide Value;
    var a, b := text + end, [lead] + text + rest;
    assert forall k: nat | k < |text| :: CharAt(b, k + 1) == CharAt(a, k);
    assert CharAt(b, |text| + 1) == rest[0] && CharAt(a, |text|) == '`';
    if i + 3 <= |text| {
      assert b[i + 1..i + 4] == a[i..i + 3];
    }
  }

  lemma {:induction false} RunShifts(cls: CharClass, lead: char, text: string, end: string, rest: string, i: nat)
    requires i <= |text| && end == "`" && rest != "" && (rest[0] == '`' || rest[0] == '{')
    requires cls == Blanks || cls == Hexes(false)
    ensures RunEnd(cls, [lead] + text + rest, i + 1) == RunEnd(cls, text + end, i) + 1
    ensures RunEnd(cls, text + end, i) <= |text|
    decreases |text| - i
  {
    var a, b := text + end, [lead] + text + rest;
    if i < |text| {
      assert b[i + 1] == a[i];
      if cls.Has(a[i]) {
        RunShifts(cls, lead, text, end, rest, i + 1);
      }
    } else {
      assert b[i + 1] == rest[0];
    }
  }

  // ----- one token -----

  lemma KeywordSpelling(v: Version, w: Keyword)
    requires Spellable(v, Word(w))
    ensures KeywordOf(v, SpellKeyword(w)) == Some(w)
  {
  }

  lemma KeywordLetters(w: Keyword)
    ensures 0 < |SpellKeyword(w)| && IsAlpha(SpellKeyword(w)[0])
    ensures forall k :: 0 <= k < |SpellKeyword(w)| ==> IsWordChar(SpellKeyword(w)[k])
  {
  }

  lemma {:induction false} RunOfAll(text: string, i: nat)
    requires i <= |text| && forall k :: 0 <= k < |text| ==> IsWordChar(text[k])
    ensures RunEnd(WordChars, text, i) == |text|
    decreases |text| - i
  {
    if i < |text| {
      RunOfAll(text, i + 1);
    }
  }

  lemma WordLexes(v: Version, t: Token, rest: string, braces: seq<nat>)
    requires Spellable(v, t) && (t.Identifier? || t.Word?) && Loose(v, t, CharAt(rest, 0))
    ensures Dispatch(v, Spell(t) + rest, braces) == Lexed(t, |Spell(t)|, braces)
  {
    hide KeywordOf, SpellKeyword;
    var text := Spell(t);
    if t.Word? {
      KeywordSpelling(v, t.keyword);
      KeywordLetters(t.keyword);
    }
    RunOfAll(text, 0);
    RunAppends(WordChars, text, rest, 0);
    assert (text + rest)[..|text|] == text;
  }

  lemma NumeralLexes(v: Version, t: Token, rest: string, braces: seq<nat>)
    requires Spellable(v, t) && t.Numeral? && Loose(v, t, CharAt(rest, 0))
    ensures Dispatch(v, Spell(t) + rest, braces) == Lexed(t, |Spell(t)|, braces)
  {
    hide NumberEnd;
    NumberAppends(v, t.text, rest);
    assert (t.text + rest)[..|t.text|] == t.text;
    assert (t.text + rest)[0] == t.text[0];
    if t.text[0] == '.' {
      assert CharAt(t.text + rest, 1) == CharAt(t.text, 1);
    }
  }

  lemma QuotedLexes(v: Version, t: Token, rest: string, braces: seq<nat>)
    requires Spellable(v, t) && t.Quoted?
    ensures Dispatch(v, Spell(t) + rest, braces) == Lexed(t, |Spell(t)|, braces)
  {
    hide ShortEnd, LongEnd, LongLevel;
    var text := t.text;
    assert (text + rest)[0] == text[0] && (text + rest)[..|text|] == text;
    if LongLevel(text, 0).Some? {
      LevelOpens(text);
    }
    if text[0] == '"' || text[0] == '\'' {
      ShortAppends(v, text, rest, 1, text[0]);
    } else {
      LevelAppends(text, rest);
      LongAppends(text, rest, LongLevel(text, 0).value + 2, LongLevel(text, 0).value);
    }
  }

  lemma LevelOpens(text: string)
    requires LongLevel(text, 0).Some?
    ensures CharAt(text, 0) == '['
  {
  }

  lemma InterpLexes(v: Version, t: Token, rest: string, braces: seq<nat>)
    requires Spellable(v, t) && InterpToken(t)
    requires Loose(v, t, CharAt(rest, 0)) && BracesAllow(braces, t)
    ensures Dispatch(v, Spell(t) + rest, braces) == Lexed(t, |Spell(t)|, BracesAfter(braces, t))
  {
    hide Segment, Dispatch, InterpStep, Spell, IsSegment, BracesAfter;
    var first := t.InterpWhole? || t.InterpBegin?;
    var closes := t.InterpWhole? || t.InterpEnd?;
    var lead := if first then '`' else '}';
    var tail := (if closes then "`" else "{") + rest;
    SegmentSpelling(v, t, rest);
    var s := [lead] + t.text + tail;
    var outer := if first then braces else braces[..|braces| - 1];
    LeadDispatch(v, s, first, braces);
    SegmentStep(v, lead, t.text, tail, first, closes, outer);
    InterpBraces(t, braces);
  }

  predicate InterpToken(t: Token) { t.InterpWhole? || t.InterpBegin? || t.InterpMid? || t.InterpEnd? }

  lemma SegmentSpelling(v: Version, t: Token, rest: string)
    requires Spellable(v, t) && InterpToken(t) && Loose(v, t, CharAt(rest, 0))
    ensures v.Luau?
    ensures var lead := if t.InterpWhole? || t.InterpBegin? then '`' else '}';
            var tail := (if t.InterpWhole? || t.InterpEnd? then "`" else "{") + rest;
            var s := [lead] + t.text + tail;
            && Spell(t) + rest == s && |Spell(t)| == |t.text| + 2
            && Segment(v, s, 1) == (if t.InterpWhole? || t.InterpEnd? then Closed(|t.text| + 1) else Hole(|t.text| + 1))
  {
    hide Segment;
    var lead := if t.InterpWhole? || t.InterpBegin? then '`' else '}';
    SegmentAppends(v, lead, t.text, rest, 0);
    assert [lead] + t.text + "`" + rest == [lead] + t.text + ("`" + rest);
    assert [lead] + t.text + "{" + rest == [lead] + t.text + ("{" + rest);
  }

  lemma LeadDispatch(v: Version, s: string, first: bool, braces: seq<nat>)
    requires v.Luau? && s != "" && s[0] == (if first then '`' else '}')
    requires !first ==> braces != [] && braces[|braces| - 1] == 0
    ensures Dispatch(v, s, braces) == InterpStep(v, s, first, if first then braces else braces[..|braces| - 1])
  {
    hide InterpStep, SymbolAt;
  }

  lemma SegmentStep(v: Version, lead: char, text: string, tail: string, first: bool, closes: bool, outer: seq<nat>)
    requires tail != ""
    requires Segment(v, [lead] + text + tail, 1) == (if closes then Closed(|text| + 1) else Hole(|text| + 1))
    ensures var token := if first then if closes then InterpWhole(text) else InterpBegin(text)
                         else if closes then InterpEnd(text) else InterpMid(text);
            InterpStep(v, [lead] + text + tail, first, outer)
              == Lexed(token, |text| + 2, if closes then outer else outer + [0])
  {
    hide Segment;
    Middle(lead, text, tail);
  }

  lemma InterpBraces(t: Token, braces: seq<nat>)
    requires InterpToken(t) && BracesAllow(braces, t)
    ensures var outer := if t.InterpWhole? || t.InterpBegin? then braces else braces[..|braces| - 1];
            BracesAfter(braces, t) == (if t.InterpWhole? || t.InterpEnd? then outer else outer + [0])
  {
    if t.InterpMid? {
      assert braces[..|braces| - 1] + [0] == braces;
    }
  }

  lemma Middle(lead: char, text: string, tail: string)
    ensures ([lead] + text + tail)[1..|text| + 1] == text
  {
  }

  lemma SymbolSpelling(v: Version, s: Symbol, c: char, d: char)
    requires HasSymbol(v, s) && LooseSymbol(v, s, c)
    ensures var text := SpellSymbol(s);
            && 1 <= |text| <= 3
            && (|text| == 1 ==> SymbolAt(v, text[0], c, d) == Some(s))
            && (|text| == 2 ==> SymbolAt(v, text[0], text[1], c) == Some(s))
            && (|text| == 3 ==> SymbolAt(v, text[0], text[1], text[2]) == Some(s))
  {
  }

  /** No symbol is dispatched as anything else. */
  lemma SymbolStart(v: Version, s: Symbol, rest: string)
    requires HasSymbol(v, s) && LooseSymbol(v, s, CharAt(rest, 0))
    ensures var text := SpellSymbol(s) + rest;
            && 1 <= |text|
            && !IsAlpha(text[0]) && !IsDigit(text[0]) && text[0] !in "_\"'`"
            && !(text[0] == '-' && CharAt(text, 1) == '-')
            && !(text[0] == '.' && IsDigit(CharAt(text, 1)))
            && (text[0] == '[' ==>
                  CharAt(text, 1) == CharAt(rest, 0) && CharAt(text, 1) != '[' && CharAt(text, 1) != '=')
  {
  }

  lemma SymbolLexes(v: Version, t: Token, rest: string, braces: seq<nat>)
    requires Spellable(v, t) && t.Sign? && Loose(v, t, CharAt(rest, 0)) && BracesAllow(braces, t)
    ensures Dispatch(v, Spell(t) + rest, braces) == Lexed(t, |Spell(t)|, BracesAfter(braces, t))
  {
    hide SymbolAt, SpellSymbol, LooseSymbol, HasSymbol;
    var s := t.symbol;
    var text := SpellSymbol(s) + rest;
    SymbolStart(v, s, rest);
    SymbolSpelling(v, s, CharAt(rest, 0), CharAt(rest, 1));
    SymbolChars(s, rest);
    assert SymbolAt(v, text[0], CharAt(text, 1), CharAt(text, 2)) == Some(s);
    BraceSymbols(s);
    assert text[0] == SpellSymbol(s)[0];
    assert Dispatch(v, text, braces) == SymbolStep(v, text, braces);
  }

  lemma BraceSymbols(s: Symbol)
    ensures CharAt(SpellSymbol(s), 0) == '{' <==> s == LeftBrace
    ensures CharAt(SpellSymbol(s), 0) == '}' <==> s == RightBrace
  {
  }

  lemma SymbolChars(s: Symbol, rest: string)
    ensures var text := SpellSymbol(s); var whole := text + rest;
            && (|text| == 1 ==>
                  CharAt(whole, 0) == text[0] && CharAt(whole, 1) == CharAt(rest, 0)
                  && CharAt(whole, 2) == CharAt(rest, 1))
            && (|text| == 2 ==>
                  CharAt(whole, 0) == text[0] && CharAt(whole, 1) == text[1] && CharAt(whole, 2) == CharAt(rest, 0))
            && (|text| == 3 ==>
                  CharAt(whole, 0) == text[0] && CharAt(whole, 1) == text[1] && CharAt(whole, 2) == text[2])
  {
    hide SpellSymbol;
  }

  /** A printed token, followed by a byte it does not take in, is the next token read. */
  lemma TokenLexes(v: Version, t: Token, rest: string, braces: seq<nat>)
    requires Spellable(v, t) && Loose(v, t, CharAt(rest, 0)) && BracesAllow(braces, t)
    ensures 1 <= |Spell(t) + rest|
    ensures Dispatch(v, Spell(t) + rest, braces) == Lexed(t, |Spell(t)|, BracesAfter(braces, t))
  {
    hide Dispatch, Loose, SpellKeyword, SpellSymbol, NumberEnd, ShortEnd, LongEnd, LongLevel, KeywordOf;
    TokenStart(v, t);
    if t.Identifier? || t.Word? {
      WordLexes(v, t, rest, braces);
    } else if t.Numeral? {
      NumeralLexes(v, t, rest, braces);
    } else if t.Quoted? {
      QuotedLexes(v, t, rest, braces);
    } else if t.Sign? {
      SymbolLexes(v, t, rest, braces);
    } else {
      InterpLexes(v, t, rest, braces);
    }
  }

  lemma TokenStart(v: Version, t: Token)
    requires Spellable(v, t)
    ensures 1 <= |Spell(t)| && !IsBlank(Spell(t)[0])
  {
    hide NumberEnd, ShortEnd, LongEnd, LongLevel, KeywordOf, SpellKeyword, SpellSymbol;
    if t.Word? {
      KeywordLetters(t.keyword);
    } else if t.Sign? {
      SymbolFirstByte(t.symbol);
    } else if t.Quoted? && LongLevel(t.text, 0).Some? {
      LevelOpens(t.text);
    }
  }

  // ----- whole texts -----

  /** Neighbours the printer writes. Only an operand is followed by `=`, `>` or `:` (`<>` apart), and
      only a name follows `.` or `:`. */
  predicate EndsOperand(t: Token) {
    match t
    case Sign(s) =>
      s in [RightParen, RightBrace, RightBracket, DotDotDot, Greater, Question, Semicolon, DoubleColon]
    case _ => true
  }

  predicate StartsPlain(t: Token) {
    t.Sign? ==> t.symbol !in [Equal, EqualEqual, Greater, GreaterEqual, ShiftRight, Colon, DoubleColon]
  }

  predicate Neighbours(t: Token, u: Token) {
    && (t == Sign(Dot) || t == Sign(Colon) ==> u.Identifier?)
    && (EndsOperand(t) || StartsPlain(u) || (t == Sign(Less) && u == Sign(Greater)))
  }

  /** Every neighbour pair is one of those, and the braces nest. */
  predicate Printable(braces: seq<nat>, ts: Tokens)
    decreases ts
  {
    ts.Tok? ==>
      && BracesAllow(braces, ts.head)
      && (ts.tail.Tok? ==> Neighbours(ts.head, ts.tail.head))
      && Printable(BracesAfter(braces, ts.head), ts.tail)
  }

  lemma FirstByte(v: Version, t: Token)
    requires Spellable(v, t)
    ensures var c := CharAt(Spell(t), 0);
            && c != '\0'
            && (IsWordChar(c) ==> Wordlike(t))
            && (t.Identifier? ==> !IsDigit(c))
            && (StartsPlain(t) ==> c != '=' && c != '>' && c != ':')
            && (c == '{' ==> t == Sign(LeftBrace))
            && (t == Sign(Greater) ==> c == '>')
  {
    hide NumberEnd, ShortEnd, LongEnd, LongLevel, KeywordOf, SpellKeyword, SpellSymbol;
    if t.Word? {
      KeywordLetters(t.keyword);
    } else if t.Sign? {
      SymbolFirstByte(t.symbol);
    } else if t.Quoted? && LongLevel(t.text, 0).Some? {
      LevelOpens(t.text);
    }
  }

  lemma SymbolFirstByte(s: Symbol)
    ensures var c := CharAt(SpellSymbol(s), 0);
            && c != '\0' && !IsWordChar(c) && !IsBlank(c)
            && (StartsPlain(Sign(s)) ==> c != '=' && c != '>' && c != ':')
            && (c == '{' ==> s == LeftBrace)
            && (s.Greater? ==> c == '>')
  {
  }

  /** The symbols whose class is their own. */
  lemma SymbolClasses()
    ensures ClassOf(Sign(Minus)) == MinusClass && ClassOf(Sign(Slash)) == SlashClass
    ensures ClassOf(Sign(LeftBracket)) == BracketClass && ClassOf(Sign(Less)) == LessClass
  {
  }

  lemma MoreSymbolClasses()
    ensures ClassOf(Sign(Dot)) == DotClass && ClassOf(Sign(DotDot)) == DotDotClass
    ensures ClassOf(Sign(Greater)) == GreaterClass
  {
  }

  /** The separator rules cover every pair of neighbours: where no space is written, none is needed. */
  lemma SpacingSuffices(v: Version, t: Token, u: Token)
    requires Spellable(v, t) && Spellable(v, u) && Neighbours(t, u)
    ensures Loose(v, t, CharAt(Gap(Some(t), u) + Spell(u), 0))
  {
    hide NumberEnd, ShortEnd, LongEnd, KeywordOf, Spell;
    FirstByte(v, u);
    TokenStart(v, u);
    if Apart(t, u) {
      assert CharAt(Gap(Some(t), u) + Spell(u), 0) == ' ';
      SpaceSeparates(v, t);
    } else {
      assert Gap(Some(t), u) + Spell(u) == Spell(u);
      UnspacedIsLoose(v, t, u);
    }
  }

  lemma SpaceSeparates(v: Version, t: Token)
    ensures Loose(v, t, ' ') && Loose(v, t, '\0')
  {
  }

  lemma UnspacedIsLoose(v: Version, t: Token, u: Token)
    requires Spellable(v, t) && Spellable(v, u) && Neighbours(t, u) && !Apart(t, u)
    requires var c := CharAt(Spell(u), 0);
             && (IsWordChar(c) ==> Wordlike(u))
             && (u.Identifier? ==> !IsDigit(c))
             && (StartsPlain(u) ==> c != '=' && c != '>' && c != ':')
             && (c == '{' ==> u == Sign(LeftBrace))
             && (u == Sign(Greater) ==> c == '>')
    ensures Loose(v, t, CharAt(Spell(u), 0))
  {
    hide Spellable, Spell, StartsPlain, ClassOf, IsWordChar;
    if t.Sign? {
      SymbolClasses();
      MoreSymbolClasses();
    } else if t.Word? {
      KeywordClass(v, t.keyword);
    } else if t.Identifier? || t.Numeral? {
      PayloadClass(t);
    }
  }

  lemma KeywordClass(v: Version, w: Keyword)
    requires Spellable(v, Word(w))
    ensures ClassOf(Word(w)) == WordClass
  {
  }

  lemma PayloadClass(t: Token)
    ensures t.Identifier? ==> ClassOf(t) == WordClass
    ensures t.Numeral? ==> ClassOf(t) == NumberClass
  {
  }

  lemma {:induction false} Relexes(v: Version, prev: Option<Token>, ts: Tokens, braces: seq<nat>)
    requires AllSpellable(v, ts) && Printable(braces, ts)
    ensures Lex(v, Render(prev, ts), braces) == Some(ts)
    decreases ts
  {
    hide Dispatch, Spell, Spellable, Gap, Neighbours, Loose, BracesAllow, BracesAfter;
    if ts.Eof? {
      assert Render(prev, ts) == "";
    } else {
      var t, k := ts.head, ts.tail;
      var rest := Render(Some(t), k);
      var s := Render(prev, ts);
      RestIsLoose(v, t, k);
      TokenLexes(v, t, rest, braces);
      TokenStart(v, t);
      GapIsBlank(v, prev, t, rest);
      var gap := Gap(prev, t);
      assert s == gap + (Spell(t) + rest);
      assert s[|gap|..] == Spell(t) + rest;
      assert s[|gap| + |Spell(t)|..] == rest;
      Relexes(v, Some(t), k, BracesAfter(braces, t));
    }
  }

  lemma RestIsLoose(v: Version, t: Token, k: Tokens)
    requires Spellable(v, t) && AllSpellable(v, k) && (k.Tok? ==> Neighbours(t, k.head))
    ensures Loose(v, t, CharAt(Render(Some(t), k), 0))
  {
    hide Spellable, Loose, Neighbours, Spell, Gap;
    if k.Eof? {
      SpaceSeparates(v, t);
    } else {
      SpacingSuffices(v, t, k.head);
      TokenStart(v, k.head);
      var start := Gap(Some(t), k.head) + Spell(k.head);
      assert Render(Some(t), k) == start + Render(Some(k.head), k.tail);
      assert CharAt(Render(Some(t), k), 0) == CharAt(start, 0);
    }
  }

  lemma GapIsBlank(v: Version, prev: Option<Token>, t: Token, rest: string)
    requires Spellable(v, t)
    ensures RunEnd(Blanks, Gap(prev, t) + Spell(t) + rest, 0) == |Gap(prev, t)|
  {
    hide Spell, Spellable, Apart;
    TokenStart(v, t);
    var s := Gap(prev, t) + Spell(t) + rest;
    assert s[|Gap(prev, t)|] == Spell(t)[0];
  }
}
