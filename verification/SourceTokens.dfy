/** Every token read from a text has a spelling: the text it was read from. */
module SourceTokens {
  import opened Wrappers
  import opened LuaSyntax
  import opened Scanner
  import opened Relex

  // ----- scanning a text cut off where the token ends -----

  lemma {:induction false} RunCut(cls: CharClass, s: string, end: nat, i: nat)
    requires i <= end <= |s|
    ensures RunEnd(cls, s[..end], i) == if RunEnd(cls, s, i) < end then RunEnd(cls, s, i) else end
    decreases end - i
  {
    if i < end && cls.Has(s[i]) {
      RunCut(cls, s, end, i + 1);
    }
  }

  lemma CharCut(s: string, end: nat)
    requires end <= |s|
    ensures forall i: nat :: CharAt(s[..end], i) == if i < end then CharAt(s, i) else '\0'
  {
  }

  lemma ExponentCut(v: Version, s: string, end: nat, j: nat, lower: char, upper: char)
    requires j <= end <= |s| && lower != '\0' && upper != '\0'
    requires ExponentEnd(v, s, j, lower, upper).Some? && ExponentEnd(v, s, j, lower, upper).value <= end
    ensures ExponentEnd(v, s[..end], j, lower, upper) == ExponentEnd(v, s, j, lower, upper)
    ensures j <= ExponentEnd(v, s, j, lower, upper).value
  {
    hide RunEnd, CharAt;
    CharCut(s, end);
    if CharAt(s, j) == lower || CharAt(s, j) == upper {
      var from := if CharAt(s, j + 1) == '+' || CharAt(s, j + 1) == '-' then j + 2 else j + 1;
      assert from <= end;
      RunCut(Decimals(v.Luau?), s, end, from);
    }
  }

  lemma SuffixCut(v: Version, s: string, end: nat, from: nat, j: nat, radix: nat)
    requires from <= j <= end <= |s|
    requires IntegerSuffix(v, s, from, j, radix) == Some(end)
    ensures IntegerSuffix(v, s[..end], from, j, radix) == Some(end)
  {
    hide InRange, CharAt;
    CharCut(s, end);
    assert s[..end][from..j] == s[from..j];
  }

  lemma DecimalCut(v: Version, s: string, end: nat)
    requires end <= |s| && DecimalEnd(v, s) == Some(end)
    ensures DecimalEnd(v, s[..end]) == Some(end)
  {
    hide RunEnd, ExponentEnd, IntegerSuffix, CharAt;
    CharCut(s, end);
    var cls := Decimals(v.Luau?);
    var whole := RunEnd(cls, s, 0);
    var dotted := CharAt(s, whole) == '.' && TakesDot(CharAt(s, whole + 1));
    var fraction := if dotted then RunEnd(cls, s, whole + 1) else whole;
    var exponent := ExponentEnd(v, s, fraction, 'e', 'E').value;
    ExponentRises(v, s, fraction, 'e', 'E');
    SuffixRises(v, s, 0, exponent, 10);
    RunCut(cls, s, end, 0);
    if dotted {
      RunCut(cls, s, end, whole + 1);
    }
    if CharAt(s, whole) == '.' && !dotted {
      UntakenDot(v, s, whole);
    }
    ExponentCut(v, s, end, fraction, 'e', 'E');
    SuffixCut(v, s, end, 0, exponent, 10);
  }

  /** Where a `.` is not the numeral's, the numeral ends. */
  lemma UntakenDot(v: Version, s: string, j: nat)
    requires CharAt(s, j) == '.'
    ensures ExponentEnd(v, s, j, 'e', 'E') == Some(j) && IntegerSuffix(v, s, 0, j, 10) == Some(j)
  {
  }

  lemma ExponentRises(v: Version, s: string, j: nat, lower: char, upper: char)
    requires ExponentEnd(v, s, j, lower, upper).Some?
    ensures j <= ExponentEnd(v, s, j, lower, upper).value
  {
  }

  lemma SuffixRises(v: Version, s: string, from: nat, j: nat, radix: nat)
    requires IntegerSuffix(v, s, from, j, radix).Some?
    ensures j <= IntegerSuffix(v, s, from, j, radix).value <= j + 1
    ensures IntegerSuffix(v, s, from, j, radix).value == j + 1 ==> CharAt(s, j) == 'i'
  {
    hide InRange;
  }

  lemma DigitsCut(s: string, end: nat, whole: nat)
    requires whole <= end <= |s|
    ensures HasDigitsUpTo(s[..end], whole) == HasDigitsUpTo(s, whole)
  {
    if HasDigitsUpTo(s, whole) {
      var k :| 2 <= k < whole && k < |s| && IsHex(s[k]);
      assert IsHex(s[..end][k]);
    }
  }

  lemma HexCut(v: Version, s: string, end: nat)
    requires 2 <= |s| && end <= |s| && HexEnd(v, s) == Some(end)
    ensures HexEnd(v, s[..end]) == Some(end) && 2 <= end
  {
    hide RunEnd, ExponentEnd, IntegerSuffix, CharAt, HasDigitsUpTo, IsHex;
    if HasHexFloats(v) {
      HexFloatCut(v, s, end);
    } else {
      HexIntegerCut(v, s, end);
    }
  }

  lemma HexFloatCut(v: Version, s: string, end: nat)
    requires HasHexFloats(v) && 2 <= |s| && end <= |s| && HexEnd(v, s) == Some(end)
    ensures HexEnd(v, s[..end]) == Some(end) && 2 <= end
  {
    hide RunEnd, ExponentEnd, CharAt, HasDigitsUpTo, IsHex;
    CharCut(s, end);
    var whole := RunEnd(Hexes(v.Luau?), s, 2);
    var dotted := CharAt(s, whole) == '.';
    var fraction := if dotted then RunEnd(Hexes(false), s, whole + 1) else whole;
    ExponentRises(v, s, fraction, 'p', 'P');
    RunCut(Hexes(v.Luau?), s, end, 2);
    DigitsCut(s, end, whole);
    if dotted {
      RunCut(Hexes(false), s, end, whole + 1);
    }
    ExponentCut(v, s, end, fraction, 'p', 'P');
  }

  lemma HexIntegerCut(v: Version, s: string, end: nat)
    requires !HasHexFloats(v) && 2 <= |s| && end <= |s| && HexEnd(v, s) == Some(end)
    ensures HexEnd(v, s[..end]) == Some(end) && 2 <= end
  {
    hide RunEnd, IntegerSuffix, CharAt, HasDigitsUpTo;
    CharCut(s, end);
    var whole := RunEnd(Hexes(v.Luau?), s, 2);
    SuffixRises(v, s, 2, whole, 16);
    RunCut(Hexes(v.Luau?), s, end, 2);
    DigitsCut(s, end, whole);
    SuffixCut(v, s, end, 2, whole, 16);
  }

  lemma BinaryCut(v: Version, s: string, end: nat)
    requires 2 <= |s| && end <= |s| && BinaryEnd(v, s) == Some(end)
    ensures BinaryEnd(v, s[..end]) == Some(end) && 2 <= end
  {
    hide RunEnd, IntegerSuffix, CharAt;
    CharCut(s, end);
    var digits := RunEnd(Bits, s, 2);
    SuffixRises(v, s, 2, digits, 2);
    RunCut(Bits, s, end, 2);
    SuffixCut(v, s, end, 2, digits, 2);
  }

  lemma NumberCut(v: Version, s: string, end: nat)
    requires 0 < end <= |s| && NumberEnd(v, s) == Some(end)
    ensures NumberEnd(v, s[..end]) == Some(end)
  {
    hide HexEnd, BinaryEnd, DecimalEnd, CharAt;
    CharCut(s, end);
    CharAtSize(s);
    if CharAt(s, 0) == '0' && (CharAt(s, 1) == 'x' || CharAt(s, 1) == 'X') {
      HexCut(v, s, end);
    } else if v.Luau? && CharAt(s, 0) == '0' && (CharAt(s, 1) == 'b' || CharAt(s, 1) == 'B') {
      BinaryCut(v, s, end);
    } else {
      DecimalCut(v, s, end);
    }
  }

  lemma CharAtSize(s: string)
    ensures CharAt(s, 1) != '\0' ==> 2 <= |s|
  {
  }

  /** A numeral that starts with `.` has the digit that made it one. */
  lemma DottedIsLong(v: Version, s: string)
    requires 2 <= |s| && s[0] == '.' && IsDigit(s[1]) && NumberEnd(v, s).Some?
    ensures 2 <= NumberEnd(v, s).value
  {
    var cls := Decimals(v.Luau?);
    assert RunEnd(cls, s, 0) == 0;
    assert RunEnd(cls, s, 1) >= 2;
    ExponentRises(v, s, RunEnd(cls, s, 1), 'e', 'E');
    hide ExponentEnd, RunEnd;
    var exponent := ExponentEnd(v, s, RunEnd(cls, s, 1), 'e', 'E').value;
    SuffixRises(v, s, 0, exponent, 10);
  }

  lemma NumeralSpells(v: Version, s: string)
    requires s != "" && (IsDigit(s[0]) || (s[0] == '.' && IsDigit(CharAt(s, 1))))
    requires NumberEnd(v, s).Some? && 0 < NumberEnd(v, s).value <= |s|
    ensures IsNumeral(v, s[..NumberEnd(v, s).value])
  {
    hide NumberEnd;
    var end := NumberEnd(v, s).value;
    NumberCut(v, s, end);
    if s[0] == '.' {
      DottedIsLong(v, s);
      assert s[..end][1] == s[1];
    }
  }

  // ----- strings -----

  lemma EscapeCut(v: Version, s: string, end: nat, i: nat)
    requires i < end <= |s| && EscapeEnd(v, s, i).Some? && EscapeEnd(v, s, i).value < end
    ensures EscapeEnd(v, s[..end], i) == EscapeEnd(v, s, i)
  {
    hide Value, CharAt, RunEnd;
    var text := s[..end];
    CharCut(s, end);
    var c := s[i];
    assert text[i] == c;
    if c == 'z' && !v.Lua51? {
      RunCut(Blanks, s, end, i + 1);
    } else if c == 'u' && !v.Lua51? && !v.Lua52? {
      var stop := RunEnd(Hexes(false), s, i + 2);
      RunCut(Hexes(false), s, end, i + 2);
      assert s[i + 2..stop] == text[i + 2..stop];
    } else if IsDigit(c) {
      if i + 3 < end {
        assert s[i..i + 3] == text[i..i + 3];
      }
    }
  }

  lemma {:induction false} ShortCut(v: Version, s: string, i: nat, quote: char)
    requires i <= |s| && ShortEnd(v, s, i, quote).Some?
    ensures ShortEnd(v, s[..ShortEnd(v, s, i, quote).value], i, quote) == ShortEnd(v, s, i, quote)
    decreases |s| - i
  {
    hide EscapeEnd;
    var end := ShortEnd(v, s, i, quote).value;
    if s[i] == '\\' {
      var after := EscapeEnd(v, s, i + 1).value;
      EscapeCut(v, s, end, i + 1);
      ShortCut(v, s, after, quote);
    } else if s[i] != quote {
      ShortCut(v, s, i + 1, quote);
    }
  }

  lemma LevelCut(s: string, end: nat)
    requires LongLevel(s, 0).Some? && LongLevel(s, 0).value + 2 <= end <= |s|
    ensures LongLevel(s[..end], 0) == LongLevel(s, 0)
  {
    hide RunEnd;
    RunCut(Equals, s, end, 1);
  }

  lemma {:induction false} LongCut(s: string, i: nat, level: nat)
    requires LongEnd(s, i, level).Some?
    ensures LongEnd(s[..LongEnd(s, i, level).value], i, level) == LongEnd(s, i, level)
    decreases |s| - i
  {
    hide RunEnd;
    var end := LongEnd(s, i, level).value;
    var text := s[..end];
    LongLength(s, i, level);
    RunCut(Equals, s, end, i + 1);
    if !(s[i] == ']' && RunEnd(Equals, s, i + 1) == i + 1 + level && CharAt(s, i + 1 + level) == ']') {
      LongCut(s, i + 1, level);
    }
  }

  lemma {:induction false} LongLength(s: string, i: nat, level: nat)
    requires LongEnd(s, i, level).Some?
    ensures i + level + 2 <= LongEnd(s, i, level).value
    decreases |s| - i
  {
    hide RunEnd;
    if !(s[i] == ']' && RunEnd(Equals, s, i + 1) == i + 1 + level && CharAt(s, i + 1 + level) == ']') {
      LongLength(s, i + 1, level);
    }
  }

  // ----- segments of interpolated strings -----

  /** The text between the byte at 0 and the byte at `at`, closed by a backtick. */
  function Alone(s: string, at: nat): string
    requires 1 <= at <= |s|
  {
    s[1..at] + "`"
  }

  lemma AloneChars(s: string, at: nat)
    requires 1 <= at < |s| && (s[at] == '`' || s[at] == '{')
    ensures |Alone(s, at)| == at
    ensures forall k: nat | 1 <= k < at :: Alone(s, at)[k - 1] == s[k]
    ensures forall k: nat | k < at - 1 :: CharAt(Alone(s, at), k) == CharAt(s, k + 1)
    ensures CharAt(Alone(s, at), at - 1) == '`' && CharAt(Alone(s, at), at) == '\0'
            && CharAt(Alone(s, at), at + 1) == '\0'
  {
  }

  lemma {:induction false} RunAlone(cls: CharClass, s: string, at: nat, i: nat)
    requires 1 <= i <= at < |s| && (s[at] == '`' || s[at] == '{') && (cls.Blanks? || cls == Hexes(false))
    ensures RunEnd(cls, Alone(s, at), i - 1) + 1 == RunEnd(cls, s, i)
    ensures RunEnd(cls, s, i) <= at
    decreases at - i
  {
    hide Alone;
    AloneChars(s, at);
    if i < at && cls.Has(s[i]) {
      RunAlone(cls, s, at, i + 1);
    }
  }

  lemma EscapeAlone(s: string, at: nat, i: nat)
    requires 1 <= i < at < |s| && (s[at] == '`' || s[at] == '{')
    requires EscapeEnd(Luau, s, i).Some? && EscapeEnd(Luau, s, i).value <= at
    ensures |Alone(s, at)| == at && EscapeEnd(Luau, Alone(s, at), i - 1) == Some(EscapeEnd(Luau, s, i).value - 1)
  {
    hide Value, RunEnd, Alone, UnicodeEscapeEnd, DecimalEscapeEnd, CharAt;
    AloneChars(s, at);
    CharAtIs(s, i + 1);
    var c := s[i];
    assert Alone(s, at)[i - 1] == c;
    if c == 'z' {
      RunAlone(Blanks, s, at, i + 1);
    } else if c == 'u' {
      UnicodeAlone(s, at, i);
    } else if IsDigit(c) {
      DecimalAlone(s, at, i);
    }
  }

  lemma CharAtIs(s: string, i: nat)
    ensures i < |s| ==> CharAt(s, i) == s[i]
  {
  }

  lemma UnicodeAlone(s: string, at: nat, i: nat)
    requires 1 <= i < at < |s| && (s[at] == '`' || s[at] == '{')
    requires UnicodeEscapeEnd(s, i).Some? && UnicodeEscapeEnd(s, i).value <= at
    ensures |Alone(s, at)| == at && UnicodeEscapeEnd(Alone(s, at), i - 1) == Some(UnicodeEscapeEnd(s, i).value - 1)
  {
    hide Value, RunEnd, CharAt;
    AloneChars(s, at);
    var stop := RunEnd(Hexes(false), s, i + 2);
    assert i + 2 < at;
    RunAlone(Hexes(false), s, at, i + 2);
    assert Alone(s, at)[i + 1..stop - 1] == s[i + 2..stop];
  }

  lemma DecimalAlone(s: string, at: nat, i: nat)
    requires 1 <= i < at < |s| && (s[at] == '`' || s[at] == '{') && IsDigit(s[i])
    requires DecimalEscapeEnd(s, i).Some? && DecimalEscapeEnd(s, i).value <= at
    ensures |Alone(s, at)| == at && Alone(s, at)[i - 1] == s[i]
    ensures DecimalEscapeEnd(Alone(s, at), i - 1) == Some(DecimalEscapeEnd(s, i).value - 1)
  {
    hide Value;
    AloneChars(s, at);
    var t := Alone(s, at);
    assert i + 1 <= at && CharAt(s, at) == s[at];
    if IsDigit(CharAt(s, i + 1)) {
      if IsDigit(CharAt(s, i + 2)) {
        assert t[i - 1..i + 2] == s[i..i + 3];
      }
    }
  }

  /** A segment read from the source is a segment by itself. */
  lemma {:induction false} SegmentAlone(s: string, i: nat, at: nat)
    requires 1 <= i <= |s| && (Segment(Luau, s, i) == Hole(at) || Segment(Luau, s, i) == Closed(at))
    ensures i <= at < |s| && Segment(Luau, Alone(s, at), i - 1) == Closed(at - 1)
    decreases |s| - i
  {
    hide EscapeEnd, Alone;
    SegmentStops(s, i, at);
    AloneChars(s, at);
    if i < at {
      if s[i] == '\\' {
        if s[i + 1] == '{' || s[i + 1] == '}' || s[i + 1] == '`' {
          SegmentAlone(s, i + 2, at);
        } else {
          var end := EscapeEnd(Luau, s, i + 1).value;
          SegmentAlone(s, end, at);
          EscapeAlone(s, at, i + 1);
        }
      } else {
        SegmentAlone(s, i + 1, at);
      }
    }
  }

  lemma {:induction false} SegmentStops(s: string, i: nat, at: nat)
    requires i <= |s| && (Segment(Luau, s, i) == Hole(at) || Segment(Luau, s, i) == Closed(at))
    ensures i <= at < |s| && (s[at] == '`' || s[at] == '{')
    ensures i < at && s[i] == '\\' ==> i + 1 < at
    ensures i < at ==> !IsBreak(s[i]) && s[i] != '`' && s[i] != '{'
    decreases |s| - i
  {
    hide EscapeEnd;
    if s[i] == '\\' {
      if s[i + 1] == '{' || s[i + 1] == '}' || s[i + 1] == '`' {
        SegmentStops(s, i + 2, at);
      } else {
        SegmentStops(s, EscapeEnd(Luau, s, i + 1).value, at);
      }
    } else if s[i] != '{' && s[i] != '`' {
      SegmentStops(s, i + 1, at);
    }
  }

  // ----- every token -----

  lemma WordSpells(v: Version, s: string, braces: seq<nat>)
    requires s != "" && (IsAlpha(s[0]) || s[0] == '_')
    ensures Spellable(v, WordStep(v, s, braces).token)
  {
    hide KeywordOf;
    var end := RunEnd(WordChars, s, 0);
    assert RunEnd(WordChars, s, 0) >= 1;
    KeywordsFit(v, s[..end]);
  }

  lemma KeywordsFit(v: Version, text: string)
    ensures KeywordOf(v, text) == Some(KwGoto) ==> v.HasGoto()
    ensures KeywordOf(v, text) == Some(KwGlobal) ==> v.HasGlobal()
  {
  }

  lemma StringSpells(v: Version, s: string, braces: seq<nat>)
    requires s != ""
    ensures s[0] == '"' || s[0] == '\'' ==>
              var step := StringStep(ShortEnd(v, s, 1, s[0]), s, braces); step.Lexed? ==> Spellable(v, step.token)
    ensures LongLevel(s, 0).Some? ==>
              var level := LongLevel(s, 0).value;
              var step := StringStep(LongEnd(s, level + 2, level), s, braces); step.Lexed? ==> Spellable(v, step.token)
  {
    hide ShortEnd, LongEnd, LongLevel;
    if (s[0] == '"' || s[0] == '\'') && ShortEnd(v, s, 1, s[0]).Some? {
      ShortCut(v, s, 1, s[0]);
    }
    if LongLevel(s, 0).Some? {
      var level := LongLevel(s, 0).value;
      if LongEnd(s, level + 2, level).Some? {
        LongCut(s, level + 2, level);
        LongLength(s, level + 2, level);
        LevelCut(s, LongEnd(s, level + 2, level).value);
      }
    }
  }

  lemma InterpSpells(v: Version, s: string, first: bool, outer: seq<nat>)
    requires v.Luau? && s != ""
    ensures var step := InterpStep(v, s, first, outer); step.Lexed? ==> Spellable(v, step.token)
  {
    hide Segment;
    var end := Segment(v, s, 1);
    if !end.Unended? {
      SegmentAlone(s, 1, end.at);
      AloneText(s, end.at);
    }
  }

  lemma AloneText(s: string, at: nat)
    requires 1 <= at < |s|
    ensures Alone(s, at) == s[1..at] + "`" && |s[1..at]| == at - 1
  {
  }

  lemma SymbolsFit(v: Version, a: char, b: char, c: char)
    ensures SymbolAt(v, a, b, c).Some? ==> HasSymbol(v, SymbolAt(v, a, b, c).value)
  {
  }

  /** Only Luau opens holes. */
  lemma DispatchSpells(v: Version, s: string, braces: seq<nat>)
    requires s != "" && (braces != [] ==> v.Luau?)
    requires Dispatch(v, s, braces).Lexed? && 0 < Dispatch(v, s, braces).length <= |s|
    ensures Spellable(v, Dispatch(v, s, braces).token)
    ensures Dispatch(v, s, braces).braces != [] ==> v.Luau?
  {
    hide WordStep, NumberEnd, ShortEnd, LongEnd, LongLevel, InterpStep, SymbolAt, SpellSymbol, Spellable, CommentEnd;
    var c := s[0];
    if IsAlpha(c) || c == '_' {
      WordSpells(v, s, braces);
      WordKeepsBraces(v, s, braces);
    } else if IsDigit(c) || (c == '.' && IsDigit(CharAt(s, 1))) {
      NumeralSpells(v, s);
      NumeralIsSpellable(v, s);
    } else if c == '"' || c == '\'' || c == '[' {
      StringSpells(v, s, braces);
      SymbolIsSpellable(v, s);
    } else if c == '`' && v.Luau? {
      InterpSpells(v, s, true, braces);
    } else {
      SymbolIsSpellable(v, s);
      if braces != [] {
        InterpSpells(v, s, false, braces[..|braces| - 1]);
      }
    }
  }

  lemma WordKeepsBraces(v: Version, s: string, braces: seq<nat>)
    ensures WordStep(v, s, braces).Lexed? && WordStep(v, s, braces).braces == braces
  {
    hide KeywordOf;
  }

  lemma NumeralIsSpellable(v: Version, s: string)
    requires NumberEnd(v, s).Some? && NumberEnd(v, s).value <= |s|
    ensures IsNumeral(v, s[..NumberEnd(v, s).value]) ==> Spellable(v, Numeral(s[..NumberEnd(v, s).value]))
  {
  }

  lemma SymbolIsSpellable(v: Version, s: string)
    requires s != ""
    ensures var symbol := SymbolAt(v, s[0], CharAt(s, 1), CharAt(s, 2)); symbol.Some? ==>
              Spellable(v, Sign(symbol.value))
  {
    hide SymbolAt, HasSymbol;
    SymbolsFit(v, s[0], CharAt(s, 1), CharAt(s, 2));
  }

  /** The tokens of a text are all spellable. */
  lemma {:induction false} LexedSpells(v: Version, s: string, braces: seq<nat>)
    requires Lex(v, s, braces).Some? && (braces != [] ==> v.Luau?)
    ensures AllSpellable(v, Lex(v, s, braces).value)
    decreases |s|
  {
    hide Dispatch, Spellable;
    var i := RunEnd(Blanks, s, 0);
    if i < |s| {
      match Dispatch(v, s[i..], braces)
      case Malformed =>
      case Commented(length) => LexedSpells(v, s[i + length..], braces);
      case Lexed(token, length, after) =>
        DispatchSpells(v, s[i..], braces);
        LexedSpells(v, s[i + length..], after);
    }
  }
}
