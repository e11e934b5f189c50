/** What the lexer reads at the head of a text (`lexer.rs`, `number.rs`, `string.rs`). Characters
    stand for the bytes of the source. */
module Scanner {
  import opened Wrappers
  import opened LuaSyntax

  /** The byte at `i`, or NUL past the end. */
  function CharAt(s: string, i: nat): char { if i < |s| then s[i] else '\0' }

  predicate IsDigit(c: char) { '0' <= c <= '9' }

  predicate IsAlpha(c: char) { 'a' <= c <= 'z' || 'A' <= c <= 'Z' }

  predicate IsHex(c: char) { IsDigit(c) || 'a' <= c <= 'f' || 'A' <= c <= 'F' }

  predicate IsWordChar(c: char) { IsAlpha(c) || IsDigit(c) || c == '_' }

  predicate IsBlank(c: char) { c == ' ' || c == '\t' || c == '\n' || c == '\r' || c == '\U{000B}' || c == '\U{000C}' }

  datatype CharClass = WordChars | Decimals(underscores: bool) | Hexes(underscores: bool) | Bits | Blanks | Equals {
    predicate Has(c: char) {
      match this
      case WordChars => IsWordChar(c)
      case Decimals(u) => IsDigit(c) || (u && c == '_')
      case Hexes(u) => IsHex(c) || (u && c == '_')
      case Bits => c == '0' || c == '1' || c == '_'
      case Blanks => IsBlank(c)
      case Equals => c == '='
    }
  }

  /** The end of the run of `cls` that starts at `i`. */
  function RunEnd(cls: CharClass, s: string, i: nat): (r: nat)
    ensures i <= r && (i <= |s| ==> r <= |s|)
    ensures forall k :: i <= k < r ==> k < |s| && cls.Has(s[k])
    ensures r < |s| ==> !cls.Has(s[r])
    decreases |s| - i
  {
    if i < |s| && cls.Has(s[i]) then RunEnd(cls, s, i + 1) else i
  }

  // ----- words -----

  function SpellKeyword(w: Keyword): string {
    match w
    case KwAnd => "and"
    case KwBreak => "break"
    case KwDo => "do"
    case KwElse => "else"
    case KwElseIf => "elseif"
    case KwEnd => "end"
    case KwFalse => "false"
    case KwFor => "for"
    case KwFunction => "function"
    case KwGoto => "goto"
    case KwGlobal => "global"
    case KwIf => "if"
    case KwIn => "in"
    case KwLocal => "local"
    case KwNil => "nil"
    case KwNot => "not"
    case KwOr => "or"
    case KwRepeat => "repeat"
    case KwReturn => "return"
    case KwThen => "then"
    case KwTrue => "true"
    case KwUntil => "until"
    case KwWhile => "while"
  }

  function KeywordOf(v: Version, text: string): Option<Keyword> {
    if text == "and" then Some(KwAnd)
    else if text == "break" then Some(KwBreak)
    else if text == "do" then Some(KwDo)
    else if text == "else" then Some(KwElse)
    else if text == "elseif" then Some(KwElseIf)
    else if text == "end" then Some(KwEnd)
    else if text == "false" then Some(KwFalse)
    else if text == "for" then Some(KwFor)
    else if text == "function" then Some(KwFunction)
    else if text == "if" then Some(KwIf)
    else if text == "in" then Some(KwIn)
    else if text == "local" then Some(KwLocal)
    else if text == "nil" then Some(KwNil)
    else if text == "not" then Some(KwNot)
    else if text == "or" then Some(KwOr)
    else if text == "repeat" then Some(KwRepeat)
    else if text == "return" then Some(KwReturn)
    else if text == "then" then Some(KwThen)
    else if text == "true" then Some(KwTrue)
    else if text == "until" then Some(KwUntil)
    else if text == "while" then Some(KwWhile)
    else if text == "goto" && v.HasGoto() then Some(KwGoto)
    else if text == "global" && v.HasGlobal() then Some(KwGlobal)
    else None
  }

  // ----- numbers -----

  predicate HasHexFloats(v: Version) { !v.Lua51? && !v.Luau? }

  function DigitValue(c: char): nat {
    if '0' <= c <= '9' then (c - '0') as nat
    else if 'a' <= c <= 'f' then (c - 'a') as nat + 10
    else if 'A' <= c <= 'F' then (c - 'A') as nat + 10
    else 0
  }

  /** The value of the digits, underscores skipped. */
  function Value(digits: string, radix: nat): nat {
    if digits == "" then 0
    else
      var rest := Value(digits[..|digits| - 1], radix);
      var last := digits[|digits| - 1];
      if last == '_' then rest else rest * radix + DigitValue(last)
  }

  predicate InRange(digits: string, radix: nat) {
    && (exists k :: 0 <= k < |digits| && digits[k] != '_')
    && Value(digits, radix) < (if radix == 10 then 0x8000_0000_0000_0000 else 0x1_0000_0000_0000_0000)
  }

  /** Past the `i` of a Luau integer whose digits start at `from`, or `j` where there is none. */
  function IntegerSuffix(v: Version, s: string, from: nat, j: nat, radix: nat): Option<nat> {
    if v.Luau? && CharAt(s, j) == 'i' then
      if from <= j <= |s| && InRange(s[from..j], radix) then Some(j + 1) else None
    else Some(j)
  }

  /** The length of the numeral `s` starts with; none where it is malformed. */
  function NumberEnd(v: Version, s: string): Option<nat> {
    if CharAt(s, 0) == '0' && (CharAt(s, 1) == 'x' || CharAt(s, 1) == 'X') then HexEnd(v, s)
    else if v.Luau? && CharAt(s, 0) == '0' && (CharAt(s, 1) == 'b' || CharAt(s, 1) == 'B') then BinaryEnd(v, s)
    else DecimalEnd(v, s)
  }

  predicate HasDigitsUpTo(s: string, whole: nat) { exists k :: 2 <= k < whole && k < |s| && IsHex(s[k]) }

  function HexEnd(v: Version, s: string): Option<nat> {
    var whole := RunEnd(Hexes(v.Luau?), s, 2);
    var hasWhole := HasDigitsUpTo(s, whole);
    if HasHexFloats(v) then
      var fraction := if CharAt(s, whole) == '.' then RunEnd(Hexes(false), s, whole + 1) else whole;
      if !hasWhole && fraction <= whole + 1 then None
      else
        var exponent := ExponentEnd(v, s, fraction, 'p', 'P');
        if exponent.None? || CharAt(s, exponent.value) == '.' then None else HexTail(s, exponent.value)
    else if !hasWhole then None
    else if (CharAt(s, whole) == '.' && IsHex(CharAt(s, whole + 1))) || CharAt(s, whole) == 'p'
      || CharAt(s, whole) == 'P' then None
    else if v.Luau? && CharAt(s, whole) == '.' && CharAt(s, whole + 1) == '.' then None
    else
      var end := IntegerSuffix(v, s, 2, whole, 16);
      if end.None? then None else HexTail(s, end.value)
  }

  function HexTail(s: string, j: nat): Option<nat> {
    if IsAlpha(CharAt(s, j)) || CharAt(s, j) == '_' then None else Some(j)
  }

  /** Past the exponent where `lower` or `upper` opens one at `j`; its digits are required. */
  function ExponentEnd(v: Version, s: string, j: nat, lower: char, upper: char): Option<nat> {
    if CharAt(s, j) == lower || CharAt(s, j) == upper then
      var from := if CharAt(s, j + 1) == '+' || CharAt(s, j + 1) == '-' then j + 2 else j + 1;
      var end := RunEnd(Decimals(v.Luau?), s, from);
      if end == from then None else Some(end)
    else Some(j)
  }

  function BinaryEnd(v: Version, s: string): Option<nat> {
    var end := RunEnd(Bits, s, 2);
    if end == 2 || (CharAt(s, end) == '.' && CharAt(s, end + 1) == '.') then None else IntegerSuffix(v, s, 2, end, 2)
  }

  function DecimalEnd(v: Version, s: string): Option<nat> {
    var whole := RunEnd(Decimals(v.Luau?), s, 0);
    var fraction := if CharAt(s, whole) == '.'
      && TakesDot(CharAt(s, whole + 1)) then RunEnd(Decimals(v.Luau?), s, whole + 1) else whole;
    var exponent := ExponentEnd(v, s, fraction, 'e', 'E');
    if exponent.None? then None
    else
      var end := exponent.value;
      if CharAt(s, end) == '.' && CharAt(s, end + 1) == '.' then None
      else if v.Luau? && CharAt(s, end) == 'i' && end != whole then None
      else IntegerSuffix(v, s, 0, end, 10)
  }

  /** Whether the `.` before `after` belongs to the numeral. */
  predicate TakesDot(after: char) {
    IsDigit(after) || after == 'e' || after == 'E' || !(after == '.' || IsAlpha(after) || after == '_')
  }

  // ----- strings -----

  predicate IsBreak(c: char) { c == '\n' || c == '\r' }

  predicate SimpleEscape(c: char) { c in "abfnrtv\\'\"" }

  /** Past the escape sequence whose first byte after `\` is at `i`; none where `v` has no such escape. */
  function EscapeEnd(v: Version, s: string, i: nat): (r: Option<nat>)
    requires i < |s|
    ensures r.Some? ==> i < r.value <= |s|
  {
    var c := s[i];
    if c == '\n' then Some(if !v.Luau? && CharAt(s, i + 1) == '\r' then i + 2 else i + 1)
    else if c == '\r' then Some(if CharAt(s, i + 1) == '\n' then i + 2 else i + 1)
    else if IsDigit(c) then DecimalEscapeEnd(s, i)
    else if c == 'x' && !v.Lua51? then if IsHex(CharAt(s, i + 1)) && IsHex(CharAt(s, i + 2)) then Some(i + 3) else None
    else if c == 'z' && !v.Lua51? then Some(RunEnd(Blanks, s, i + 1))
    else if c == 'u' && !v.Lua51? && !v.Lua52? then UnicodeEscapeEnd(s, i)
    else if SimpleEscape(c) || v.Lua51? then Some(i + 1)
    else None
  }

  function DecimalEscapeEnd(s: string, i: nat): (r: Option<nat>)
    requires i < |s| && IsDigit(s[i])
    ensures r.Some? ==> i < r.value <= |s|
  {
    if !IsDigit(CharAt(s, i + 1)) then Some(i + 1)
    else if !IsDigit(CharAt(s, i + 2)) then Some(i + 2)
    else if Value(s[i..i + 3], 10) <= 255 then Some(i + 3)
    else None
  }

  function UnicodeEscapeEnd(s: string, i: nat): (r: Option<nat>)
    requires i < |s|
    ensures r.Some? ==> i < r.value <= |s|
  {
    if CharAt(s, i + 1) != '{' then None
    else
      var end := RunEnd(Hexes(false), s, i + 2);
      if end == i + 2 || 0x8000_0000 <= Value(s[i + 2..end], 16) || CharAt(s, end) != '}' then None else Some(end + 1)
  }

  /** Past the closing `quote` of a short string whose body goes on at `i`. */
  function ShortEnd(v: Version, s: string, i: nat, quote: char): (r: Option<nat>)
    requires i <= |s|
    ensures r.Some? ==> i < r.value <= |s|
    decreases |s| - i
  {
    if i == |s| || IsBreak(s[i]) then None
    else if s[i] == '\\' then
      if i + 1 == |s| then None
      else
        var end := EscapeEnd(v, s, i + 1);
        if end.None? then None else ShortEnd(v, s, end.value, quote)
    else if s[i] == quote then Some(i + 1)
    else ShortEnd(v, s, i + 1, quote)
  }

  /** The level of the long bracket `[=*[` at `i`. */
  function LongLevel(s: string, i: nat): (r: Option<nat>)
    ensures r.Some? ==> i + r.value + 2 <= |s|
  {
    if CharAt(s, i) != '[' then None
    else
      var end := RunEnd(Equals, s, i + 1);
      if CharAt(s, end) == '[' then Some(end - i - 1) else None
  }

  /** Past the first closer `]=*]` of `level` at or after `i`. */
  function LongEnd(s: string, i: nat, level: nat): (r: Option<nat>)
    ensures r.Some? ==> i < r.value <= |s|
    decreases |s| - i
  {
    if |s| <= i then None
    else if s[i] == ']' && RunEnd(Equals, s, i + 1) == i + 1 + level
      && CharAt(s, i + 1 + level) == ']' then Some(i + level + 2)
    else LongEnd(s, i + 1, level)
  }

  /** How a segment of an interpolated string ends, and where. */
  datatype SegmentEnd = Unended | Hole(at: nat) | Closed(at: nat)

  function Segment(v: Version, s: string, i: nat): (r: SegmentEnd)
    requires i <= |s|
    ensures !r.Unended? ==> i <= r.at < |s|
    decreases |s| - i
  {
    if i == |s| || IsBreak(s[i]) then Unended
    else if s[i] == '\\' then
      if i + 1 == |s| then Unended
      else if s[i + 1] == '{' || s[i + 1] == '}' || s[i + 1] == '`' then Segment(v, s, i + 2)
      else
        var end := EscapeEnd(v, s, i + 1);
        if end.None? then Unended else Segment(v, s, end.value)
    else if s[i] == '{' then if CharAt(s, i + 1) == '{' then Unended else Hole(i)
    else if s[i] == '`' then Closed(i)
    else Segment(v, s, i + 1)
  }

  // ----- symbols -----

  function SpellSymbol(s: Symbol): string {
    match s
    case Plus => "+"
    case Minus => "-"
    case Star => "*"
    case Slash => "/"
    case FloorDivide => "//"
    case Percent => "%"
    case Caret => "^"
    case Hash => "#"
    case Ampersand => "&"
    case Tilde => "~"
    case Pipe => "|"
    case ShiftLeft => "<<"
    case ShiftRight => ">>"
    case EqualEqual => "=="
    case TildeEqual => "~="
    case Less => "<"
    case LessEqual => "<="
    case Greater => ">"
    case GreaterEqual => ">="
    case Equal => "="
    case LeftParen => "("
    case RightParen => ")"
    case LeftBrace => "{"
    case RightBrace => "}"
    case LeftBracket => "["
    case RightBracket => "]"
    case DoubleColon => "::"
    case Semicolon => ";"
    case Colon => ":"
    case Comma => ","
    case Dot => "."
    case DotDot => ".."
    case DotDotDot => "..."
    case PlusEqual => "+="
    case MinusEqual => "-="
    case StarEqual => "*="
    case SlashEqual => "/="
    case FloorDivideEqual => "//="
    case PercentEqual => "%="
    case CaretEqual => "^="
    case DotDotEqual => "..="
    case Arrow => "->"
    case At => "@"
    case Question => "?"
  }

  /** The symbol the dialect reads from its next three bytes, longest match first. */
  function SymbolAt(v: Version, a: char, b: char, c: char): Option<Symbol> {
    match a
    case '+' => Some(if v.Luau? && b == '=' then PlusEqual else Plus)
    case '*' => Some(if v.Luau? && b == '=' then StarEqual else Star)
    case '%' => Some(if v.Luau? && b == '=' then PercentEqual else Percent)
    case '^' => Some(if v.Luau? && b == '=' then CaretEqual else Caret)
    case '(' => Some(LeftParen)
    case ')' => Some(RightParen)
    case '{' => Some(LeftBrace)
    case '}' => Some(RightBrace)
    case '[' => Some(LeftBracket)
    case ']' => Some(RightBracket)
    case ';' => Some(Semicolon)
    case ',' => Some(Comma)
    case '#' => Some(Hash)
    case '-' => Some(if v.Luau? && b == '=' then MinusEqual else if v.Luau? && b == '>' then Arrow else Minus)
    case '/' =>
      Some(if b == '/' && v.HasFloorDiv() then if v.Luau? && c == '=' then FloorDivideEqual else FloorDivide
           else if b != '/' && v.Luau? && b == '=' then SlashEqual
           else Slash)
    case '.' =>
      Some(if b == '.' then
             if c == '.' then DotDotDot else if v.Luau? && c == '=' then DotDotEqual else DotDot
           else Dot)
    case ':' => Some(if b == ':' then DoubleColon else Colon)
    case '=' => Some(if b == '=' then EqualEqual else Equal)
    case '~' => if b == '=' then Some(TildeEqual) else if v.HasBitwise() then Some(Tilde) else None
    case '&' => if v.HasBitwise() || v.Luau? then Some(Ampersand) else None
    case '|' => if v.HasBitwise() || v.Luau? then Some(Pipe) else None
    case '<' => Some(if b == '=' then LessEqual else if b == '<' && v.HasBitwise() then ShiftLeft else Less)
    case '>' => Some(if b == '=' then GreaterEqual else if b == '>' && v.HasBitwise() then ShiftRight else Greater)
    case '@' => if v.Luau? then Some(Symbol.At) else None
    case '?' => if v.Luau? then Some(Question) else None
    case _ => None
  }

  // ----- one dispatch -----

  datatype Step =
    | Lexed(token: Token, length: nat, braces: seq<nat>)
    | Commented(length: nat)
    | Malformed

  /** A comment, `--` at the head: a long bracket or the rest of the line. */
  function CommentEnd(s: string): (r: Option<nat>)
    requires 2 <= |s|
    ensures r.Some? ==> 2 <= r.value <= |s|
  {
    var level := LongLevel(s, 2);
    if level.Some? then LongEnd(s, level.value + 4, level.value) else Some(LineEnd(s, 2))
  }

  function LineEnd(s: string, i: nat): (r: nat)
    requires i <= |s|
    ensures i <= r <= |s|
    decreases |s| - i
  {
    if i == |s| || IsBreak(s[i]) then i else LineEnd(s, i + 1)
  }

  /** The token of a segment that starts after the byte at 0; `first` where that byte is a backtick.
      A hole opens a brace count of its own. */
  function InterpStep(v: Version, s: string, first: bool, outer: seq<nat>): Step
    requires 1 <= |s|
  {
    match Segment(v, s, 1)
    case Unended => Malformed
    case Hole(at) => Lexed(if first then InterpBegin(s[1..at]) else InterpMid(s[1..at]), at + 1, outer + [0])
    case Closed(at) => Lexed(if first then InterpWhole(s[1..at]) else InterpEnd(s[1..at]), at + 1, outer)
  }

  function StringStep(end: Option<nat>, s: string, braces: seq<nat>): Step
    requires end.Some? ==> end.value <= |s|
  {
    if end.None? then Malformed else Lexed(Quoted(s[..end.value]), end.value, braces)
  }

  function NumberStep(v: Version, s: string, braces: seq<nat>): Step {
    var end := NumberEnd(v, s);
    if end.None? || |s| < end.value then Malformed else Lexed(Numeral(s[..end.value]), end.value, braces)
  }

  function WordStep(v: Version, s: string, braces: seq<nat>): Step {
    var end := RunEnd(WordChars, s, 0);
    var keyword := KeywordOf(v, s[..end]);
    Lexed(if keyword.Some? then Word(keyword.value) else Identifier(s[..end]), end, braces)
  }

  /** `braces` counts, for every hole that is open, the `{` not yet closed inside it. */
  function SymbolStep(v: Version, s: string, braces: seq<nat>): Step
    requires 1 <= |s|
  {
    var top := |braces| - 1;
    if s[0] == '}' && braces != [] && braces[top] == 0 then InterpStep(v, s, false, braces[..top])
    else
      var symbol := SymbolAt(v, s[0], CharAt(s, 1), CharAt(s, 2));
      if symbol.None? then Malformed
      else
        Lexed(Sign(symbol.value), |SpellSymbol(symbol.value)|,
              if braces == [] then braces
              else if s[0] == '{' then braces[top := braces[top] + 1]
              else if s[0] == '}' then braces[top := braces[top] - 1]
              else braces)
  }

  /** What the lexer makes of a text that does not start with a blank. */
  function Dispatch(v: Version, s: string, braces: seq<nat>): Step
    requires 1 <= |s|
  {
    var c := s[0];
    if IsAlpha(c) || c == '_' then WordStep(v, s, braces)
    else if IsDigit(c) then NumberStep(v, s, braces)
    else if c == '"' || c == '\'' then StringStep(ShortEnd(v, s, 1, c), s, braces)
    else if c == '`' && v.Luau? then InterpStep(v, s, true, braces)
    else if c == '-' && CharAt(s, 1) == '-' then
      var end := CommentEnd(s);
      if end.None? then Malformed else Commented(end.value)
    else if c == '[' && LongLevel(s, 0).Some? then
      var level := LongLevel(s, 0).value;
      StringStep(LongEnd(s, level + 2, level), s, braces)
    else if c == '.' && IsDigit(CharAt(s, 1)) then NumberStep(v, s, braces)
    else SymbolStep(v, s, braces)
  }

  /** The tokens of a text; none where a part of it is malformed. */
  function Lex(v: Version, s: string, braces: seq<nat>): Option<Tokens>
    decreases |s|
  {
    var i := RunEnd(Blanks, s, 0);
    if i == |s| then Some(Eof)
    else
      match Dispatch(v, s[i..], braces)
      case Malformed => None
      case Commented(length) => if 0 < length <= |s| - i then Lex(v, s[i + length..], braces) else None
      case Lexed(token, length, after) =>
        if 0 < length <= |s| - i then
          var rest := Lex(v, s[i + length..], after);
          if rest.None? then None else Some(Tok(token, rest.value))
        else None
  }
}
