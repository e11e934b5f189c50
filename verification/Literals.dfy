/** String literals: the writers (`synth.rs`, the bundler's `emitter.rs`), the decoders
    (`ast_equiv.rs`) and the quote normalizer (`quotes.rs`). Characters stand for bytes. */
module Literals {
  import opened Wrappers
  import opened LuaSyntax
  import opened Scanner
  import opened Relex

  predicate IsByte(c: char) { c as int < 256 }

  predicate AllBytes(s: string) { forall k :: 0 <= k < |s| ==> IsByte(s[k]) }

  // ----- decoding a short string -----

  predicate IsAsciiWhitespace(c: char) { c in " \t\n\r" || c == '\U{000C}' }

  /** `u8::from_str_radix` on two digits: a sign may take the place of the first. */
  function HexByte(a: char, b: char): Option<char> {
    if !IsHex(b) || !(IsHex(a) || a == '+') then None
    else Some(((if a == '+' then 0 else DigitValue(a) * 16) + DigitValue(b)) as char)
  }

  /** The index of the first `}` of `t`, or its length. */
  function BraceAt(t: string): (r: nat)
    ensures r <= |t|
    ensures forall k :: 0 <= k < r ==> t[k] != '}'
    ensures r < |t| ==> t[r] == '}'
  {
    if t == "" || t[0] == '}' then 0 else 1 + BraceAt(t[1..])
  }

  predicate AllHex(digits: string) { forall k :: 0 <= k < |digits| ==> IsHex(digits[k]) }

  /** `u32::from_str_radix` followed by `char::from_u32`: a Unicode scalar value. */
  function CodePoint(hex: string): (r: Option<nat>)
    ensures r.Some? ==> r.value < 0x11_0000
  {
    var digits := if hex != "" && hex[0] == '+' then hex[1..] else hex;
    if digits == "" || !AllHex(digits) then None
    else
      var value := Value(digits, 16);
      if value < 0xD800 || 0xE000 <= value < 0x11_0000 then Some(value) else None
  }

  function Utf8(code: nat): string
    requires code < 0x11_0000
  {
    if code < 0x80 then [code as char]
    else if code < 0x800 then [(0xC0 + code / 64) as char, (0x80 + code % 64) as char]
    else if code < 0x1_0000 then
      [(0xE0 + code / 4096) as char, (0x80 + code / 64 % 64) as char, (0x80 + code % 64) as char]
    else
      [(0xF0 + code / 262144) as char, (0x80 + code / 4096 % 64) as char,
       (0x80 + code / 64 % 64) as char, (0x80 + code % 64) as char]
  }

  /** The bytes one escape stands for and where decoding goes on. `t` starts behind the `\` and ends
      with the closing quote of the literal. */
  function DecodeEscape(t: string): (r: Option<(string, nat)>)
    requires t != ""
    ensures r.Some? ==> 0 < r.value.1 <= |t|
  {
    var e := t[0];
    if e == 'n' then Some(("\n", 1))
    else if e == 't' then Some(("\t", 1))
    else if e == 'r' then Some(("\r", 1))
    else if e == 'a' then Some(("\U{0007}", 1))
    else if e == 'b' then Some(("\U{0008}", 1))
    else if e == 'f' then Some(("\U{000C}", 1))
    else if e == 'v' then Some(("\U{000B}", 1))
    else if e == 'z' then Some(("", 1 + Whitespace(t[1..])))
    else if e == 'x' then
      if |t| < 3 || HexByte(t[1], t[2]).None? then None else Some(([HexByte(t[1], t[2]).value], 3))
    else if e == 'u' then DecodeUnicode(t)
    else if IsDigit(e) then DecodeDecimal(t)
    else Some(([e], 1))
  }

  function DecodeUnicode(t: string): (r: Option<(string, nat)>)
    requires t != ""
    ensures r.Some? ==> 0 < r.value.1 <= |t|
  {
    if |t| < 3 || t[1] != '{' then None
    else
      var inner := t[2..|t| - 1];
      var close := BraceAt(inner);
      if close == |inner| || CodePoint(inner[..close]).None? then None
      else Some((Utf8(CodePoint(inner[..close]).value), close + 3))
  }

  /** The whitespace in front of the closing quote, `t` behind `\z`. */
  function Whitespace(t: string): (r: nat)
    ensures r <= |t|
  {
    if |t| <= 1 || !IsAsciiWhitespace(t[0]) then 0 else 1 + Whitespace(t[1..])
  }

  /** Up to three digits, the closing quote not among them. */
  function DecodeDecimal(t: string): (r: Option<(string, nat)>)
    requires t != "" && IsDigit(t[0])
    ensures r.Some? ==> 0 < r.value.1 <= |t|
  {
    var count := if 2 < |t| && IsDigit(t[1]) then if 3 < |t| && IsDigit(t[2]) then 3 else 2 else 1;
    var value := Value(t[..count], 10);
    if value < 256 then Some(([value as char], count)) else None
  }

  /** The decoded contents of `t`, which ends with the closing quote. */
  function DecodeBody(t: string): Option<string>
    decreases |t|
  {
    if |t| <= 1 then Some("")
    else if t[0] != '\\' then
      var rest := DecodeBody(t[1..]);
      if rest.None? then None else Some([t[0]] + rest.value)
    else
      var escape := DecodeEscape(t[1..]);
      if escape.None? then None
      else
        var rest := DecodeBody(t[1 + escape.value.1..]);
        if rest.None? then None else Some(escape.value.0 + rest.value)
  }

  function DecodeShort(literal: string): Option<string>
    requires literal != ""
  {
    if |literal| < 2 || literal[|literal| - 1] != literal[0] then None else DecodeBody(literal[1..])
  }

  function DecodeLong(raw: string): Option<string>
    requires raw != ""
  {
    var level := RunEnd(Equals, raw, 1) - 1;
    if |raw| < 2 * (level + 2) then None
    else
      var contents := raw[level + 2..|raw| - (level + 2)];
      Some(if 2 <= |contents| && contents[0] == '\r' && contents[1] == '\n' then contents[2..]
           else if 1 <= |contents| && contents[0] == '\n' then contents[1..]
           else contents)
  }

  function Decode(raw: string): Option<string> {
    if raw == "" then None
    else if raw[0] == '"' || raw[0] == '\'' then DecodeShort(raw)
    else if raw[0] == '[' then DecodeLong(raw)
    else None
  }

  // ----- what an escape stands for -----

  /** The letters of the manual's escapes (section 3.1 of the Lua reference manual) and their bytes. */
  const ESCAPE_LETTERS := "abfnrtv"
  const ESCAPE_BYTES := [7, 8, 12, 10, 13, 9, 11]

  lemma LettersDecode(k: nat, rest: string)
    requires k < 7
    ensures DecodeEscape([ESCAPE_LETTERS[k]] + rest) == Some(([ESCAPE_BYTES[k] as char], 1))
  {
  }

  /** Two hexadecimal digits are one byte, the first digit the high half. */
  lemma HexDecodes(a: char, b: char, rest: string)
    requires IsHex(a) && IsHex(b)
    ensures DecodeEscape("x" + [a, b] + rest) == Some(([(16 * DigitValue(a) + DigitValue(b)) as char], 3))
  {
    var t := "x" + [a, b] + rest;
    assert t[0] == 'x' && t[1] == a && t[2] == b;
  }

  predicate IsTail(c: char) { 0x80 <= c as int < 0xC0 }

  /** The code point that the bytes of `s` start with, in their shortest form (section 3 of RFC 3629). */
  function ReadUtf8(s: string): Option<(int, nat)> {
    var b, c, d, e := CharAt(s, 0) as int, CharAt(s, 1) as int, CharAt(s, 2) as int, CharAt(s, 3) as int;
    if s == "" then None
    else if b < 0x80 then Some((b, 1))
    else if 0xC2 <= b < 0xE0 && |s| >= 2 && IsTail(s[1]) then Some(((b - 0xC0) * 64 + c - 0x80, 2))
    else if 0xE0 <= b < 0xF0 && |s| >= 3 && IsTail(s[1]) && IsTail(s[2]) && (b == 0xE0 ==> 0xA0 <= c) then
      Some(((b - 0xE0) * 4096 + (c - 0x80) * 64 + d - 0x80, 3))
    else if 0xF0 <= b < 0xF5 && |s| >= 4 && IsTail(s[1]) && IsTail(s[2]) && IsTail(s[3])
      && (b == 0xF0 ==> 0x90 <= c) then
      Some(((b - 0xF0) * 262144 + (c - 0x80) * 4096 + (d - 0x80) * 64 + e - 0x80, 4))
    else None
  }

  lemma OneByte(a: nat)
    requires a < 0x80
    ensures ReadUtf8([a as char]) == Some((a as int, 1))
  {
  }

  lemma TwoBytes(b: nat, a: nat)
    requires 2 <= b < 32 && a < 64
    ensures ReadUtf8([(0xC0 + b) as char, (0x80 + a) as char]) == Some((b * 64 + a, 2))
  {
  }

  lemma ThreeBytes(c: nat, b: nat, a: nat)
    requires c < 16 && b < 64 && a < 64 && (c == 0 ==> 32 <= b)
    ensures ReadUtf8([(0xE0 + c) as char, (0x80 + b) as char, (0x80 + a) as char])
            == Some((c * 4096 + b * 64 + a, 3))
  {
  }

  lemma FourBytes(d: nat, c: nat, b: nat, a: nat)
    requires d < 5 && c < 64 && b < 64 && a < 64 && (d == 0 ==> 16 <= c)
    ensures ReadUtf8([(0xF0 + d) as char, (0x80 + c) as char, (0x80 + b) as char, (0x80 + a) as char])
            == Some((d * 262144 + c * 4096 + b * 64 + a, 4))
  {
  }

  /** A code point is spelled in the bytes that read as it. */
  lemma Utf8Reads(code: nat)
    requires code < 0x11_0000
    ensures ReadUtf8(Utf8(code)) == Some((code as int, |Utf8(code)| as nat))
  {
    hide ReadUtf8;
    var a, b, c := code % 64, code / 64 % 64, code / 4096 % 64;
    if code < 0x80 {
      OneByte(code);
    } else if code < 0x800 {
      TwoBytes(code / 64, a);
    } else if code < 0x1_0000 {
      assert code / 64 == code / 4096 * 64 + b;
      ThreeBytes(code / 4096, b, a);
    } else {
      assert code / 64 == code / 4096 * 64 + b && code / 4096 == code / 262144 * 64 + c;
      FourBytes(code / 262144, c, b, a);
    }
  }

  // ----- the quoting writers -----

  datatype Writer = QuoteUtf8 | QuoteBytes | QuoteLuaString

  function DecimalEscape(c: char): string
    requires IsByte(c)
  {
    var b := c as int;
    ['\\', ('0' as int + b / 100) as char, ('0' as int + b / 10 % 10) as char, ('0' as int + b % 10) as char]
  }

  /** How a writer spells one byte. */
  function Escape(w: Writer, c: char): string
    requires IsByte(c)
  {
    if c == '\\' then "\\\\"
    else if c == '"' then "\\\""
    else if c == '\n' then "\\n"
    else if c == '\r' then "\\r"
    else if c == '\t' && !w.QuoteLuaString? then "\\t"
    else if 0x20 <= c as int <= 0x7e || (w.QuoteUtf8? && 0x80 <= c as int) then [c]
    else DecimalEscape(c)
  }

  function Escaped(w: Writer, s: string): string
    requires AllBytes(s)
  {
    if s == "" then "" else Escape(w, s[0]) + Escaped(w, s[1..])
  }

  function QuoteWith(w: Writer, s: string): string
    requires AllBytes(s)
  {
    "\"" + Escaped(w, s) + "\""
  }

  lemma {:induction false} EscapedAppends(w: Writer, s: string, c: char)
    requires AllBytes(s) && IsByte(c)
    ensures Escaped(w, s + [c]) == Escaped(w, s) + Escape(w, c)
  {
    hide Escape;
    if s == "" {
      assert s + [c] == [c] && [c][1..] == "";
    } else {
      EscapedAppends(w, s[1..], c);
      assert (s + [c])[0] == s[0] && (s + [c])[1..] == s[1..] + [c];
    }
  }

  method Quote(w: Writer, content: string) returns (raw: string)
    requires AllBytes(content)
    ensures raw == QuoteWith(w, content)
  {
    hide Escape;
    raw := "\"";
    for i := 0 to |content|
      invariant raw == "\"" + Escaped(w, content[..i])
    {
      EscapedAppends(w, content[..i], content[i]);
      assert content[..i + 1] == content[..i] + [content[i]];
      raw := raw + Escape(w, content[i]);
    }
    assert content[..|content|] == content;
    raw := raw + "\"";
  }

  /** One spelled byte decodes to the byte, whatever follows, and to nothing more. */
  lemma EscapeDecodes(w: Writer, c: char, rest: string)
    requires IsByte(c) && rest != ""
    ensures DecodeBody(Escape(w, c) + rest)
            == (var tail := DecodeBody(rest); if tail.None? then None else Some([c] + tail.value))
  {
    hide DecodeBody;
    var t := Escape(w, c) + rest;
    if Escape(w, c) == [c] {
      assert t[1..] == rest;
      DecodePlain(t);
    } else if Escape(w, c) == DecimalEscape(c) {
      DecimalDecodes(c, rest);
      assert t[1 + 3..] == rest;
      DecodeEscaped(t, [c], 3);
    } else {
      assert t[1 + 1..] == rest;
      assert DecodeEscape(t[1..]) == Some(([c], 1));
      DecodeEscaped(t, [c], 1);
    }
  }

  lemma DecodePlain(t: string)
    requires 2 <= |t| && t[0] != '\\'
    ensures DecodeBody(t) == (var tail := DecodeBody(t[1..]); if tail.None? then None else Some([t[0]] + tail.value))
  {
  }

  lemma DecodeEscaped(t: string, bytes: string, n: nat)
    requires 2 <= |t| && t[0] == '\\' && n + 1 <= |t| && DecodeEscape(t[1..]) == Some((bytes, n))
    ensures DecodeBody(t) == (var tail := DecodeBody(t[1 + n..]); if tail.None? then None else Some(bytes + tail.value))
  {
    hide DecodeEscape;
  }

  /** `\` and the three decimal digits of the byte. */
  lemma DecimalShape(c: char)
    requires IsByte(c)
    ensures var e := DecimalEscape(c);
            && |e| == 4 && e[0] == '\\' && IsDigit(e[1]) && IsDigit(e[2]) && IsDigit(e[3])
            && Value(e[1..], 10) == c as int
  {
    var e := DecimalEscape(c);
    var b := c as int;
    ThreeDigits(e[1..]);
    assert b == b / 100 * 100 + b / 10 % 10 * 10 + b % 10;
  }

  lemma DecimalDecodes(c: char, rest: string)
    requires IsByte(c) && rest != ""
    ensures DecodeEscape((DecimalEscape(c) + rest)[1..]) == Some(([c], 3))
  {
    hide DecimalEscape, Value;
    var e := DecimalEscape(c);
    var t := (e + rest)[1..];
    DecimalShape(c);
    assert t[..3] == e[1..];
    assert t[0] == e[1] && t[1] == e[2] && t[2] == e[3];
  }

  lemma ThreeDigits(s: string)
    requires |s| == 3 && IsDigit(s[0]) && IsDigit(s[1]) && IsDigit(s[2])
    ensures Value(s, 10) == DigitValue(s[0]) * 100 + DigitValue(s[1]) * 10 + DigitValue(s[2])
  {
    assert s[..2][..1] == [s[0]] && s[..2][..1][..0] == "";
    assert Value(s[..2][..1], 10) == DigitValue(s[0]);
    assert Value(s[..2], 10) == Value(s[..2][..1], 10) * 10 + DigitValue(s[1]);
  }

  lemma {:induction false} EscapedDecodes(w: Writer, s: string)
    requires AllBytes(s)
    ensures DecodeBody(Escaped(w, s) + "\"") == Some(s)
    decreases |s|
  {
    hide Escape, DecodeBody;
    if s == "" {
      EmptyBody();
      assert Escaped(w, "") + "\"" == "\"";
    } else {
      EscapedDecodes(w, s[1..]);
      EscapeDecodes(w, s[0], Escaped(w, s[1..]) + "\"");
      assert Escaped(w, s) + "\"" == Escape(w, s[0]) + (Escaped(w, s[1..]) + "\"");
      assert [s[0]] + s[1..] == s;
    }
  }

  lemma EmptyBody()
    ensures DecodeBody("\"") == Some("")
    ensures Escaped(QuoteUtf8, "") == Escaped(QuoteBytes, "") == Escaped(QuoteLuaString, "") == ""
  {
  }

  /** Decoding inverts every writer, on all byte sequences. */
  lemma DecodeInvertsQuote(w: Writer, s: string)
    requires AllBytes(s)
    ensures Decode(QuoteWith(w, s)) == Some(s)
  {
    hide DecodeBody, Escaped;
    EscapedDecodes(w, s);
    assert QuoteWith(w, s)[1..] == Escaped(w, s) + "\"";
  }

  /** What a writer writes is one string token in every dialect: no quote closes it early. */
  lemma {:induction false} EscapedStays(v: Version, w: Writer, before: string, s: string)
    requires AllBytes(s)
    ensures ShortEnd(v, before + Escaped(w, s) + "\"", |before|, '"') == Some(|before| + |Escaped(w, s)| + 1)
    decreases |s|
  {
    hide Escape, EscapeEnd;
    var t := before + Escaped(w, s) + "\"";
    if s != "" {
      var next := before + Escape(w, s[0]);
      var rest := Escaped(w, s[1..]) + "\"";
      assert t == next + Escaped(w, s[1..]) + "\"";
      assert t == before + Escape(w, s[0]) + rest;
      EscapedStays(v, w, next, s[1..]);
      ByteStays(v, w, before, s[0], rest);
    }
  }

  lemma ByteStays(v: Version, w: Writer, before: string, c: char, rest: string)
    requires IsByte(c) && rest != ""
    ensures var t := before + Escape(w, c) + rest;
            ShortEnd(v, t, |before|, '"') == ShortEnd(v, t, |before| + |Escape(w, c)|, '"')
  {
    hide Escape, DecimalEscape, EscapeEnd;
    EscapeForms(w, c);
    DecimalShape(c);
    var t := before + Escape(w, c) + rest;
    var at := |before|;
    assert t[at] == Escape(w, c)[0];
    if Escape(w, c) == DecimalEscape(c) {
      DecimalStays(v, before, c, rest);
    } else if |Escape(w, c)| == 2 {
      assert t[at + 1] == Escape(w, c)[1];
      SimpleStays(v, t, at);
    }
  }

  /** The three ways a byte is spelled. */
  lemma EscapeForms(w: Writer, c: char)
    requires IsByte(c)
    ensures var e := Escape(w, c);
            || (e == [c] && c != '\\' && c != '"' && !IsBreak(c))
            || e == DecimalEscape(c)
            || (|e| == 2 && e[0] == '\\' && SimpleEscape(e[1]))
  {
  }

  lemma SimpleStays(v: Version, t: string, at: nat)
    requires at + 2 < |t| && t[at] == '\\' && SimpleEscape(t[at + 1])
    ensures ShortEnd(v, t, at, '"') == ShortEnd(v, t, at + 2, '"')
  {
    hide Value;
    assert EscapeEnd(v, t, at + 1) == Some(at + 2);
  }

  lemma DecimalStays(v: Version, before: string, c: char, rest: string)
    requires IsByte(c) && rest != ""
    ensures var t := before + DecimalEscape(c) + rest;
            ShortEnd(v, t, |before|, '"') == ShortEnd(v, t, |before| + 4, '"')
  {
    hide Value, DecimalEscape;
    var e := DecimalEscape(c);
    var t := before + e + rest;
    var at := |before|;
    DecimalShape(c);
    assert t[at + 1..at + 4] == e[1..];
    assert t[at] == e[0] && t[at + 1] == e[1] && t[at + 2] == e[2] && t[at + 3] == e[3];
    assert DecimalEscapeEnd(t, at + 1) == Some(at + 4);
    assert EscapeEnd(v, t, at + 1) == Some(at + 4);
  }

  lemma QuoteIsOneToken(v: Version, w: Writer, s: string)
    requires AllBytes(s)
    ensures IsQuoted(v, QuoteWith(w, s))
  {
    hide Escaped, ShortEnd, LongEnd;
    EscapedStays(v, w, "\"", s);
  }

  // ----- interpolated-string text -----

  /** How `interp_text` spells one byte of a segment. */
  function InterpEscape(c: char): string
    requires IsByte(c)
  {
    if c == '\\' then "\\\\"
    else if c == '`' then "\\`"
    else if c == '{' then "\\{"
    else if c == '\n' then "\\n"
    else if c == '\r' then "\\r"
    else if c == '\t' then "\\t"
    else if c as int < 0x20 || c as int == 0x7f then DecimalEscape(c)
    else [c]
  }

  function InterpText(s: string): string
    requires AllBytes(s)
  {
    if s == "" then "" else InterpEscape(s[0]) + InterpText(s[1..])
  }

  /** No text opens a hole or closes the string: a segment ends where its text does. */
  lemma {:induction false} InterpTextStays(before: string, s: string)
    requires AllBytes(s)
    ensures Segment(Luau, before + InterpText(s) + "`", |before|) == Closed(|before| + |InterpText(s)|)
    decreases |s|
  {
    hide InterpEscape, EscapeEnd;
    var t := before + InterpText(s) + "`";
    if s != "" {
      var next := before + InterpEscape(s[0]);
      var rest := InterpText(s[1..]) + "`";
      assert t == next + InterpText(s[1..]) + "`";
      assert t == before + InterpEscape(s[0]) + rest;
      InterpTextStays(next, s[1..]);
      InterpByteStays(before, s[0], rest);
    }
  }

  lemma PlainForm(before: string, c: char, rest: string)
    requires rest != "" && c != '\\' && c != '`' && c != '{' && !IsBreak(c)
    ensures Segment(Luau, before + [c] + rest, |before|) == Segment(Luau, before + [c] + rest, |before| + 1)
  {
    hide EscapeEnd;
    assert (before + [c] + rest)[|before|] == c;
  }

  lemma SimpleForm(before: string, e: string, rest: string)
    requires rest != "" && |e| == 2 && e[0] == '\\' && (SimpleEscape(e[1]) || e[1] == '`' || e[1] == '{')
    ensures Segment(Luau, before + e + rest, |before|) == Segment(Luau, before + e + rest, |before| + 2)
  {
    hide Segment, SimpleEscape;
    var t := before + e + rest;
    assert t[|before|] == e[0] && t[|before| + 1] == e[1];
    SimpleSegment(t, |before|);
  }

  lemma InterpByteStays(before: string, c: char, rest: string)
    requires IsByte(c) && rest != ""
    ensures var t := before + InterpEscape(c) + rest;
            Segment(Luau, t, |before|) == Segment(Luau, t, |before| + |InterpEscape(c)|)
  {
    hide InterpEscape, DecimalEscape, Segment, SimpleEscape, IsBreak;
    var e := InterpEscape(c);
    InterpForms(c);
    if e == DecimalEscape(c) {
      DecimalSegment(before, c, rest);
    } else if |e| == 2 {
      SimpleForm(before, e, rest);
    } else {
      PlainForm(before, c, rest);
    }
  }

  lemma InterpForms(c: char)
    requires IsByte(c)
    ensures var e := InterpEscape(c);
            || (e == [c] && c != '\\' && c != '`' && c != '{' && !IsBreak(c))
            || e == DecimalEscape(c)
            || (|e| == 2 && e[0] == '\\' && (SimpleEscape(e[1]) || e[1] == '`' || e[1] == '{'))
  {
  }

  lemma SimpleSegment(t: string, at: nat)
    requires at + 2 < |t| && t[at] == '\\' && (SimpleEscape(t[at + 1]) || t[at + 1] == '`' || t[at + 1] == '{')
    ensures Segment(Luau, t, at) == Segment(Luau, t, at + 2)
  {
    hide Value;
    if SimpleEscape(t[at + 1]) {
      assert EscapeEnd(Luau, t, at + 1) == Some(at + 2);
    }
  }

  lemma DecimalSegment(before: string, c: char, rest: string)
    requires IsByte(c) && rest != ""
    ensures |DecimalEscape(c)| == 4
    ensures var t := before + DecimalEscape(c) + rest; Segment(Luau, t, |before|) == Segment(Luau, t, |before| + 4)
  {
    hide Value, DecimalEscape;
    var e := DecimalEscape(c);
    var t := before + e + rest;
    var at := |before|;
    DecimalShape(c);
    assert t[at + 1..at + 4] == e[1..];
    assert t[at] == e[0] && t[at + 1] == e[1] && t[at + 2] == e[2] && t[at + 3] == e[3];
    assert DecimalEscapeEnd(t, at + 1) == Some(at + 4);
    assert EscapeEnd(Luau, t, at + 1) == Some(at + 4);
  }

  lemma InterpTextIsSegment(s: string)
    requires AllBytes(s)
    ensures IsSegment(Luau, InterpText(s))
  {
    hide InterpText, Segment;
    InterpTextStays("", s);
    assert "" + InterpText(s) + "`" == InterpText(s) + "`";
  }

  lemma InterpEscapeDecodes(c: char, rest: string)
    requires IsByte(c) && rest != ""
    ensures DecodeBody(InterpEscape(c) + rest)
            == (var tail := DecodeBody(rest); if tail.None? then None else Some([c] + tail.value))
  {
    hide DecodeBody;
    var t := InterpEscape(c) + rest;
    if InterpEscape(c) == [c] {
      assert t[1..] == rest;
      DecodePlain(t);
    } else if InterpEscape(c) == DecimalEscape(c) {
      DecimalDecodes(c, rest);
      assert t[1 + 3..] == rest;
      DecodeEscaped(t, [c], 3);
    } else {
      assert t[1 + 1..] == rest;
      assert DecodeEscape(t[1..]) == Some(([c], 1));
      DecodeEscaped(t, [c], 1);
    }
  }

  /** The text of a segment, read with the escapes of a string, stands for the bytes it was made from. */
  lemma {:induction false} InterpTextDecodes(s: string)
    requires AllBytes(s)
    ensures DecodeBody(InterpText(s) + "`") == Some(s)
    decreases |s|
  {
    hide InterpEscape, DecodeBody;
    if s == "" {
      assert InterpText(s) + "`" == "`";
      EmptySegment();
    } else {
      InterpTextDecodes(s[1..]);
      InterpEscapeDecodes(s[0], InterpText(s[1..]) + "`");
      assert InterpText(s) + "`" == InterpEscape(s[0]) + (InterpText(s[1..]) + "`");
      assert [s[0]] + s[1..] == s;
    }
  }

  lemma EmptySegment()
    ensures DecodeBody("`") == Some("")
  {
  }

  // ----- long brackets -----

  function Closer(level: nat): string { "]" + Times('=', level) + "]" }

  predicate OccursAt(s: string, part: string, i: int) { 0 <= i <= |s| - |part| && s[i..i + |part|] == part }

  predicate Contains(s: string, part: string) { exists i :: 0 <= i <= |s| && OccursAt(s, part, i) }

  predicate EndsWith(s: string, part: string) { |part| <= |s| && s[|s| - |part|..] == part }

  /** The closer occurs in the content, or starts in it and is finished by the closing bracket. */
  predicate Collides(content: string, level: nat) {
    Contains(content, Closer(level)) || EndsWith(content, Closer(level)[..|Closer(level)| - 1])
  }

  lemma {:induction false} RepeatShape(n: nat)
    ensures |Times('=', n)| == n && forall k :: 0 <= k < n ==> Times('=', n)[k] == '='
  {
    if n > 0 {
      RepeatShape(n - 1);
    }
  }

  lemma LongLevelsAreFree(content: string, level: nat)
    requires |content| <= level
    ensures !Collides(content, level)
  {
    RepeatShape(level);
  }

  /** `long_string`: the raw text, and the level it settles on. */
  method LongString(content: string) returns (raw: string, ghost level: nat)
    requires AllBytes(content)
    ensures '\r' in content || '\0' in content ==> raw == QuoteWith(QuoteUtf8, content)
    ensures '\r' !in content && '\0' !in content ==>
              && raw == LongRaw(content, level)
              && !Collides(content, level) && level <= |content|
              && forall lower :: 0 <= lower < level ==> Collides(content, lower)
  {
    level := 0;
    if '\r' in content || '\0' in content {
      raw := Quote(QuoteUtf8, content);
      return;
    }
    var n := 0;
    LongLevelsAreFree(content, |content|);
    while Collides(content, n)
      invariant n <= |content|
      invariant forall lower :: 0 <= lower < n ==> Collides(content, lower)
      decreases |content| - n
    {
      assert n < |content| by {
        if |content| <= n {
          LongLevelsAreFree(content, n);
        }
      }
      n := n + 1;
    }
    level := n;
    raw := "[" + Times('=', n) + "[" + (if content != "" && content[0] == '\n' then "\n" else "") + content + Closer(n);
  }

  function LongRaw(content: string, level: nat): string {
    "[" + Times('=', level) + "[" + (if content != "" && content[0] == '\n' then "\n" else "") + content + Closer(level)
  }

  /** A closer of `level` at `i`, as the lexer looks for one. */
  predicate CloserAt(t: string, i: nat, level: nat) {
    i < |t| && t[i] == ']' && RunEnd(Equals, t, i + 1) == i + 1 + level && CharAt(t, i + 1 + level) == ']'
  }

  lemma {:induction false} RunOfEquals(t: string, i: nat, n: nat)
    requires i + n <= |t| && (forall k :: i <= k < i + n ==> t[k] == '=') && CharAt(t, i + n) != '='
    ensures RunEnd(Equals, t, i) == i + n
    decreases n
  {
    if n > 0 {
      RunOfEquals(t, i + 1, n - 1);
    }
  }

  lemma CloserShape(level: nat)
    ensures var c := Closer(level);
            && |c| == level + 2 && c[0] == ']' && c[level + 1] == ']'
            && forall k :: 1 <= k <= level ==> c[k] == '='
  {
    RepeatShape(level);
  }

  lemma CloserOccurs(t: string, i: nat, level: nat)
    ensures CloserAt(t, i, level) <==> OccursAt(t, Closer(level), i)
  {
    hide Closer;
    CloserShape(level);
    var c := Closer(level);
    if CloserAt(t, i, level) {
      assert forall k | 0 <= k < |c| :: t[i + k] == c[k];
      assert t[i..i + |c|] == c;
    }
    if OccursAt(t, c, i) {
      var w := t[i..i + |c|];
      assert forall k | 0 <= k < |c| :: w[k] == t[i + k];
      RunOfEquals(t, i + 1, level);
    }
  }

  /** Before its last closer, content and closer hold one only where they collide. */
  lemma EarlyCloserCollides(before: string, content: string, level: nat, i: nat)
    requires |before| <= i < |before| + |content| && CloserAt(before + content + Closer(level), i, level)
    ensures Collides(content, level)
  {
    hide Closer;
    CloserShape(level);
    var c := Closer(level);
    var t := before + content + c;
    var j := i - |before|;
    CloserOccurs(t, i, level);
    var w := t[i..i + |c|];
    assert forall k | 0 <= k < |c| :: w[k] == t[i + k];
    if j + |c| <= |content| {
      assert content[j..j + |c|] == c;
      assert OccursAt(content, c, j);
    } else {
      assert t[|before| + |content|] == c[0];
      assert c[|before| + |content| - i] == ']';
      assert j + level + 1 == |content|;
      assert content[j..] == c[..|c| - 1];
    }
  }

  lemma CollisionIsEarly(content: string, level: nat) returns (i: nat)
    requires Collides(content, level)
    ensures i < |content| && CloserAt(content + Closer(level), i, level)
  {
    hide Closer;
    CloserShape(level);
    var c := Closer(level);
    var t := content + c;
    if Contains(content, c) {
      i :| 0 <= i <= |content| && OccursAt(content, c, i);
      assert t[i..i + |c|] == content[i..i + |c|];
    } else {
      i := |content| - (level + 1);
      assert t[i..i + |c|] == content[i..] + [c[0]];
      assert content[i..] + [c[0]] == c;
    }
    CloserOccurs(t, i, level);
  }

  lemma {:induction false} LongEndIsFirst(t: string, j: nat, i: nat, level: nat)
    requires j <= i && CloserAt(t, i, level)
    ensures LongEnd(t, j, level).Some? && LongEnd(t, j, level).value <= i + level + 2
    decreases i - j
  {
    if j < i && !CloserAt(t, j, level) {
      LongEndIsFirst(t, j + 1, i, level);
    }
  }

  lemma {:induction false} FreeContentCloses(before: string, content: string, level: nat, i: nat)
    requires !Collides(content, level) && |before| <= i <= |before| + |content|
    ensures LongEnd(before + content + Closer(level), i, level) == Some(|before| + |content| + level + 2)
    decreases |before| + |content| - i
  {
    hide Closer;
    CloserShape(level);
    var c := Closer(level);
    var t := before + content + c;
    if i == |before| + |content| {
      assert t[i..i + |c|] == c;
      CloserOccurs(t, i, level);
    } else {
      if CloserAt(t, i, level) {
        EarlyCloserCollides(before, content, level, i);
      }
      FreeContentCloses(before, content, level, i + 1);
    }
  }

  /** A level is free exactly when the first closer in content and closer is the closer itself. */
  lemma CollidesIffClosedEarly(content: string, level: nat)
    ensures Collides(content, level) <==> LongEnd(content + Closer(level), 0, level) != Some(|content| + level + 2)
  {
    hide Closer, LongEnd, Collides;
    if Collides(content, level) {
      var i := CollisionIsEarly(content, level);
      LongEndIsFirst(content + Closer(level), 0, i, level);
    } else {
      FreeContentCloses("", content, level, 0);
      assert "" + content + Closer(level) == content + Closer(level);
    }
  }

  lemma OpenerShape(content: string, level: nat)
    ensures var raw := LongRaw(content, level);
            && |raw| >= 2 * level + 4 && raw[0] == '[' && RunEnd(Equals, raw, 1) == level + 1 && raw[level + 1] == '['
  {
    hide Closer;
    RepeatShape(level);
    CloserShape(level);
    var raw := LongRaw(content, level);
    assert forall k :: 1 <= k < level + 1 ==> raw[k] == Times('=', level)[k - 1];
    RunOfEquals(raw, 1, level);
  }

  /** At a free level the raw text is one string token in every dialect, and decodes to the content. */
  lemma LongStringReads(v: Version, content: string, level: nat)
    requires '\r' !in content && !Collides(content, level)
    ensures IsQuoted(v, LongRaw(content, level))
    ensures Decode(LongRaw(content, level)) == Some(content)
  {
    hide Closer, Collides, LongEnd;
    OpenerShape(content, level);
    CloserShape(level);
    RepeatShape(level);
    var raw := LongRaw(content, level);
    assert LongLevel(raw, 0) == Some(level);
    LongRawCloses(content, level);
    var newline := if content != "" && content[0] == '\n' then "\n" else "";
    assert raw[level + 2..|raw| - (level + 2)] == newline + content;
    assert newline == "\n" ==> (newline + content)[1..] == content;
    assert newline == "" ==> newline + content == content;
  }

  lemma LongRawCloses(content: string, level: nat)
    requires !Collides(content, level)
    ensures var raw := LongRaw(content, level); LongEnd(raw, level + 2, level) == Some(|raw|)
  {
    hide Closer, Collides;
    RepeatShape(level);
    CloserShape(level);
    var raw := LongRaw(content, level);
    var newline := if content != "" && content[0] == '\n' then "\n" else "";
    var before := "[" + Times('=', level) + "[" + newline;
    assert raw == before + content + Closer(level);
    FreeContentCloses(before, content, level, |before|);
    if newline == "\n" {
      assert raw[level + 2] == '\n';
    }
  }
}
