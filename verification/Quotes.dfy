/** The formatter's quote normalizer (`quotes.rs`): it changes the delimiter of a short string and
    never what the string means. */
module Quotes {
  import opened Wrappers
  import opened LuaSyntax
  import opened Scanner
  import opened Literals
  import opened Relex

  datatype QuoteStyle = Double | Single | AutoPreferDouble | AutoPreferSingle

  function Count(s: string, c: char): nat {
    if s == "" then 0 else (if s[0] == c then 1 else 0) + Count(s[1..], c)
  }

  function TargetQuote(style: QuoteStyle, content: string): char {
    var preferred := if style.Double? || style.AutoPreferDouble? then '"' else '\'';
    var other := if preferred == '"' then '\'' else '"';
    if (style.AutoPreferDouble? || style.AutoPreferSingle?) && Count(content, other) < Count(content, preferred)
    then other else preferred
  }

  /** The contents with the delimiter `current` replaced by `target`. */
  function Swap(content: string, current: char, target: char): string
    decreases |content|
  {
    if content == "" then ""
    else if content[0] == '\\' then
      if |content| == 1 then "\\"
      else if content[1] == current then [current] + Swap(content[2..], current, target)
      else ['\\', content[1]] + Swap(content[2..], current, target)
    else if content[0] == target then ['\\', target] + Swap(content[1..], current, target)
    else [content[0]] + Swap(content[1..], current, target)
  }

  function Contents(literal: string): string
    requires 2 <= |literal|
  {
    literal[1..|literal| - 1]
  }

  function Normalize(literal: string, style: QuoteStyle): string
    requires 2 <= |literal|
  {
    if literal[0] == '[' then literal
    else
      var content := Contents(literal);
      var target := TargetQuote(style, content);
      var swapped := Swap(content, literal[0], target);
      if literal[0] == target || Count(content, '\\') < Count(swapped, '\\') then literal
      else [target] + swapped + [target]
  }

  lemma {:induction false} CountAppends(s: string, t: string, c: char)
    ensures Count(s + t, c) == Count(s, c) + Count(t, c)
  {
    if s == "" {
      assert s + t == t;
    } else {
      assert (s + t)[0] == s[0] && (s + t)[1..] == s[1..] + t;
      CountAppends(s[1..], t, c);
    }
  }

  method CountOf(s: string, c: char) returns (n: nat)
    ensures n == Count(s, c)
  {
    n := 0;
    for i := 0 to |s|
      invariant n == Count(s[..i], c)
    {
      assert s[..i + 1] == s[..i] + [s[i]];
      CountAppends(s[..i], [s[i]], c);
      if s[i] == c {
        n := n + 1;
      }
    }
    assert s[..|s|] == s;
  }

  lemma Regroup(a: string, b: string, c: string)
    ensures a + (b + c) == a + b + c && b + "" == b
  {
  }

  lemma SwapNothing(current: char, target: char)
    ensures Swap("", current, target) == ""
  {
  }

  lemma SwapSteps(s: string, current: char, target: char)
    requires s != ""
    ensures s == "\\" ==> Swap(s, current, target) == "\\"
    ensures s[0] == '\\' && |s| > 1 ==>
              Swap(s, current, target) == (if s[1] == current then [current] else ['\\', s[1]])
                + Swap(s[2..], current, target)
    ensures s[0] != '\\' ==>
              Swap(s, current, target) == (if s[0] == target then ['\\', target] else [s[0]])
                + Swap(s[1..], current, target)
  {
  }

  method NormalizeQuote(literal: string, style: QuoteStyle) returns (result: string)
    requires 2 <= |literal|
    ensures result == Normalize(literal, style)
  {
    if literal[0] == '[' {
      return literal;
    }
    var current := literal[0];
    var content := literal[1..|literal| - 1];
    var target := TargetQuote(style, content);
    if current == target {
      return literal;
    }
    hide Swap;
    var body := "";
    var i := 0;
    ghost var goal := Swap(content, current, target);
    assert content[0..] == content;
    while i < |content|
      invariant 0 <= i <= |content|
      invariant body + Swap(content[i..], current, target) == goal
    {
      ghost var (rest, before) := (content[i..], body);
      SwapSteps(rest, current, target);
      var ch := content[i];
      i := i + 1;
      var made := [ch];
      if ch == '\\' {
        if i < |content| {
          var escaped := content[i];
          assert content[i + 1..] == rest[2..];
          i := i + 1;
          made := if escaped == current then [current] else ['\\', escaped];
        } else {
          assert rest == "\\" && content[i..] == "";
          SwapNothing(current, target);
        }
      } else {
        assert content[i..] == rest[1..];
        made := if ch == target then ['\\', target] else [ch];
      }
      body := body + made;
      Regroup(before, made, Swap(content[i..], current, target));
    }
    SwapNothing(current, target);
    assert content[i..] == "" && body + "" == body;
    var before := CountOf(content, '\\');
    var after := CountOf(body, '\\');
    result := if before < after then literal else [target] + body + [target];
  }

  // ----- what a normalized literal is -----

  predicate IsQuoteChar(c: char) { c == '"' || c == '\'' }

  /** No unescaped delimiter and no dangling `\`: the body of a closed literal. */
  predicate ClosedBody(content: string, quote: char)
    decreases |content|
  {
    content == "" ||
    (if content[0] == '\\' then 2 <= |content| && ClosedBody(content[2..], quote)
     else content[0] != quote && ClosedBody(content[1..], quote))
  }

  predicate Closed(literal: string) {
    && 2 <= |literal| && IsQuoteChar(literal[0]) && literal[|literal| - 1] == literal[0]
    && ClosedBody(Contents(literal), literal[0])
  }

  lemma {:induction false} SwapCloses(content: string, current: char, target: char)
    requires ClosedBody(content, current) && IsQuoteChar(current) && IsQuoteChar(target) && current != target
    ensures ClosedBody(Swap(content, current, target), target)
    decreases |content|
  {
    if content != "" {
      var swapped := Swap(content, current, target);
      if content[0] == '\\' {
        SwapCloses(content[2..], current, target);
        if content[1] == current {
          assert swapped[1..] == Swap(content[2..], current, target);
        } else {
          assert swapped[2..] == Swap(content[2..], current, target);
        }
      } else {
        SwapCloses(content[1..], current, target);
        if content[0] == target {
          assert swapped[2..] == Swap(content[1..], current, target);
        } else {
          assert swapped[1..] == Swap(content[1..], current, target);
        }
      }
    }
  }

  /** Quote characters are counted the same under either delimiter. */
  lemma {:induction false} SwapKeepsCounts(content: string, current: char, target: char, c: char)
    requires IsQuoteChar(current) && IsQuoteChar(target) && IsQuoteChar(c)
    ensures Count(Swap(content, current, target), c) == Count(content, c)
    decreases |content|
  {
    hide Swap, Count;
    if content == "" {
      SwapHead(content, current, target);
    } else if content[0] == '\\' && |content| == 1 {
      LoneBackslash(content, current, target);
    } else {
      var n := if content[0] == '\\' then 2 else 1;
      var head := SwapStep(content, current, target);
      SwapKeepsCounts(content[n..], current, target, c);
      CountAppends(head, Swap(content[n..], current, target), c);
      CountAppends(content[..n], content[n..], c);
      assert content == content[..n] + content[n..];
      HeadCount(content[..n], head, c);
    }
  }

  /** One step of the walk: what it writes for the first character or escape pair. */
  lemma SwapStep(content: string, current: char, target: char) returns (head: string)
    requires content != "" && (content[0] == '\\' ==> 2 <= |content|)
    ensures var n := if content[0] == '\\' then 2 else 1;
            && Swap(content, current, target) == head + Swap(content[n..], current, target)
            && 1 <= |head| <= 2 && head[|head| - 1] == content[n - 1] && (|head| == 2 ==> head[0] == '\\')
  {
    head := if content[0] == '\\' then if content[1] == current then [current] else ['\\', content[1]]
            else if content[0] == target then ['\\', target]
            else [content[0]];
  }

  lemma LoneBackslash(content: string, current: char, target: char)
    requires content == "\\"
    ensures Swap(content, current, target) == content
  {
  }

  /** A `\` more or less in front of a character changes no count but its own. */
  lemma HeadCount(s: string, t: string, c: char)
    requires c != '\\' && 1 <= |s| <= 2 && 1 <= |t| <= 2 && s[|s| - 1] == t[|t| - 1]
    requires |s| == 2 ==> s[0] == '\\'
    requires |t| == 2 ==> t[0] == '\\'
    ensures Count(s, c) == Count(t, c)
  {
    if |s| == 2 {
      assert s[1..] == [s[1]];
    }
    if |t| == 2 {
      assert t[1..] == [t[1]];
    }
  }

  // ----- decoding is kept -----

  /** Characters the walk copies. */
  predicate Plain(c: char) { c != '\\' && !IsQuoteChar(c) }

  lemma {:induction false} SwapCopies(content: string, n: nat, current: char, target: char)
    requires n <= |content| && IsQuoteChar(current) && IsQuoteChar(target)
    requires forall k :: 0 <= k < n ==> Plain(content[k])
    ensures Swap(content, current, target) == content[..n] + Swap(content[n..], current, target)
    ensures ClosedBody(content, current) ==> ClosedBody(content[n..], current)
    decreases n
  {
    if n > 0 {
      SwapCopies(content[1..], n - 1, current, target);
      assert content[1..][n - 1..] == content[n..];
      assert content[..n] == [content[0]] + content[1..][..n - 1];
    } else {
      assert content[0..] == content && content[..0] == "";
    }
  }

  /** The swapped text goes on with a character the original does, or with a quote or `\`. */
  lemma SwapHead(content: string, current: char, target: char)
    requires IsQuoteChar(current) && IsQuoteChar(target)
    ensures Swap(content, current, target) == "" <==> content == ""
    ensures content != "" ==>
              var c := Swap(content, current, target)[0];
              c == content[0] || !Plain(c)
  {
  }

  lemma {:induction false} SwapDecodes(content: string, current: char, target: char)
    requires IsQuoteChar(current) && IsQuoteChar(target) && current != target
    requires ClosedBody(content, current)
    ensures DecodeBody(Swap(content, current, target) + [target]) == DecodeBody(content + [current])
    decreases |content|
  {
    hide DecodeBody, DecodeEscape, ClosedBody, Swap;
    if content == "" {
      EmptyBodies(current, target);
    } else if content[0] == '\\' {
      BodyTail(content, current);
      EscapeSwaps(content, current, target);
      var t := content + [current];
      if DecodeEscape(t[1..]).Some? {
        var n := DecodeEscape(t[1..]).value.1;
        DecodeEscaped(t, DecodeEscape(t[1..]).value.0, n);
        assert t[1 + n..] == content[1 + n..] + [current];
        SwapDecodes(content[1 + n..], current, target);
      } else {
        EscapeFails(t);
      }
    } else {
      BodyTail(content, current);
      PlainSwaps(content, current, target);
      SwapDecodes(content[1..], current, target);
    }
  }

  function Put(c: char, tail: Option<string>): Option<string> { if tail.None? then None else Some([c] + tail.value) }

  /** One unescaped character, itself under either delimiter. */
  lemma PlainSwaps(content: string, current: char, target: char)
    requires IsQuoteChar(current) && IsQuoteChar(target) && current != target
    requires content != "" && content[0] != '\\' && content[0] != current
    ensures DecodeBody(content + [current]) == Put(content[0], DecodeBody(content[1..] + [current]))
    ensures DecodeBody(Swap(content, current, target) + [target])
            == Put(content[0], DecodeBody(Swap(content[1..], current, target) + [target]))
  {
    hide DecodeBody, DecodeEscape, Swap;
    var t := content + [current];
    DecodePlain(t);
    assert t[1..] == content[1..] + [current];
    SwapUnescaped(content, current, target);
    var s := Swap(content, current, target) + [target];
    var rest := Swap(content[1..], current, target) + [target];
    if content[0] == target {
      assert s == ['\\', target] + rest;
      assert s[1..] == [target] + rest && s[2..] == rest;
      QuoteEscape(target, rest);
      DecodeEscaped(s, [target], 1);
    } else {
      assert s == [content[0]] + rest;
      DecodePlain(s);
      assert s[1..] == rest;
    }
  }

  lemma SwapUnescaped(content: string, current: char, target: char)
    requires content != "" && content[0] != '\\'
    ensures Swap(content, current, target)
            == (if content[0] == target then ['\\', target] else [content[0]]) + Swap(content[1..], current, target)
  {
  }

  lemma EmptyBodies(current: char, target: char)
    ensures DecodeBody("" + [current]) == Some("") && DecodeBody(Swap("", current, target) + [target]) == Some("")
  {
  }

  lemma BodyTail(content: string, quote: char)
    requires content != "" && ClosedBody(content, quote)
    ensures content[0] == '\\' ==> 2 <= |content| && ClosedBody(content[2..], quote)
    ensures content[0] != '\\' ==> content[0] != quote && ClosedBody(content[1..], quote)
  {
  }

  lemma QuoteEscape(q: char, rest: string)
    requires IsQuoteChar(q)
    ensures DecodeEscape([q] + rest) == Some(([q], 1))
  {
  }

  lemma EscapeFails(t: string)
    requires 2 <= |t| && t[0] == '\\' && DecodeEscape(t[1..]).None?
    ensures DecodeBody(t) == None
  {
    hide DecodeEscape;
  }

  /** One escape: behind either delimiter it decodes to the same bytes, over the same characters, or it
      fails. */
  lemma EscapeSwaps(content: string, current: char, target: char)
    requires IsQuoteChar(current) && IsQuoteChar(target) && current != target
    requires 2 <= |content| && content[0] == '\\' && ClosedBody(content[2..], current)
    ensures var decoded := DecodeEscape((content + [current])[1..]);
            var all := DecodeBody(Swap(content, current, target) + [target]);
            && (decoded.None? ==> all == None)
            && (decoded.Some? ==>
                  var (bytes, n) := decoded.value;
                  && n + 1 <= |content| && ClosedBody(content[1 + n..], current)
                  && all == (var tail := DecodeBody(Swap(content[1 + n..], current, target) + [target]);
                             if tail.None? then None else Some(bytes + tail.value)))
  {
    hide DecodeEscape, ClosedBody, Swap, DecodeBody;
    var e := content[1];
    var rest := content[2..];
    var t := [e] + rest + [current];
    assert (content + [current])[1..] == t;
    EscapeReach(e, rest, current, target);
    var swapped := Swap(content, current, target) + [target];
    SwapPair(content, current, target);
    if e == current {
      QuoteEscape(e, rest + [current]);
      assert t == [e] + (rest + [current]);
      assert rest[0..] == rest && content[2..] == rest;
      assert swapped == [current] + (Swap(rest, current, target) + [target]);
      DecodePlain(swapped);
      assert swapped[1..] == Swap(rest, current, target) + [target];
    } else {
      assert swapped[1..] == [e] + Swap(rest, current, target) + [target];
      if DecodeEscape(t).None? {
        EscapeFails(swapped);
      } else {
        var n := DecodeEscape(t).value.1;
        var tail := Swap(rest[n - 1..], current, target) + [target];
        assert content[1 + n..] == rest[n - 1..];
        assert swapped == ['\\', e] + rest[..n - 1] + tail;
        DecodeEscaped(swapped, DecodeEscape(t).value.0, n);
        assert swapped[1 + n..] == tail;
      }
    }
  }

  lemma SwapPair(content: string, current: char, target: char)
    requires 2 <= |content| && content[0] == '\\'
    ensures Swap(content, current, target)
            == (if content[1] == current then [current] else ['\\', content[1]]) + Swap(content[2..], current, target)
  {
  }

  /** `decoded`, of an escape with first character `e` and `rest` behind it, is what the swapped `rest`
      gives too, and if there is one it spans only plain characters of `rest`. */
  predicate Reaches(e: char, rest: string, current: char, target: char, decoded: Option<(string, nat)>,
                    swapped: Option<(string, nat)>) {
    && swapped == decoded
    && (decoded.Some? ==>
      && 1 <= decoded.value.1 <= |rest| + 1
      && Swap(rest, current, target) == rest[..decoded.value.1 - 1] + Swap(rest[decoded.value.1 - 1..], current, target)
      && (ClosedBody(rest, current) ==> ClosedBody(rest[decoded.value.1 - 1..], current))
      && (IsQuoteChar(e) ==> decoded.value == ([e], 1)))
  }

  lemma EscapeReach(e: char, rest: string, current: char, target: char)
    requires IsQuoteChar(current) && IsQuoteChar(target) && current != target
    ensures Reaches(e, rest, current, target, DecodeEscape([e] + rest + [current]),
                    DecodeEscape([e] + Swap(rest, current, target) + [target]))
  {
    hide ClosedBody, Swap, Reaches, Whitespace, DecodeUnicode, DecodeDecimal;
    var t := [e] + rest + [current];
    var s := [e] + Swap(rest, current, target) + [target];
    if e == 'z' {
      assert t[1..] == rest + [current] && s[1..] == Swap(rest, current, target) + [target];
      BlankReach(rest, current, target);
    } else if e == 'x' {
      HexReach(rest, current, target);
    } else if e == 'u' {
      UnicodeSwaps(rest, current, target);
    } else if IsDigit(e) {
      DecimalSwaps(e, rest, current, target);
    } else {
      OneReach(e, rest, current, target, DecodeEscape(t).value.0);
    }
  }

  lemma NothingReached(e: char, rest: string, current: char, target: char)
    ensures Reaches(e, rest, current, target, None, None)
  {
  }

  lemma OneReach(e: char, rest: string, current: char, target: char, bytes: string)
    requires IsQuoteChar(current) && IsQuoteChar(target) && (IsQuoteChar(e) ==> bytes == [e])
    ensures Reaches(e, rest, current, target, Some((bytes, 1)), Some((bytes, 1)))
  {
    hide ClosedBody, Swap;
    SwapCopies(rest, 0, current, target);
  }

  lemma BlankReach(rest: string, current: char, target: char)
    requires IsQuoteChar(current) && IsQuoteChar(target)
    ensures Reaches('z', rest, current, target, Some(("", 1 + Whitespace(rest + [current]))),
                    Some(("", 1 + Whitespace(Swap(rest, current, target) + [target]))))
  {
    hide ClosedBody, Swap, Whitespace;
    WhitespaceSwaps(rest, current, target);
    SwapCopies(rest, Whitespace(rest + [current]), current, target);
  }

  /** How far the first `limit` characters are plain: so far the swapped text is the same, and there, if
      before `limit`, both end or both go on with a quote or `\`. */
  lemma PlainReach(rest: string, current: char, target: char, limit: nat) returns (n: nat)
    requires IsQuoteChar(current) && IsQuoteChar(target)
    ensures n <= limit && n <= |rest| && n <= |Swap(rest, current, target)|
    ensures Swap(rest, current, target)[..n] == rest[..n]
    ensures Swap(rest, current, target) == rest[..n] + Swap(rest[n..], current, target)
    ensures forall k :: 0 <= k < n ==> Plain(rest[k])
    ensures n < limit ==>
              || (n == |rest| && n == |Swap(rest, current, target)|)
              || (n < |rest| && n < |Swap(rest, current, target)|
                  && !Plain(rest[n]) && !Plain(Swap(rest, current, target)[n]))
    ensures ClosedBody(rest, current) ==> ClosedBody(rest[n..], current)
  {
    hide ClosedBody, Swap;
    n := 0;
    while n < limit && n < |rest| && Plain(rest[n])
      invariant n <= limit && n <= |rest| && forall k :: 0 <= k < n ==> Plain(rest[k])
    {
      n := n + 1;
    }
    SwapCopies(rest, n, current, target);
    StuckHead(rest[n..], current, target);
  }

  lemma StuckHead(content: string, current: char, target: char)
    requires IsQuoteChar(current) && IsQuoteChar(target)
    ensures content == "" ==> Swap(content, current, target) == ""
    ensures content != "" && !Plain(content[0]) ==>
              Swap(content, current, target) != "" && !Plain(Swap(content, current, target)[0])
  {
  }

  lemma HexReach(rest: string, current: char, target: char)
    requires IsQuoteChar(current) && IsQuoteChar(target)
    ensures Reaches('x', rest, current, target, DecodeEscape(['x'] + rest + [current]),
                    DecodeEscape(['x'] + Swap(rest, current, target) + [target]))
  {
    hide ClosedBody, Swap, DecodeEscape, Reaches, HexByte;
    var swapped := Swap(rest, current, target);
    var n := PlainReach(rest, current, target, 2);
    HexParts(rest, current);
    HexParts(swapped, target);
    if n == 2 {
      assert forall k :: 0 <= k < 2 ==> swapped[..2][k] == rest[..2][k];
      HexSame(rest, swapped, current, target);
    } else {
      NoHex(rest, n);
      NoHex(swapped, n);
      NothingReached('x', rest, current, target);
    }
  }

  lemma HexParts(rest: string, quote: char)
    ensures DecodeEscape(['x'] + rest + [quote])
            == if |rest| < 1 then None
               else if |rest| == 1 then
                 if HexByte(rest[0], quote).None? then None else Some(([HexByte(rest[0], quote).value], 3))
               else if HexByte(rest[0], rest[1]).None? then None
               else Some(([HexByte(rest[0], rest[1]).value], 3))
  {
    hide HexByte;
    var t := ['x'] + rest + [quote];
    assert |rest| > 0 ==> t[1] == rest[0];
    assert |rest| > 1 ==> t[2] == rest[1];
    assert |rest| == 1 ==> t[2] == quote;
  }

  lemma NoHex(rest: string, n: nat)
    requires n < 2 && n <= |rest| && (n < |rest| ==> !Plain(rest[n]))
    ensures 2 <= |rest| ==> HexByte(rest[0], rest[1]).None?
    ensures |rest| == 1 ==> forall quote :: IsQuoteChar(quote) ==> HexByte(rest[0], quote).None?
  {
  }

  lemma HexSame(rest: string, swapped: string, current: char, target: char)
    requires 2 <= |rest| && 2 <= |swapped| && swapped[0] == rest[0] && swapped[1] == rest[1]
    requires Swap(rest, current, target) == swapped == rest[..2] + Swap(rest[2..], current, target)
    requires ClosedBody(rest, current) ==> ClosedBody(rest[2..], current)
    ensures var decoded := if HexByte(rest[0], rest[1]).None? then None
            else Some(([HexByte(rest[0], rest[1]).value], 3));
            Reaches('x', rest, current, target, decoded, decoded)
  {
    hide ClosedBody, Swap, HexByte;
  }

  lemma {:induction false} WhitespaceSwaps(rest: string, current: char, target: char)
    requires IsQuoteChar(current) && IsQuoteChar(target)
    ensures var n := Whitespace(rest + [current]);
            && n <= |rest| && (forall k :: 0 <= k < n ==> Plain(rest[k]))
            && Whitespace(Swap(rest, current, target) + [target]) == n
    decreases |rest|
  {
    hide Swap;
    SwapHead(rest, current, target);
    var swapped := Swap(rest, current, target);
    var s := swapped + [target];
    if rest != "" && IsAsciiWhitespace(rest[0]) {
      SwapUnescaped(rest, current, target);
      assert (rest + [current])[1..] == rest[1..] + [current];
      assert s[1..] == Swap(rest[1..], current, target) + [target] && s[0] == rest[0];
      WhitespaceSwaps(rest[1..], current, target);
    } else if rest != "" {
      assert (rest + [current])[0] == rest[0] && s[0] == swapped[0];
    }
  }

  /** What stands before the first `}` is, behind either delimiter, the same code point or none. */
  lemma BraceSwaps(inner: string, current: char, target: char)
    requires IsQuoteChar(current) && IsQuoteChar(target)
    ensures var other := Swap(inner, current, target);
            var close, close' := BraceAt(inner), BraceAt(other);
            && (close == |inner| || CodePoint(inner[..close]).None? ==>
                  close' == |other| || CodePoint(other[..close']).None?)
            && (close < |inner| && CodePoint(inner[..close]).Some? ==>
                  && close' == close < |other| && other[..close] == inner[..close]
                  && (forall k :: 0 <= k <= close ==> Plain(inner[k]))
                  && (ClosedBody(inner, current) ==> ClosedBody(inner[close + 1..], current)))
  {
    hide ClosedBody, Swap, CodePoint, BraceAt;
    var other := Swap(inner, current, target);
    var close := BraceAt(inner);
    var n := PlainReach(inner, current, target, if close < |inner| then close + 1 else close);
    if close < n {
      SameBrace(inner, other, n);
    } else if n < |inner| {
      StuckBefore(inner, n);
      forall k | 0 <= k < n
        ensures other[k] != '}'
      {
        assert other[..n][k] == inner[..n][k];
        BeforeBrace(inner, k);
      }
      StuckBefore(other, n);
    } else {
      SwapNothing(current, target);
      assert inner[n..] == "" && inner[..n] == inner && other == inner + "";
    }
  }

  lemma BeforeBrace(s: string, k: nat)
    requires k < BraceAt(s)
    ensures s[k] != '}'
  {
  }

  lemma SameBrace(s: string, t: string, n: nat)
    requires BraceAt(s) < n <= |s| && n <= |t| && s[..n] == t[..n]
    ensures BraceAt(t) == BraceAt(s) && t[..BraceAt(s)] == s[..BraceAt(s)]
  {
    assert forall k :: 0 <= k < n ==> s[..n][k] == s[k] && t[..n][k] == t[k];
  }

  /** A quote or `\` before the first `}` leaves no code point. */
  lemma StuckBefore(s: string, n: nat)
    requires n < |s| && !Plain(s[n]) && forall k :: 0 <= k < n ==> s[k] != '}'
    ensures BraceAt(s) == |s| || CodePoint(s[..BraceAt(s)]).None?
  {
    hide CodePoint;
    if BraceAt(s) < |s| {
      assert n < BraceAt(s);
      NotHex(s[..BraceAt(s)], n);
    }
  }

  lemma NotHex(hex: string, n: nat)
    requires n < |hex| && !Plain(hex[n])
    ensures CodePoint(hex).None?
  {
    if CodePoint(hex).Some? {
      HexIsPlain(hex);
    }
  }

  lemma UnicodeParts(t: string, inner: string, quote: char)
    requires t == ['u'] + (['{'] + inner) + [quote]
    ensures DecodeUnicode(t)
            == (var close := BraceAt(inner);
                if close == |inner| || CodePoint(inner[..close]).None? then None
                else Some((Utf8(CodePoint(inner[..close]).value), close + 3)))
  {
    hide Utf8, CodePoint, BraceAt;
    assert t[1] == '{' && t[2..|t| - 1] == inner;
  }

  lemma UnicodeSwaps(rest: string, current: char, target: char)
    requires IsQuoteChar(current) && IsQuoteChar(target)
    ensures Reaches('u', rest, current, target, DecodeUnicode(['u'] + rest + [current]),
                    DecodeUnicode(['u'] + Swap(rest, current, target) + [target]))
  {
    hide ClosedBody, Swap, Utf8, CodePoint, BraceAt, Reaches;
    var swapped := Swap(rest, current, target);
    var t, s := ['u'] + rest + [current], ['u'] + swapped + [target];
    SwapHead(rest, current, target);
    if rest == "" || rest[0] != '{' {
      assert rest != "" ==> t[1] == rest[0] && s[1] == swapped[0];
      NothingReached('u', rest, current, target);
    } else {
      SwapCopies(rest, 1, current, target);
      var inner, other := rest[1..], Swap(rest[1..], current, target);
      assert rest[..1] == ['{'] && swapped == ['{'] + other;
      UnicodeParts(t, inner, current);
      UnicodeParts(s, other, target);
      BraceSwaps(inner, current, target);
      if DecodeUnicode(t).Some? {
        UnicodeReach(rest, current, target, DecodeUnicode(t).value.0);
      } else {
        NothingReached('u', rest, current, target);
      }
    }
  }

  lemma UnicodeReach(rest: string, current: char, target: char, bytes: string)
    requires IsQuoteChar(current) && IsQuoteChar(target) && rest != "" && rest[0] == '{'
    requires var close := BraceAt(rest[1..]);
             && close < |rest[1..]| && (forall k :: 0 <= k <= close ==> Plain(rest[1..][k]))
    ensures var decoded := Some((bytes, BraceAt(rest[1..]) + 3));
            Reaches('u', rest, current, target, decoded, decoded)
  {
    hide ClosedBody, Swap, BraceAt;
    var n := BraceAt(rest[1..]) + 2;
    forall k | 0 <= k < n
      ensures Plain(rest[k])
    {
      assert k > 0 ==> rest[1..][k - 1] == rest[k];
    }
    SwapCopies(rest, n, current, target);
  }

  lemma HexIsPlain(hex: string)
    requires CodePoint(hex).Some?
    ensures forall k :: 0 <= k < |hex| ==> Plain(hex[k])
  {
    hide Value;
    var digits := if hex != "" && hex[0] == '+' then hex[1..] else hex;
    assert AllHex(digits);
    forall k | 0 <= k < |hex|
      ensures Plain(hex[k])
    {
      if hex[0] == '+' {
        assert k > 0 ==> digits[k - 1] == hex[k];
      } else {
        assert digits[k] == hex[k];
      }
    }
  }

  lemma DecimalSwaps(e: char, rest: string, current: char, target: char)
    requires IsQuoteChar(current) && IsQuoteChar(target) && IsDigit(e)
    ensures Reaches(e, rest, current, target, DecodeDecimal([e] + rest + [current]),
                    DecodeDecimal([e] + Swap(rest, current, target) + [target]))
  {
    hide ClosedBody, Swap, Value, DecodeDecimal, DigitCount;
    var t := [e] + rest + [current];
    var swapped := Swap(rest, current, target);
    var s := [e] + swapped + [target];
    var n := DigitCount(t);
    DecimalParts(t);
    DecimalParts(s);
    DigitsArePlain(e, rest, current);
    SwapCopies(rest, n - 1, current, target);
    SwapHead(rest[n - 1..], current, target);
    assert s[..n] == t[..n];
    SameCount(e, rest, swapped, current, target, n);
  }

  lemma DecimalParts(t: string)
    requires t != "" && IsDigit(t[0])
    ensures 1 <= DigitCount(t) <= |t|
    ensures DecodeDecimal(t)
            == (var value := Value(t[..DigitCount(t)], 10);
                if value < 256 then Some(([value as char], DigitCount(t))) else None)
  {
    hide Value;
  }

  function DigitCount(t: string): nat
    requires t != ""
  {
    if 2 < |t| && IsDigit(t[1]) then if 3 < |t| && IsDigit(t[2]) then 3 else 2 else 1
  }

  lemma DigitsArePlain(e: char, rest: string, current: char)
    ensures var n := DigitCount([e] + rest + [current]);
            n - 1 <= |rest| && forall k :: 0 <= k < n - 1 ==> Plain(rest[k])
  {
    var t := [e] + rest + [current];
    assert forall k :: 0 <= k < |rest| ==> t[k + 1] == rest[k];
  }

  lemma SameCount(e: char, rest: string, swapped: string, current: char, target: char, n: nat)
    requires n == DigitCount([e] + rest + [current]) && n - 1 <= |rest| && n - 1 <= |swapped|
    requires IsQuoteChar(current) && IsQuoteChar(target)
    requires ([e] + swapped + [target])[..n] == ([e] + rest + [current])[..n]
    requires |swapped| == n - 1 <==> |rest| == n - 1
    requires n - 1 < |rest| ==> swapped[n - 1] == rest[n - 1] || !Plain(swapped[n - 1])
    ensures DigitCount([e] + swapped + [target]) == n
  {
    var t, s := [e] + rest + [current], [e] + swapped + [target];
    assert forall k :: 0 <= k < |rest| ==> t[k + 1] == rest[k];
    assert forall k :: 0 <= k < |swapped| ==> s[k + 1] == swapped[k];
    assert forall k :: 0 <= k < n ==> s[..n][k] == s[k] && t[..n][k] == t[k];
  }

  // ----- the token is kept -----

  /** Behind its first character an escape takes only characters that the walk copies. */
  lemma EscapeIsPlain(v: Version, s: string, i: nat)
    requires i < |s| && EscapeEnd(v, s, i).Some?
    ensures forall k :: i < k < EscapeEnd(v, s, i).value ==> Plain(s[k])
  {
    hide Value;
  }

  lemma {:induction false} RunMoves(cls: CharClass, s: string, i: nat, t: string, j: nat)
    requires i <= RunEnd(cls, s, i) <= |s| && j + (RunEnd(cls, s, i) - i) < |t|
    requires t[j..j + (RunEnd(cls, s, i) - i)] == s[i..RunEnd(cls, s, i)]
    requires !cls.Has(t[j + (RunEnd(cls, s, i) - i)])
    ensures RunEnd(cls, t, j) == j + (RunEnd(cls, s, i) - i)
    decreases |s| - i
  {
    var end := RunEnd(cls, s, i);
    if i < end {
      var a, b := s[i..end], t[j..j + (end - i)];
      assert a[0] == s[i] && b[0] == t[j];
      assert a[1..] == s[i + 1..end] && b[1..] == t[j + 1..j + (end - i)];
      RunMoves(cls, s, i + 1, t, j + 1);
    }
  }

  /** From `i` of `s` and from `j` of `t` stand the same `n` characters, and then the same one again, or
      in `t` a quote or `\`. */
  predicate Alike(s: string, i: nat, t: string, j: nat, n: nat) {
    && i + n < |s| && j + n < |t| && t[j..j + n] == s[i..i + n]
    && (t[j + n] == s[i + n] || !Plain(t[j + n]))
  }

  lemma AlikeAt(s: string, i: nat, t: string, j: nat, n: nat, m: nat)
    requires Alike(s, i, t, j, n) && m <= n
    ensures m < n ==> CharAt(t, j + m) == CharAt(s, i + m)
    ensures CharAt(t, j + m) == CharAt(s, i + m) || !Plain(CharAt(t, j + m))
  {
    if m < n {
      assert t[j..j + n][m] == t[j + m] && s[i..i + n][m] == s[i + m];
    }
  }

  /** The same escape, found at another place. */
  lemma EscapeMoves(v: Version, s: string, i: nat, t: string, j: nat, n: nat)
    requires 0 < n && Alike(s, i, t, j, n) && EscapeEnd(v, s, i) == Some(i + n)
    ensures EscapeEnd(v, t, j) == Some(j + n)
  {
    hide Alike, RunEnd, UnicodeEscapeEnd, DecimalEscapeEnd;
    AlikeAt(s, i, t, j, n, 0);
    AlikeAt(s, i, t, j, n, 1);
    assert i + n < |s| && j + n < |t| by { AlikeInside(s, i, t, j, n); }
    var c := s[i];
    if IsDigit(c) {
      DecimalMoves(s, i, t, j, n);
    } else if c == 'x' && !v.Lua51? {
      AlikeAt(s, i, t, j, n, 2);
    } else if c == 'z' && !v.Lua51? {
      BlanksMove(s, i, t, j, n);
    } else if c == 'u' && !v.Lua51? && !v.Lua52? {
      UnicodeMoves(s, i, t, j, n);
    }
  }

  lemma AlikeInside(s: string, i: nat, t: string, j: nat, n: nat)
    requires Alike(s, i, t, j, n)
    ensures i + n < |s| && j + n < |t|
  {
  }

  lemma DecimalMoves(s: string, i: nat, t: string, j: nat, n: nat)
    requires Alike(s, i, t, j, n) && IsDigit(s[i]) && 0 < n && DecimalEscapeEnd(s, i) == Some(i + n)
    ensures IsDigit(t[j]) && DecimalEscapeEnd(t, j) == Some(j + n)
  {
    hide Alike, Value;
    AlikeInside(s, i, t, j, n);
    AlikeAt(s, i, t, j, n, 0);
    AlikeAt(s, i, t, j, n, 1);
    if n >= 2 {
      AlikeAt(s, i, t, j, n, 2);
    }
    if n == 3 {
      assert s[i..i + 3] == [CharAt(s, i), CharAt(s, i + 1), CharAt(s, i + 2)];
      assert t[j..j + 3] == [CharAt(t, j), CharAt(t, j + 1), CharAt(t, j + 2)];
      assert s[i..i + 3] == t[j..j + 3];
    }
  }

  lemma BlanksMove(s: string, i: nat, t: string, j: nat, n: nat)
    requires Alike(s, i, t, j, n) && 0 < n && RunEnd(Blanks, s, i + 1) == i + n
    ensures RunEnd(Blanks, t, j + 1) == j + n
  {
    assert s[i..i + n][1..] == s[i + 1..i + n] && t[j..j + n][1..] == t[j + 1..j + n];
    assert !Blanks.Has(s[i + n]) && !Blanks.Has(t[j + n]);
    RunMoves(Blanks, s, i + 1, t, j + 1);
  }

  lemma InnerSlice(s: string, i: nat, n: nat, from: nat, to: nat)
    requires i + n <= |s| && from <= to <= n
    ensures s[i..i + n][from..to] == s[i + from..i + to]
    ensures i + n == |s| ==> s[i..] == s[i..i + n]
  {
    var whole := s[i..i + n];
    var inner, direct := whole[from..to], s[i + from..i + to];
    assert |inner| == |direct|;
    forall k | 0 <= k < |direct|
      ensures inner[k] == direct[k]
    {
      assert inner[k] == whole[from + k] == s[i + (from + k)];
    }
  }

  lemma UnicodeMoves(s: string, i: nat, t: string, j: nat, n: nat)
    requires Alike(s, i, t, j, n) && UnicodeEscapeEnd(s, i) == Some(i + n) && 0 < n
    ensures UnicodeEscapeEnd(t, j) == Some(j + n)
  {
    hide Value, RunEnd;
    var end := RunEnd(Hexes(false), s, i + 2);
    assert end == i + n - 1 && 3 < n;
    var a, b := s[i..i + n], t[j..j + n];
    assert a[1] == s[i + 1] && b[1] == t[j + 1] && a[n - 1] == s[end] == '}' && b[n - 1] == t[j + n - 1];
    InnerSlice(s, i, n, 2, n - 1);
    InnerSlice(t, j, n, 2, n - 1);
    assert a == b && t[j + 2..j + n - 1] == s[i + 2..end];
    RunMoves(Hexes(false), s, i + 2, t, j + 2);
  }

  /** Characters that the walk copies close nothing and escape nothing. */
  lemma {:induction false} PlainBody(content: string, n: nat, quote: char)
    requires n <= |content| && IsQuoteChar(quote) && ClosedBody(content[n..], quote)
    requires forall k :: 0 <= k < n ==> Plain(content[k])
    ensures ClosedBody(content, quote)
    decreases n
  {
    if n == 0 {
      assert content[0..] == content;
    } else {
      assert content[1..][n - 1..] == content[n..];
      PlainBody(content[1..], n - 1, quote);
    }
  }

  /** What the lexer takes as one short string is a closed body and a quote. */
  lemma {:induction false} TokenIsClosed(v: Version, s: string, i: nat, quote: char)
    requires i < |s| && IsQuoteChar(quote) && ShortEnd(v, s, i, quote) == Some(|s|)
    ensures ClosedBody(s[i..|s| - 1], quote) && s[|s| - 1] == quote
    decreases |s| - i
  {
    hide EscapeEnd, ClosedBody;
    var content := s[i..|s| - 1];
    if s[i] == '\\' {
      var end := EscapeEnd(v, s, i + 1).value;
      EscapeIsPlain(v, s, i + 1);
      TokenIsClosed(v, s, end, quote);
      var n := end - (i + 2);
      assert content[2..][n..] == s[end..|s| - 1];
      forall k | 0 <= k < n
        ensures Plain(content[2..][k])
      {
        assert content[2..][k] == s[i + 2 + k];
      }
      PlainBody(content[2..], n, quote);
      PairCloses(content, quote);
    } else if s[i] == quote {
      PairCloses("", quote);
      assert content == "";
    } else {
      TokenIsClosed(v, s, i + 1, quote);
      assert content[1..] == s[i + 1..|s| - 1];
      PairCloses(content, quote);
    }
  }

  lemma PairCloses(content: string, quote: char)
    ensures content == "" ==> ClosedBody(content, quote)
    ensures 2 <= |content| && content[0] == '\\' && ClosedBody(content[2..], quote) ==> ClosedBody(content, quote)
    ensures content != "" && content[0] != '\\' && content[0] != quote && ClosedBody(content[1..], quote) ==>
              ClosedBody(content, quote)
  {
  }

  /** The swapped body, behind whatever stands before it, is one short string of the other quote. */
  lemma {:induction false} SwapLexes(v: Version, s: string, i: nat, t: string, j: nat, content: string, current: char,
                                     target: char)
    requires IsQuoteChar(current) && IsQuoteChar(target) && current != target
    requires i < |s| && s[i..] == content + [current] && ShortEnd(v, s, i, current) == Some(|s|)
    requires j < |t| && t[j..] == Swap(content, current, target) + [target]
    ensures ShortEnd(v, t, j, target) == Some(|t|)
    decreases |content|
  {
    hide EscapeEnd, Swap, ShortEnd;
    assert s[i] == s[i..][0] && t[j] == t[j..][0];
    if content == "" {
      SwapNothing(current, target);
      assert t[j..] == [target] && |t| == j + 1;
      ShortSteps(v, t, j, target);
    } else if content[0] == '\\' {
      EscapeLexes(v, s, i, t, j, content, current, target);
      var end := EscapeEnd(v, s, i + 1).value;
      var n := end - i;
      assert s[end..] == s[i..][n..] == content[n..] + [current];
      ShortSteps(v, t, j, target);
      SwapLexes(v, s, end, t, if content[1] == current then j + 1 else j + n, content[n..], current, target);
    } else {
      PlainLexes(v, s, i, t, j, content, current, target);
      assert s[i + 1..] == s[i..][1..] == content[1..] + [current];
      SwapLexes(v, s, i + 1, t, if content[0] == target then j + 2 else j + 1, content[1..], current, target);
    }
  }

  /** The lexer's steps inside a short string. */
  lemma ShortSteps(v: Version, s: string, i: nat, quote: char)
    requires i < |s| && IsQuoteChar(quote)
    ensures s[i] == quote ==> ShortEnd(v, s, i, quote) == Some(i + 1)
    ensures s[i] != quote && s[i] != '\\' && !IsBreak(s[i]) ==> ShortEnd(v, s, i, quote) == ShortEnd(v, s, i + 1, quote)
    ensures s[i] == '\\' && i + 1 < |s| && EscapeEnd(v, s, i + 1).Some? ==>
              ShortEnd(v, s, i, quote) == ShortEnd(v, s, EscapeEnd(v, s, i + 1).value, quote)
    ensures ShortEnd(v, s, i, quote).Some? ==> !IsBreak(s[i])
  {
    hide EscapeEnd;
  }

  /** One unescaped character in both texts. */
  lemma PlainLexes(v: Version, s: string, i: nat, t: string, j: nat, content: string, current: char, target: char)
    requires IsQuoteChar(current) && IsQuoteChar(target) && current != target
    requires content != "" && content[0] != '\\'
    requires i < |s| && s[i..] == content + [current] && ShortEnd(v, s, i, current) == Some(|s|)
    requires j < |t| && t[j..] == Swap(content, current, target) + [target]
    ensures i + 1 < |s| && ShortEnd(v, s, i + 1, current) == Some(|s|)
    ensures var n := if content[0] == target then 2 else 1;
            && j + n < |t| && t[j + n..] == Swap(content[1..], current, target) + [target]
            && ShortEnd(v, t, j, target) == ShortEnd(v, t, j + n, target)
  {
    hide EscapeEnd, Swap, ShortEnd;
    assert s[i] == s[i..][0] && t[j] == t[j..][0] && |s| == i + |content| + 1;
    ShortSteps(v, s, i, current);
    SwapUnescaped(content, current, target);
    var tail := Swap(content[1..], current, target) + [target];
    if content[0] == target {
      assert t[j..] == ['\\', target] + tail;
      assert t[j + 1] == t[j..][1] == target;
      QuoteEscapes(v, t, j + 1);
      assert t[j + 2..] == t[j..][2..] == tail;
    } else {
      assert t[j..] == [content[0]] + tail;
      assert t[j + 1..] == t[j..][1..] == tail;
    }
    ShortSteps(v, t, j, target);
  }

  lemma QuoteEscapes(v: Version, t: string, j: nat)
    requires j < |t| && IsQuoteChar(t[j])
    ensures EscapeEnd(v, t, j) == Some(j + 1)
  {
  }

  /** One escape in both texts, and what stands behind it. */
  lemma EscapeLexes(v: Version, s: string, i: nat, t: string, j: nat, content: string, current: char, target: char)
    requires IsQuoteChar(current) && IsQuoteChar(target) && current != target
    requires content != "" && content[0] == '\\'
    requires i < |s| && s[i..] == content + [current] && ShortEnd(v, s, i, current) == Some(|s|)
    requires j < |t| && t[j..] == Swap(content, current, target) + [target]
    ensures 2 <= |content| && i + 1 < |s| && EscapeEnd(v, s, i + 1).Some?
    ensures var end := EscapeEnd(v, s, i + 1).value;
            var n := end - i;
            && 2 <= n <= |content| && ShortEnd(v, s, end, current) == Some(|s|)
            && (content[1] == current ==>
                  n == 2 && t[j] == current && j + 1 < |t|
                  && t[j + 1..] == Swap(content[n..], current, target) + [target])
            && (content[1] != current ==>
                  t[j] == '\\' && j + n < |t| && EscapeEnd(v, t, j + 1) == Some(j + n)
                  && t[j + n..] == Swap(content[n..], current, target) + [target])
  {
    hide EscapeEnd, Swap, Alike;
    assert s[i] == s[i..][0];
    var end := EscapeEnd(v, s, i + 1).value;
    var n := end - i;
    assert end < |s|;
    assert |s| == i + |content| + 1;
    assert s[i + 1] == s[i..][1] == content[1];
    SwapPair(content, current, target);
    EscapeIsPlain(v, s, i + 1);
    var rest := content[2..];
    forall k | 0 <= k < n - 2
      ensures Plain(rest[k])
    {
      assert s[i + 2 + k] == s[i..][2 + k] == rest[k];
    }
    SwapCopies(rest, n - 2, current, target);
    assert rest[n - 2..] == content[n..];
    var tail := Swap(content[n..], current, target) + [target];
    if content[1] == current {
      QuoteEscapes(v, s, i + 1);
      assert t[j] == t[j..][0];
      assert t[j..] == [current] + tail;
      assert t[j + 1..] == t[j..][1..] == tail;
    } else {
      assert t[j..] == ['\\', content[1]] + rest[..n - 2] + tail;
      assert t[j] == t[j..][0];
      assert t[j + n..] == t[j..][n..] == tail;
      SwapHead(content[n..], current, target);
      EscapeAlike(s, i, t, j, content, n, current, target);
      EscapeMoves(v, s, i + 1, t, j + 1, n - 1);
    }
  }

  lemma EscapeAlike(s: string, i: nat, t: string, j: nat, content: string, n: nat, current: char, target: char)
    requires IsQuoteChar(current) && IsQuoteChar(target) && 2 <= n <= |content| && i < |s| && j < |t|
    requires s[i..] == content + [current]
    requires t[j..] == ['\\', content[1]] + content[2..][..n - 2] + (Swap(content[n..], current, target) + [target])
    ensures Alike(s, i + 1, t, j + 1, n - 1)
  {
    hide Swap;
    var tail := Swap(content[n..], current, target) + [target];
    SwapHead(content[n..], current, target);
    InnerSlice(s, i, |s| - i, 1, n);
    InnerSlice(t, j, |t| - j, 1, n);
    assert s[i..][1..n] == content[1..n];
    assert t[j..][1..n] == [content[1]] + content[2..][..n - 2];
    assert content[1..n] == [content[1]] + content[2..][..n - 2];
    assert t[j + n] == t[j..][n] == tail[0];
    assert s[i + n] == s[i..][n];
  }

  // ----- the normalizer -----

  /** Normalizing keeps a closed literal closed and its decoded bytes what they were; one that decodes
      to nothing still decodes to nothing. */
  lemma NormalizeKeepsMeaning(literal: string, style: QuoteStyle)
    requires Closed(literal)
    ensures Closed(Normalize(literal, style))
    ensures Decode(Normalize(literal, style)) == Decode(literal)
  {
    hide Swap, DecodeBody, ClosedBody, TargetQuote;
    var content := Contents(literal);
    var current := literal[0];
    var target := TargetQuote(style, content);
    TargetIsQuote(style, content);
    assert literal[1..] == content + [current];
    if current != target {
      SwapCloses(content, current, target);
      SwapDecodes(content, current, target);
      var swapped := Swap(content, current, target);
      var result := [target] + swapped + [target];
      assert Contents(result) == swapped && result[1..] == swapped + [target];
    }
  }

  /** A string token of any dialect, also one that decodes to nothing, is normalized to a string token of
      that dialect with the same meaning; a short one is always closed. */
  lemma NormalizeKeepsToken(v: Version, literal: string, style: QuoteStyle)
    requires IsQuoted(v, literal)
    ensures literal[0] == '[' || Closed(literal)
    ensures 2 <= |literal| && IsQuoted(v, Normalize(literal, style))
    ensures Decode(Normalize(literal, style)) == Decode(literal)
  {
    hide ShortEnd, Swap, Decode, ClosedBody, LongLevel, LongEnd, TargetQuote;
    if IsQuoteChar(literal[0]) {
      var current, content := literal[0], literal[1..|literal| - 1];
      assert LongLevel(literal, 0).None? by { NoLevel(literal); }
      ShortHasTwo(v, literal);
      TokenIsClosed(v, literal, 1, current);
      NormalizeKeepsMeaning(literal, style);
      var target := TargetQuote(style, content);
      TargetIsQuote(style, content);
      if current != target {
        var result := [target] + Swap(content, current, target) + [target];
        assert literal[1..] == content + [current];
        assert result[1..] == Swap(content, current, target) + [target];
        SwapLexes(v, literal, 1, result, 1, content, current, target);
      }
    } else {
      LongHasTwo(v, literal);
    }
  }

  lemma NoLevel(literal: string)
    requires literal != "" && IsQuoteChar(literal[0])
    ensures LongLevel(literal, 0).None?
  {
  }

  lemma ShortHasTwo(v: Version, literal: string)
    requires literal != "" && ShortEnd(v, literal, 1, literal[0]) == Some(|literal|)
    ensures 2 <= |literal|
  {
  }

  lemma LongHasTwo(v: Version, literal: string)
    requires IsQuoted(v, literal) && !IsQuoteChar(literal[0])
    ensures 2 <= |literal| && literal[0] == '['
  {
    hide LongEnd, ShortEnd;
  }

  lemma TargetIsQuote(style: QuoteStyle, content: string)
    ensures IsQuoteChar(TargetQuote(style, content))
  {
  }

  /** A second pass changes nothing, in any style. */
  lemma NormalizeIsIdempotent(literal: string, style: QuoteStyle)
    requires 2 <= |literal| && (literal[0] == '[' || IsQuoteChar(literal[0]))
    ensures 2 <= |Normalize(literal, style)|
    ensures Normalize(Normalize(literal, style), style) == Normalize(literal, style)
  {
    hide Swap;
    if literal[0] != '[' && Normalize(literal, style) != literal {
      var content := Contents(literal);
      var target := TargetQuote(style, content);
      var swapped := Swap(content, literal[0], target);
      TargetIsQuote(style, content);
      SwapKeepsCounts(content, literal[0], target, '"');
      SwapKeepsCounts(content, literal[0], target, '\'');
      assert Contents([target] + swapped + [target]) == swapped;
    }
  }

  /** The walk relies on closed literals: behind a dangling `\` the new delimiter is what is escaped. */
  lemma DanglingBackslashChangesMeaning()
    ensures var literal := "'\\'";
            !Closed(literal) && Decode(literal) == Some("'") && Decode(Normalize(literal, Double)) == Some("\"")
  {
    var literal := "'\\'";
    assert Contents(literal) == "\\";
    assert Swap("\\", '\'', '"') == "\\";
    var normal := Normalize(literal, Double);
    assert TargetQuote(Double, "\\") == '"';
    assert normal == "\"\\\"";
    DecodesToQuote(literal, '\'');
    DecodesToQuote(normal, '"');
  }

  lemma DecodesToQuote(literal: string, q: char)
    requires IsQuoteChar(q) && literal == [q, '\\', q]
    ensures Decode(literal) == Some([q]) && !Closed(literal)
  {
    var t := literal[1..];
    assert t == ['\\', q] && t[1..] == [q] && t[2..] == "";
    assert DecodeEscape(t[1..]) == Some(([q], 1));
    DecodeEscaped(t, [q], 1);
    assert DecodeBody("") == Some("") && [q] + "" == [q];
    assert Contents(literal) == "\\";
  }

  // ----- which delimiter is chosen -----

  lemma {:induction false} CountIs(s: string, c: char)
    ensures Count(s, c) == multiset(s)[c]
  {
    if s != "" {
      CountIs(s[1..], c);
      assert s == [s[0]] + s[1..];
    }
  }

  /** How often `quote` stands in the contents without a backslash that escapes it. */
  function Unescaped(content: string, quote: char): nat
    decreases |content|
  {
    if content == "" then 0
    else if content[0] == '\\' then if |content| == 1 then 0 else Unescaped(content[2..], quote)
    else (if content[0] == quote then 1 else 0) + Unescaped(content[1..], quote)
  }

  lemma CountOne(c: char, q: char)
    ensures Count([c], q) == if c == q then 1 else 0
  {
    assert [c][1..] == "";
  }

  lemma CountPair(c: char, d: char, q: char)
    ensures Count([c, d], q) == (if c == q then 1 else 0) + (if d == q then 1 else 0)
  {
    assert [c, d] == [c] + [d];
    CountAppends([c], [d], q);
    CountOne(c, q);
    CountOne(d, q);
  }

  /** Another delimiter takes one backslash for each of its own kind that had none, and gives back one for
      each of the old kind, which all had one. */
  lemma {:induction false} SwapBackslashes(content: string, current: char, target: char)
    requires ClosedBody(content, current) && IsQuoteChar(current) && IsQuoteChar(target) && current != target
    ensures Count(Swap(content, current, target), '\\') + Count(content, current)
            == Count(content, '\\') + Unescaped(content, target)
    decreases |content|
  {
    hide Swap, Count;
    if content == "" {
      SwapNothing(current, target);
      NoCount('\\');
      NoCount(current);
    } else {
      var n := if content[0] == '\\' then 2 else 1;
      SwapSteps(content, current, target);
      SwapBackslashes(content[n..], current, target);
      var front, rest := content[..n], content[n..];
      assert content == front + rest;
      CountAppends(front, rest, current);
      CountAppends(front, rest, '\\');
      var head := if n == 2 then if content[1] == current then [current] else ['\\', content[1]]
                  else if content[0] == target then ['\\', target] else [content[0]];
      CountAppends(head, Swap(rest, current, target), '\\');
      HeadBackslashes(content[0], if n == 2 then content[1] else content[0], current, target);
      if n == 2 {
        assert front == [content[0], content[1]];
      } else {
        assert front == [content[0]];
      }
    }
  }

  lemma NoCount(c: char)
    ensures Count("", c) == 0
  {
  }

  lemma HeadBackslashes(c: char, d: char, current: char, target: char)
    ensures forall x, q :: x in [c, d, current, target] ==> Count([x], q) == if x == q then 1 else 0
    ensures forall x, y, q :: x in [c, d, '\\'] && y in [d, target] ==>
              Count([x, y], q) == (if x == q then 1 else 0) + (if y == q then 1 else 0)
  {
    hide Count;
    forall x, q ensures Count([x], q) == if x == q then 1 else 0 {
      CountOne(x, q);
    }
    forall x, y, q ensures Count([x, y], q) == (if x == q then 1 else 0) + (if y == q then 1 else 0) {
      CountPair(x, y, q);
    }
  }

  /** The delimiter a style asks for: its own, or in an automatic style the other one where that stands in the
      contents less often. */
  predicate Asks(style: QuoteStyle, content: string, quote: char) {
    var double, single := multiset(content)['"'], multiset(content)['\''];
    match style
    case Double => quote == '"'
    case Single => quote == '\''
    case AutoPreferDouble => quote == if single < double then '\'' else '"'
    case AutoPreferSingle => quote == if double < single then '"' else '\''
  }

  /** A literal that has the delimiter asked for stays. Another one gets it unless that takes more backslashes
      than it gives back; so no literal ever has more of them than before. */
  lemma NormalizeChooses(literal: string, style: QuoteStyle)
    requires Closed(literal)
    ensures var content, current, result := Contents(literal), literal[0], Normalize(literal, style);
            var other := if current == '"' then '\'' else '"';
            && Closed(result)
            && (Asks(style, content, current) <==> !Asks(style, content, other))
            && (result[0] == other <==>
                  Asks(style, content, other) && Unescaped(content, other) <= multiset(content)[current])
            && (result[0] == current ==> result == literal)
            && multiset(Contents(result))['\\'] <= multiset(content)['\\']
            && multiset(Contents(result))['"'] == multiset(content)['"']
            && multiset(Contents(result))['\''] == multiset(content)['\'']
  {
    hide Swap, Count, Unescaped, ClosedBody;
    NormalizeKeepsMeaning(literal, style);
    var content, current := Contents(literal), literal[0];
    var other := if current == '"' then '\'' else '"';
    var swapped := Swap(content, current, other);
    SwapBackslashes(content, current, other);
    SwapKeepsCounts(content, current, other, '"');
    SwapKeepsCounts(content, current, other, '\'');
    CountIs(content, '"');
    CountIs(content, '\'');
    CountIs(content, '\\');
    CountIs(swapped, '"');
    CountIs(swapped, '\'');
    CountIs(swapped, '\\');
    assert Contents([other] + swapped + [other]) == swapped;
  }
}
