/** Lines and newlines of a text. */
module SourceLines {

  function Newlines(s: string): nat {
    if s == "" then 0 else (if s[0] == '\n' then 1 else 0) + Newlines(s[1..])
  }

  /** The text between newlines; a trailing newline leaves an empty last line. */
  function Lines(s: string): (r: seq<string>)
    ensures |r| == Newlines(s) + 1
  {
    if s == "" then [""]
    else if s[0] == '\n' then [""] + Lines(s[1..])
    else
      var rest := Lines(s[1..]);
      [[s[0]] + rest[0]] + rest[1..]
  }

  lemma {:induction false} NewlinesCat(a: string, b: string)
    ensures Newlines(a + b) == Newlines(a) + Newlines(b)
  {
    if a == "" {
      assert a + b == b;
    } else {
      assert (a + b)[0] == a[0] && (a + b)[1..] == a[1..] + b;
      NewlinesCat(a[1..], b);
    }
  }

  /** The lines of a concatenation: the last line of `a` and the first of `b` are one. */
  lemma {:induction false} LinesCat(a: string, b: string)
    ensures Newlines(a + b) == Newlines(a) + Newlines(b)
    ensures Lines(a + b) == Lines(a)[..Newlines(a)] + [Lines(a)[Newlines(a)] + Lines(b)[0]] + Lines(b)[1..]
  {
    hide Lines;
    NewlinesCat(a, b);
    if a == "" {
      EmptyLines();
      assert a + b == b && "" + Lines(b)[0] == Lines(b)[0];
      assert [Lines(b)[0]] + Lines(b)[1..] == Lines(b);
    } else {
      assert (a + b)[0] == a[0] && (a + b)[1..] == a[1..] + b;
      LinesCat(a[1..], b);
      LinesStep(a);
      LinesStep(a + b);
      FirstLineStep(a, b);
    }
  }

  lemma EmptyLines()
    ensures Lines("") == [""] && Newlines("") == 0
  {
  }

  lemma LinesStep(s: string)
    requires s != ""
    ensures Newlines(s) == (if s[0] == '\n' then 1 else 0) + Newlines(s[1..])
    ensures Lines(s) == if s[0] == '\n' then [""] + Lines(s[1..]) else [[s[0]] + Lines(s[1..])[0]] + Lines(s[1..])[1..]
  {
  }

  lemma FirstLineStep(a: string, b: string)
    requires a != "" && (a + b)[0] == a[0]
    requires Newlines(a) == (if a[0] == '\n' then 1 else 0) + Newlines(a[1..])
    requires Lines(a) == if a[0] == '\n' then [""] + Lines(a[1..]) else [[a[0]] + Lines(a[1..])[0]] + Lines(a[1..])[1..]
    requires Lines(a[1..] + b)
             == Lines(a[1..])[..Newlines(a[1..])] + [Lines(a[1..])[Newlines(a[1..])] + Lines(b)[0]] + Lines(b)[1..]
    requires Lines(a + b) == if a[0] == '\n' then [""] + Lines(a[1..] + b)
                             else [[a[0]] + Lines(a[1..] + b)[0]] + Lines(a[1..] + b)[1..]
    ensures Lines(a + b) == Lines(a)[..Newlines(a)] + [Lines(a)[Newlines(a)] + Lines(b)[0]] + Lines(b)[1..]
  {
    hide Lines, Newlines;
    var l, n, first, more := Lines(a[1..]), Newlines(a[1..]), Lines(b)[0], Lines(b)[1..];
    if a[0] == '\n' {
      assert ([""] + l)[..n + 1] == [""] + l[..n];
    } else if n == 0 {
      assert [a[0]] + (l[0] + first) == ([a[0]] + l[0]) + first;
    } else {
      assert ([[a[0]] + l[0]] + l[1..])[..n] == [[a[0]] + l[0]] + l[1..n];
      assert (l[..n] + [l[n] + first] + more)[1..] == l[1..n] + [l[n] + first] + more;
    }
  }

  /** Swapping a piece leaves every line before it where it was, and moves every line behind it by the
      difference in newlines. */
  lemma ReplaceMovesLines(a: string, x: string, y: string, b: string, k: nat)
    requires k <= Newlines(a + x + b)
    ensures Newlines(a + x + b) == Newlines(a) + Newlines(x) + Newlines(b)
    ensures Newlines(a + y + b) == Newlines(a) + Newlines(y) + Newlines(b)
    ensures k < Newlines(a) ==> Lines(a + y + b)[k] == Lines(a + x + b)[k]
    ensures Newlines(a) + Newlines(x) < k ==> Lines(a + y + b)[k - Newlines(x) + Newlines(y)] == Lines(a + x + b)[k]
  {
    hide Lines, Newlines;
    LinesCat(a, x);
    LinesCat(a, y);
    LinesCat(a + x, b);
    LinesCat(a + y, b);
  }
}
