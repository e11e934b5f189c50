/** Assembling the bundle (`emitter.rs`): generated fragments and module bodies pushed one after the
    other, with a line map kept beside them. */
module Bundle {
  import opened SourceLines

  /** One module's run of bundle lines, both ends included and counted from 1. */
  datatype LineMapEntry = LineMapEntry(start: nat, end: int, path: string)

  datatype Piece =
    | Fragment(text: string)
    | Body(text: string, path: string)

  predicate EndsLine(s: string) { s == "" || s[|s| - 1] == '\n' }

  /** The body as it is pushed: closed by a newline. */
  function Closed(body: string): string { if EndsLine(body) then body else body + "\n" }

  function TextOf(p: Piece): string {
    match p
    case Fragment(text) => text
    case Body(text, _) => Closed(text)
  }

  function Assembled(pieces: seq<Piece>): string {
    if pieces == [] then "" else Assembled(pieces[..|pieces| - 1]) + TextOf(pieces[|pieces| - 1])
  }

  function MapOf(pieces: seq<Piece>): seq<LineMapEntry> {
    if pieces == [] then []
    else
      var before, last := pieces[..|pieces| - 1], pieces[|pieces| - 1];
      if last.Fragment? then MapOf(before)
      else
        var start := 1 + Newlines(Assembled(before));
        MapOf(before) + [LineMapEntry(start, start + Newlines(TextOf(last)) - 1, last.path)]
  }

  /** Every generated fragment ends its line. */
  predicate WholeLines(pieces: seq<Piece>) { forall i :: 0 <= i < |pieces| ==> EndsLine(TextOf(pieces[i])) }

  lemma PieceAdds(pieces: seq<Piece>, p: Piece)
    ensures Assembled(pieces + [p]) == Assembled(pieces) + TextOf(p)
    ensures MapOf(pieces + [p])
         == MapOf(pieces) + if p.Fragment? then [] else
              var start := 1 + Newlines(Assembled(pieces));
              [LineMapEntry(start, start + Newlines(TextOf(p)) - 1, p.path)]
  {
    assert (pieces + [p])[..|pieces|] == pieces;
  }

  class Writer {
    var output: string
    var nextLine: nat
    var lineMap: seq<LineMapEntry>
    ghost var pieces: seq<Piece>

    /** `nextLine` is the line the next character lands on. */
    ghost predicate Valid()
      reads this
    {
      && output == Assembled(pieces) && lineMap == MapOf(pieces)
      && nextLine == 1 + Newlines(output)
    }

    constructor ()
      ensures Valid() && pieces == []
    {
      output := "";
      nextLine := 1;
      lineMap := [];
      pieces := [];
    }

    method Push(text: string)
      requires Valid()
      modifies this
      ensures Valid() && pieces == old(pieces) + [Fragment(text)] && output == old(output) + text
    {
      hide Assembled, MapOf, Newlines;
      NewlinesCat(output, text);
      output := output + text;
      var newlines := CountNewlines(text);
      nextLine := nextLine + newlines;
      PieceAdds(pieces, Fragment(text));
      pieces := pieces + [Fragment(text)];
    }

    method EmitBody(body: string, path: string)
      requires Valid()
      modifies this
      ensures Valid() && pieces == old(pieces) + [Body(body, path)]
      ensures output == old(output) + body + if body == "" || body[|body| - 1] == '\n' then "" else "\n"
    {
      hide Assembled, MapOf, Newlines;
      var closed := body;
      if closed != "" && closed[|closed| - 1] != '\n' {
        closed := closed + "\n";
      }
      var bodyStart := nextLine;
      NewlinesCat(output, closed);
      output := output + closed;
      var newlines := CountNewlines(closed);
      nextLine := nextLine + newlines;
      lineMap := lineMap + [LineMapEntry(bodyStart, nextLine - 1, path)];
      PieceAdds(pieces, Body(body, path));
      pieces := pieces + [Body(body, path)];
    }
  }

  method CountNewlines(s: string) returns (n: nat)
    ensures n == Newlines(s)
  {
    n := 0;
    for i := 0 to |s|
      invariant n == Newlines(s[..i])
    {
      assert s[..i + 1] == s[..i] + [s[i]];
      NewlinesCat(s[..i], [s[i]]);
      assert [s[i]][1..] == "";
      if s[i] == '\n' {
        n := n + 1;
      }
    }
    assert s[..|s|] == s;
  }

  // ----- what the line map says -----

  lemma {:induction false} AssembledSplits(pieces: seq<Piece>, n: nat)
    requires n <= |pieces|
    ensures Assembled(pieces) == Assembled(pieces[..n]) + Assembled(pieces[n..])
    decreases |pieces|
  {
    hide TextOf;
    if n == |pieces| {
      assert pieces[..n] == pieces && pieces[n..] == [];
      assert Assembled([]) == "" && Assembled(pieces) + "" == Assembled(pieces);
    } else {
      var m := |pieces| - 1;
      AssembledSplits(pieces[..m], n);
      var tail := pieces[n..];
      assert pieces[..m][..n] == pieces[..n] && pieces[..m][n..] == tail[..|tail| - 1];
      assert tail[|tail| - 1] == pieces[m];
      var a, b, t := Assembled(pieces[..n]), Assembled(tail[..|tail| - 1]), TextOf(pieces[m]);
      assert (a + b) + t == a + (b + t);
    }
  }

  /** The ranges rise and never overlap, and none ends past line `total`. */
  predicate Rising(entries: seq<LineMapEntry>, total: nat) {
    && (forall i :: 0 <= i < |entries| ==> 1 <= entries[i].start && entries[i].start - 1 <= entries[i].end <= total)
    && (forall i, j :: 0 <= i < j < |entries| ==> entries[i].end < entries[j].start)
  }

  lemma RisingGrows(entries: seq<LineMapEntry>, total: nat, entry: LineMapEntry, more: nat)
    requires Rising(entries, total) && entry.start == total + 1 && entry.end == total + more
    ensures Rising(entries + [entry], total + more) && Rising(entries, total + more)
  {
  }

  lemma {:induction false} RangesAreDisjoint(pieces: seq<Piece>)
    ensures Rising(MapOf(pieces), Newlines(Assembled(pieces)))
    decreases |pieces|
  {
    hide TextOf, Newlines, Rising;
    if pieces == [] {
      assert Rising([], Newlines("")) by {
        NothingRises();
      }
    } else {
      var before, last := pieces[..|pieces| - 1], pieces[|pieces| - 1];
      var total, more := Newlines(Assembled(before)), Newlines(TextOf(last));
      RangesAreDisjoint(before);
      NewlinesCat(Assembled(before), TextOf(last));
      var path := if last.Body? then last.path else "";
      RisingGrows(MapOf(before), total, LineMapEntry(1 + total, total + more, path), more);
    }
  }

  lemma NothingRises()
    ensures Rising([], Newlines(""))
  {
  }

  lemma {:induction false} LineEnds(s: string)
    requires EndsLine(s) && s != ""
    ensures Newlines(s) > 0 && Lines(s)[Newlines(s)] == ""
    decreases |s|
  {
    if |s| == 1 {
      assert s[1..] == "";
    } else {
      assert s[1..][|s| - 2] == s[|s| - 1];
      LineEnds(s[1..]);
    }
  }

  /** In a bundle of whole lines, line `k` of a body is the bundle's line `start + k`, unchanged. */
  lemma BodyLinesLand(pieces: seq<Piece>, n: nat, k: nat)
    requires WholeLines(pieces) && n < |pieces| && pieces[n].Body? && k < Newlines(TextOf(pieces[n]))
    ensures var at := Newlines(Assembled(pieces[..n])) + k;
            && at < Newlines(Assembled(pieces))
            && Lines(Assembled(pieces))[at] == Lines(TextOf(pieces[n]))[k]
  {
    hide Lines, Newlines, Assembled, TextOf, EndsLine;
    var before, body, after := Assembled(pieces[..n]), TextOf(pieces[n]), Assembled(pieces[n + 1..]);
    AssembledSplits(pieces, n + 1);
    OneMore(pieces, n);
    PrefixEndsLine(pieces[..n]);
    LineStays(before, body, after, k);
  }

  lemma LineStays(before: string, body: string, after: string, k: nat)
    requires EndsLine(before) && k < Newlines(body)
    ensures Newlines(before) + k < Newlines(before + body + after)
    ensures Lines(before + body + after)[Newlines(before) + k] == Lines(body)[k]
  {
    hide Lines, Newlines;
    LinesCat(before, body);
    LinesCat(before + body, after);
    EmptyLines();
    if before != "" {
      LineEnds(before);
    }
    assert "" + Lines(body)[0] == Lines(body)[0];
  }

  lemma OneMore(pieces: seq<Piece>, n: nat)
    requires n < |pieces|
    ensures Assembled(pieces[..n + 1]) == Assembled(pieces[..n]) + TextOf(pieces[n])
  {
    hide TextOf;
    assert pieces[..n + 1][..n] == pieces[..n];
  }

  lemma {:induction false} PrefixEndsLine(pieces: seq<Piece>)
    requires WholeLines(pieces)
    ensures EndsLine(Assembled(pieces))
    decreases |pieces|
  {
    if pieces != [] {
      PrefixEndsLine(pieces[..|pieces| - 1]);
    }
  }

  /** The map entry of a body starts at its first line. */
  lemma {:induction false} MapEntryOf(pieces: seq<Piece>, n: nat)
    requires n < |pieces| && pieces[n].Body?
    ensures exists i :: 0 <= i < |MapOf(pieces)|
              && MapOf(pieces)[i] == LineMapEntry(1 + Newlines(Assembled(pieces[..n])),
                                                  Newlines(Assembled(pieces[..n])) + Newlines(TextOf(pieces[n])),
                                                  pieces[n].path)
    decreases |pieces|
  {
    var m := |pieces| - 1;
    if n < m {
      MapEntryOf(pieces[..m], n);
      assert pieces[..m][..n] == pieces[..n];
      var entry := LineMapEntry(1 + Newlines(Assembled(pieces[..n])),
                                Newlines(Assembled(pieces[..n])) + Newlines(TextOf(pieces[n])), pieces[n].path);
      var i :| 0 <= i < |MapOf(pieces[..m])| && MapOf(pieces[..m])[i] == entry;
      assert MapOf(pieces)[i] == entry;
    } else {
      assert MapOf(pieces)[|MapOf(pieces)| - 1].path == pieces[n].path;
    }
  }
}
