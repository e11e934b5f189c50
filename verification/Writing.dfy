/** The document builder (`ir.rs`): what emitters write through, with group ids handed out on the way,
    comments claimed from a cursor, and speculation that is rolled back. */
module Writing {
  import opened Document

  /** What an emitter writes. A handle is a group id asked for beforehand; the handles in scope are
      counted from the outermost one. */
  datatype Content =
    | Silent
    | Both(first: Content, second: Content)
    | Piece(atom: Atom)
    | Claim(count: nat, trailing: bool)
    | FreshGroup(body: Content)
    | WithHandle(body: Content)
    | GroupOn(handle: nat, body: Content)
    | Indent(body: Content)
    | AlignTo(width: nat, body: Content)
    | IndentIf(handle: nat, body: Content)
    | OnlyIf(mode: PrintMode, handle: nat, body: Content)
    | Filled(separator: LineMode, entries: Contents)
    | Fitting(variants: Contents)
    | Discarded(body: Content)

  datatype Contents = NoContents | Contents(head: Content, tail: Contents)

  /** Handles are only ever those in scope. */
  predicate Scoped(c: Content, depth: nat)
    decreases c
  {
    match c
    case Both(a, b) => Scoped(a, depth) && Scoped(b, depth)
    case FreshGroup(b) => Scoped(b, depth)
    case WithHandle(b) => Scoped(b, depth + 1)
    case GroupOn(h, b) => h < depth && Scoped(b, depth)
    case Indent(b) => Scoped(b, depth)
    case AlignTo(_, b) => Scoped(b, depth)
    case IndentIf(h, b) => h < depth && Scoped(b, depth)
    case OnlyIf(_, h, b) => h < depth && Scoped(b, depth)
    case Filled(_, es) => AllScoped(es, depth)
    case Fitting(vs) => AllScoped(vs, depth)
    case Discarded(b) => Scoped(b, depth)
    case _ => true
  }

  predicate AllScoped(cs: Contents, depth: nat)
    decreases cs
  {
    cs.Contents? ==> Scoped(cs.head, depth) && AllScoped(cs.tail, depth)
  }

  /** What writing moves besides the stream. */
  datatype Desk = Desk(next: GroupId, cursor: nat)

  function CommentDoc(trailing: bool, text: string): Doc {
    if trailing then LineSuffix(Cat(Leaf(Space), Leaf(Text(text)))) else Leaf(Text(text))
  }

  function RunDoc(run: seq<string>, trailing: bool): Doc {
    if run == [] then Nothing else Cat(CommentDoc(trailing, run[0]), RunDoc(run[1..], trailing))
  }

  function Reach(comments: seq<string>, cursor: nat, count: nat): (to: nat)
    requires cursor <= |comments|
    ensures cursor <= to <= |comments|
  {
    if count < |comments| - cursor then cursor + count else |comments|
  }

  /** The document that writing `c` makes. */
  function Written(comments: seq<string>, c: Content, handles: seq<GroupId>, s: Desk): (r: (Doc, Desk))
    requires Scoped(c, |handles|) && s.cursor <= |comments|
    ensures s.next <= r.1.next && s.cursor <= r.1.cursor <= |comments|
    decreases c, 0
  {
    match c
    case Silent => (Nothing, s)
    case Both(a, b) =>
      var (x, s1) := Written(comments, a, handles, s);
      var (y, s2) := Written(comments, b, handles, s1);
      (Cat(x, y), s2)
    case Piece(atom) => (Leaf(atom), s)
    case Claim(count, trailing) =>
      var to := Reach(comments, s.cursor, count);
      (RunDoc(comments[s.cursor..to], trailing), s.(cursor := to))
    case FreshGroup(b) =>
      var (x, s1) := Written(comments, b, handles, s.(next := s.next + 1));
      (Group(s.next, x), s1)
    case WithHandle(b) => Written(comments, b, handles + [s.next], s.(next := s.next + 1))
    case GroupOn(h, b) =>
      var (x, s1) := Written(comments, b, handles, s);
      (Group(handles[h], x), s1)
    case Indent(b) =>
      var (x, s1) := Written(comments, b, handles, s);
      (Indented(ByLevel, x), s1)
    case AlignTo(n, b) =>
      var (x, s1) := Written(comments, b, handles, s);
      (Indented(ByAlign(n), x), s1)
    case IndentIf(h, b) =>
      var (x, s1) := Written(comments, b, handles, s);
      (Indented(IfBreaks(handles[h]), x), s1)
    case OnlyIf(m, h, b) =>
      var (x, s1) := Written(comments, b, handles, s);
      (Conditional(m, handles[h], x), s1)
    case Filled(sep, es) =>
      var (xs, s1) := WrittenEntries(comments, es, handles, s);
      (Fill(sep, xs), s1)
    case Fitting(vs) =>
      var (xs, s1) := WrittenVariants(comments, vs, handles, s.cursor, s);
      (Best(xs), s1)
    case Discarded(b) =>
      // ids stay unique across a rollback; the stream and the comment cursor are rewound
      (Nothing, s.(next := Written(comments, b, handles, s).1.next))
  }

  function WrittenEntries(comments: seq<string>, es: Contents, handles: seq<GroupId>, s: Desk): (r: (Docs, Desk))
    requires AllScoped(es, |handles|) && s.cursor <= |comments|
    ensures s.next <= r.1.next && s.cursor <= r.1.cursor <= |comments| && (r.0 == NoDocs <==> es == NoContents)
    decreases es, 0
  {
    match es
    case NoContents => (NoDocs, s)
    case Contents(c, rest) =>
      var (x, s1) := Written(comments, c, handles, s);
      var (xs, s2) := WrittenEntries(comments, rest, handles, s1);
      (Docs(x, xs), s2)
  }

  /** Every variant is written from the comments that the first one saw. */
  function WrittenVariants(comments: seq<string>, vs: Contents, handles: seq<GroupId>, entry: nat,
                           s: Desk): (r: (Docs, Desk))
    requires AllScoped(vs, |handles|) && entry <= s.cursor <= |comments|
    ensures s.next <= r.1.next && entry <= r.1.cursor <= |comments|
    ensures vs == NoContents ==> r.1 == s
    decreases vs, 0
  {
    match vs
    case NoContents => (NoDocs, s)
    case Contents(c, rest) =>
      var (x, s1) := Written(comments, c, handles, s.(cursor := entry));
      var (xs, s2) := WrittenVariants(comments, rest, handles, entry, s1);
      (Docs(x, xs), s2)
  }

  // ----- the builder -----

  class Formatter {
    const comments: seq<string>
    var elements: seq<Element>
    var nextGroupId: GroupId
    var cursor: nat

    ghost predicate Valid()
      reads this
    {
      cursor <= |comments|
    }

    ghost function Now(): Desk
      reads this
    {
      Desk(nextGroupId, cursor)
    }

    constructor (comments: seq<string>)
      ensures Valid() && this.comments == comments && elements == [] && Now() == Desk(0, 0)
    {
      this.comments := comments;
      elements := [];
      nextGroupId := 0;
      cursor := 0;
    }

    method NewGroupId() returns (id: GroupId)
      modifies this`nextGroupId
      ensures id == old(nextGroupId) && nextGroupId == id + 1
    {
      id := nextGroupId;
      nextGroupId := nextGroupId + 1;
    }

    method Push(element: Element)
      modifies this`elements
      ensures elements == old(elements) + [element]
    {
      elements := elements + [element];
    }

    /** Detaches what was written since the stream had `length` elements. */
    method TakeSince(length: nat) returns (detached: seq<Element>)
      requires length <= |elements|
      modifies this`elements
      ensures elements == old(elements)[..length] && detached == old(elements)[length..]
    {
      detached := elements[length..];
      elements := elements[..length];
    }

    method PushComments(count: nat, trailing: bool)
      requires Valid()
      modifies this
      ensures Valid() && nextGroupId == old(nextGroupId) && cursor == Reach(comments, old(cursor), count)
      ensures elements == old(elements) + Stream(RunDoc(comments[old(cursor)..cursor], trailing))
    {
      var left := count;
      ghost var (start, to) := (cursor, Reach(comments, cursor, count));
      while left > 0 && cursor < |comments|
        invariant Valid() && start <= cursor <= to == Reach(comments, cursor, left) && nextGroupId == old(nextGroupId)
        invariant elements + Stream(RunDoc(comments[cursor..to], trailing))
               == old(elements) + Stream(RunDoc(comments[start..to], trailing))
        decreases left
      {
        ghost var before := elements;
        ghost var run := comments[cursor..to];
        assert run[0] == comments[cursor] && run[1..] == comments[cursor + 1..to];
        if trailing {
          Push(Mark(StartLineSuffix));
          Push(Plain(Space));
          Push(Plain(Text(comments[cursor])));
          Push(Mark(EndLineSuffix));
        } else {
          Push(Plain(Text(comments[cursor])));
        }
        CommentStream(trailing, comments[cursor]);
        assert elements == before + Stream(CommentDoc(trailing, comments[cursor]));
        Regroup(before, Stream(CommentDoc(trailing, comments[cursor])), Stream(RunDoc(run[1..], trailing)));
        cursor := cursor + 1;
        left := left - 1;
      }
      assert comments[cursor..to] == [];
      assert elements + [] == elements;
    }

    method Fmt(c: Content, handles: seq<GroupId>)
      requires Valid() && Scoped(c, |handles|)
      modifies this
      ensures Valid()
      ensures var (d, s) := Written(comments, c, handles, old(Now()));
              elements == old(elements) + Stream(d) && Now() == s
      decreases c, 1
    {
      hide RunDoc, EntryStream, VariantStreams, Reach, WrittenEntries, WrittenVariants;
      match c {
        case Silent => assert elements + [] == elements;
        case Both(a, b) =>
          FmtBoth(a, b, handles);
        case Piece(atom) => Push(Plain(atom));
        case Claim(count, trailing) => PushComments(count, trailing);
        case FreshGroup(b) =>
          var id := NewGroupId();
          FmtTagged(StartGroup(id), b, EndGroup, handles);
        case WithHandle(b) =>
          var id := NewGroupId();
          Fmt(b, handles + [id]);
        case GroupOn(h, b) => FmtTagged(StartGroup(handles[h]), b, EndGroup, handles);
        case Indent(b) => FmtTagged(StartIndent, b, EndIndent, handles);
        case AlignTo(n, b) => FmtTagged(StartAlign(n), b, EndAlign, handles);
        case IndentIf(h, b) => FmtTagged(StartIndentIfGroupBreaks(handles[h]), b, EndIndentIfGroupBreaks, handles);
        case OnlyIf(m, h, b) => FmtTagged(StartConditional(m, handles[h]), b, EndConditional, handles);
        case Filled(sep, es) => FmtFill(sep, es, handles);
        case Fitting(vs) => FmtBestFitting(vs, handles);
        case Discarded(b) =>
          FmtAndRestore(b, handles);
          assert elements + [] == elements;
      }
    }

    method FmtBoth(a: Content, b: Content, handles: seq<GroupId>)
      requires Valid() && Scoped(a, |handles|) && Scoped(b, |handles|)
      modifies this
      ensures Valid()
      ensures var (x, s1) := Written(comments, a, handles, old(Now()));
              var (y, s2) := Written(comments, b, handles, s1);
              elements == old(elements) + (Stream(x) + Stream(y)) && Now() == s2
      decreases Both(a, b), 0
    {
      hide Stream, Written;
      Fmt(a, handles);
      Fmt(b, handles);
    }

    /** Speculation that fails: the stream and the cursor are rewound, the ids are not. */
    method FmtAndRestore(b: Content, handles: seq<GroupId>)
      requires Valid() && Scoped(b, |handles|)
      modifies this
      ensures Valid() && elements == old(elements)
      ensures Now() == old(Now()).(next := Written(comments, b, handles, old(Now())).1.next)
      decreases b, 2
    {
      hide Stream, Written;
      var length, entry := |elements|, cursor;
      Fmt(b, handles);
      elements := elements[..length];
      cursor := entry;
    }

    method FmtTagged(open: Tag, b: Content, close: Tag, handles: seq<GroupId>)
      requires Valid() && Scoped(b, |handles|)
      modifies this
      ensures Valid()
      ensures var (d, s) := Written(comments, b, handles, old(Now()));
              elements == old(elements) + ([Mark(open)] + Stream(d) + [Mark(close)]) && Now() == s
      decreases b, 2
    {
      hide Stream, Written;
      Push(Mark(open));
      Fmt(b, handles);
      Push(Mark(close));
    }

    method FmtFill(separator: LineMode, entries: Contents, handles: seq<GroupId>)
      requires Valid() && AllScoped(entries, |handles|)
      modifies this
      ensures Valid()
      ensures var (xs, s) := WrittenEntries(comments, entries, handles, old(Now()));
              elements == old(elements) + Stream(Fill(separator, xs)) && Now() == s
      decreases entries, 1
    {
      hide EntryStream, WrittenEntries;
      Push(Mark(StartFill));
      FmtEntries(separator, entries, handles);
      Push(Mark(EndFill));
    }

    method FmtEntries(separator: LineMode, entries: Contents, handles: seq<GroupId>)
      requires Valid() && AllScoped(entries, |handles|)
      modifies this
      ensures Valid()
      ensures var (xs, s) := WrittenEntries(comments, entries, handles, old(Now()));
              elements == old(elements) + EntryStream(separator, xs) && Now() == s
      decreases entries, 0
    {
      hide Stream, Written;
      if entries == NoContents {
        assert elements + [] == elements;
        return;
      }
      FmtTagged(StartEntry, entries.head, EndEntry, handles);
      if entries.tail != NoContents {
        Push(Plain(Line(separator)));
        FmtEntries(separator, entries.tail, handles);
      }
    }

    method FmtBestFitting(variants: Contents, handles: seq<GroupId>)
      requires Valid() && AllScoped(variants, |handles|)
      modifies this
      ensures Valid()
      ensures var (xs, s) := WrittenVariants(comments, variants, handles, old(cursor), old(Now()));
              elements == old(elements) + Stream(Best(xs)) && Now() == s
      decreases variants, 1
    {
      var captured := CaptureVariants(variants, handles, cursor);
      Push(BestFitting(captured));
    }

    /** Each variant is written from the comments the first one saw, and detached. */
    method CaptureVariants(variants: Contents, handles: seq<GroupId>, entry: nat) returns (captured: seq<Variant>)
      requires Valid() && AllScoped(variants, |handles|) && entry <= cursor
      modifies this
      ensures Valid() && elements == old(elements)
      ensures var (xs, s) := WrittenVariants(comments, variants, handles, entry, old(Now()));
              captured == VariantStreams(xs) && Now() == s
      decreases variants, 0
    {
      hide Stream, Written;
      if variants == NoContents {
        return [];
      }
      cursor := entry;
      var length := |elements|;
      Fmt(variants.head, handles);
      ghost var variant := Stream(Written(comments, variants.head, handles, old(Now()).(cursor := entry)).0);
      assert elements == old(elements) + variant;
      var detached := TakeSince(length);
      assert elements == old(elements) && detached == variant;
      captured := CaptureVariants(variants.tail, handles, entry);
      captured := [Variant(detached)] + captured;
    }
  }

  lemma Regroup(a: seq<Element>, b: seq<Element>, c: seq<Element>)
    ensures a + (b + c) == a + b + c
  {
  }

  lemma CommentStream(trailing: bool, text: string)
    ensures Stream(CommentDoc(trailing, text))
         == if trailing then [Mark(StartLineSuffix)] + [Plain(Space)] + [Plain(Text(text))] + [Mark(EndLineSuffix)]
            else [Plain(Text(text))]
  {
    assert Stream(Leaf(Space)) == [Plain(Space)] && Stream(Leaf(Text(text))) == [Plain(Text(text))];
    var inner := Cat(Leaf(Space), Leaf(Text(text)));
    assert Stream(inner) == [Plain(Space)] + [Plain(Text(text))];
    assert Stream(LineSuffix(inner)) == [Mark(StartLineSuffix)] + Stream(inner) + [Mark(EndLineSuffix)];
  }
}
