/** What every document written through the builder has: group ids that differ, and each claimed comment
    exactly once whichever layout the printer chooses. */
module WrittenDocuments {
  import opened Document
  import opened Conservation
  import opened FitSoundness
  import opened DocumentRuns
  import opened Writing
  import Layout
  import Printer

  // ----- group ids -----

  /** How often the handle `h` opens a group in what is left of `c`. */
  function Opened(c: Content, h: nat): nat
    decreases c
  {
    match c
    case Both(a, b) => Opened(a, h) + Opened(b, h)
    case FreshGroup(b) => Opened(b, h)
    case WithHandle(b) => Opened(b, h)
    case GroupOn(k, b) => (if k == h then 1 else 0) + Opened(b, h)
    case Indent(b) => Opened(b, h)
    case AlignTo(_, b) => Opened(b, h)
    case IndentIf(_, b) => Opened(b, h)
    case OnlyIf(_, _, b) => Opened(b, h)
    case Filled(_, es) => AllOpened(es, h)
    case Fitting(vs) => AllOpened(vs, h)
    case _ => 0
  }

  function AllOpened(cs: Contents, h: nat): nat
    decreases cs
  {
    match cs
    case NoContents => 0
    case Contents(c, rest) => Opened(c, h) + AllOpened(rest, h)
  }

  /** Each id asked for opens one group at most; `depth` handles are in scope. */
  predicate Linear(c: Content, depth: nat)
    decreases c
  {
    match c
    case Both(a, b) => Linear(a, depth) && Linear(b, depth)
    case FreshGroup(b) => Linear(b, depth)
    case WithHandle(b) => Opened(b, depth) <= 1 && Linear(b, depth + 1)
    case GroupOn(_, b) => Linear(b, depth)
    case Indent(b) => Linear(b, depth)
    case AlignTo(_, b) => Linear(b, depth)
    case IndentIf(_, b) => Linear(b, depth)
    case OnlyIf(_, _, b) => Linear(b, depth)
    case Filled(_, es) => AllLinear(es, depth)
    case Fitting(vs) => AllLinear(vs, depth)
    case _ => true
  }

  predicate AllLinear(cs: Contents, depth: nat)
    decreases cs
  {
    cs.Contents? ==> Linear(cs.head, depth) && AllLinear(cs.tail, depth)
  }

  predicate Once(c: Content, n: nat) { forall h: nat :: h < n ==> Opened(c, h) <= 1 }

  predicate AllOnce(cs: Contents, n: nat) { forall h: nat :: h < n ==> AllOpened(cs, h) <= 1 }

  function Used(c: Content, n: nat): set<nat> { set h: nat | h < n && Opened(c, h) >= 1 }

  function AllUsed(cs: Contents, n: nat): set<nat> { set h: nat | h < n && AllOpened(cs, h) >= 1 }

  /** `id` was handed out in `lo..hi`, or is that of a used handle. */
  predicate Accounted(used: set<nat>, handles: seq<GroupId>, lo: nat, hi: nat, id: GroupId) {
    lo <= id < hi || exists h: nat :: h in used && h < |handles| && handles[h] == id
  }

  predicate AllAccounted(ids: set<GroupId>, used: set<nat>, handles: seq<GroupId>, lo: nat, hi: nat) {
    forall id :: id in ids ==> Accounted(used, handles, lo, hi, id)
  }

  /** The handles are ids of their own, handed out before `next`. */
  predicate Handed(handles: seq<GroupId>, next: nat) {
    && (forall h :: 0 <= h < |handles| ==> handles[h] < next)
    && (forall h, k :: 0 <= h < k < |handles| ==> handles[h] != handles[k])
  }

  lemma NotBoth(ua: set<nat>, ub: set<nat>, handles: seq<GroupId>, lo: nat, mid: nat, hi: nat, id: GroupId)
    requires Handed(handles, lo) && lo <= mid <= hi && ua !! ub && Accounted(ua, handles, lo, mid, id)
    ensures !Accounted(ub, handles, mid, hi, id)
  {
  }

  lemma ApartIds(a: set<GroupId>, b: set<GroupId>, ua: set<nat>, ub: set<nat>, handles: seq<GroupId>, lo: nat,
                 mid: nat, hi: nat)
    requires Handed(handles, lo) && lo <= mid <= hi && ua !! ub
    requires AllAccounted(a, ua, handles, lo, mid) && AllAccounted(b, ub, handles, mid, hi)
    ensures a !! b
    ensures AllAccounted(a + b, ua + ub, handles, lo, hi)
  {
    forall id | id in a
      ensures id !in b
    {
      NotBoth(ua, ub, handles, lo, mid, hi, id);
    }
    forall id | id in a + b
      ensures Accounted(ua + ub, handles, lo, hi, id)
    {
      if id in a {
        assert Accounted(ua, handles, lo, mid, id);
        if !(lo <= id < mid) {
          var h: nat :| h in ua && h < |handles| && handles[h] == id;
          assert h in ua + ub;
        }
      } else {
        assert Accounted(ub, handles, mid, hi, id);
        if !(mid <= id < hi) {
          var h: nat :| h in ub && h < |handles| && handles[h] == id;
          assert h in ua + ub;
        }
      }
    }
  }

  lemma CommentHasNoIds(text: string, trailing: bool)
    ensures DocIds(CommentDoc(trailing, text)) == {} && Distinct(CommentDoc(trailing, text))
  {
    var space, words := Leaf(Space), Leaf(Text(text));
    assert DocIds(space) == {} && DocIds(words) == {} && Distinct(space) && Distinct(words);
    assert DocIds(Cat(space, words)) == {} && Distinct(Cat(space, words));
  }

  lemma {:induction false} RunHasNoIds(run: seq<string>, trailing: bool)
    ensures DocIds(RunDoc(run, trailing)) == {} && Distinct(RunDoc(run, trailing))
  {
    hide CommentDoc;
    if run != [] {
      RunHasNoIds(run[1..], trailing);
      CommentHasNoIds(run[0], trailing);
      var d, rest := CommentDoc(trailing, run[0]), RunDoc(run[1..], trailing);
      assert RunDoc(run, trailing) == Cat(d, rest);
      assert DocIds(Cat(d, rest)) == DocIds(d) + DocIds(rest) && DocIds(d) !! DocIds(rest);
    }
  }

  ghost predicate IdsFine(d: Doc, used: set<nat>, handles: seq<GroupId>, lo: nat, hi: nat) {
    Distinct(d) && AllAccounted(DocIds(d), used, handles, lo, hi)
  }

  /** Group ids differ wherever each handle is used once: rollbacks and discarded variants never give an
      id out a second time. */
  lemma {:induction false} IdsDiffer(comments: seq<string>, c: Content, handles: seq<GroupId>, s: Desk)
    requires Scoped(c, |handles|) && Linear(c, |handles|) && s.cursor <= |comments| && Handed(handles, s.next)
    requires Once(c, |handles|)
    ensures var (d, s1) := Written(comments, c, handles, s);
            IdsFine(d, Used(c, |handles|), handles, s.next, s1.next)
    decreases c, 1
  {
    hide Accounted, Handed, Written;
    var n := |handles|;
    match c
    case Both(a, b) => BothDiffer(comments, a, b, handles, s);
    case Claim(count, trailing) =>
      ClaimWritten(comments, count, trailing, handles, s);
      RunHasNoIds(comments[s.cursor..Reach(comments, s.cursor, count)], trailing);
    case FreshGroup(b) => FreshDiffer(comments, b, handles, s);
    case WithHandle(b) => HandleDiffer(comments, b, handles, s);
    case GroupOn(h, b) => GroupDiffer(comments, h, b, handles, s);
    case Indent(b) => InsideDiffer(comments, c, handles, s);
    case AlignTo(_, b) => InsideDiffer(comments, c, handles, s);
    case IndentIf(_, b) => InsideDiffer(comments, c, handles, s);
    case OnlyIf(_, _, b) => InsideDiffer(comments, c, handles, s);
    case Filled(sep, es) =>
      assert forall h: nat :: Opened(c, h) == AllOpened(es, h);
      EntriesDiffer(comments, es, handles, s);
      assert Used(c, n) == AllUsed(es, n);
      ListInside(comments, c, handles, s);
    case Fitting(vs) =>
      assert forall h: nat :: Opened(c, h) == AllOpened(vs, h);
      VariantsDiffer(comments, vs, handles, s.cursor, s);
      assert Used(c, n) == AllUsed(vs, n);
      ListInside(comments, c, handles, s);
    case _ => OneInside(comments, c, handles, s);
  }

  lemma ClaimWritten(comments: seq<string>, count: nat, trailing: bool, handles: seq<GroupId>, s: Desk)
    requires s.cursor <= |comments|
    ensures Written(comments, Claim(count, trailing), handles, s).0
         == RunDoc(comments[s.cursor..Reach(comments, s.cursor, count)], trailing)
    ensures Written(comments, Claim(count, trailing), handles, s).1 == s.(cursor := Reach(comments, s.cursor, count))
  {
  }

  lemma {:induction false} InsideDiffer(comments: seq<string>, c: Content, handles: seq<GroupId>, s: Desk)
    requires c.Indent? || c.AlignTo? || c.IndentIf? || c.OnlyIf?
    requires Scoped(c, |handles|) && Linear(c, |handles|) && s.cursor <= |comments| && Handed(handles, s.next)
             && Once(c, |handles|)
    ensures var (d, s1) := Written(comments, c, handles, s);
            IdsFine(d, Used(c, |handles|), handles, s.next, s1.next)
    decreases c, 0
  {
    hide Accounted, Handed, Written;
    OneInside(comments, c, handles, s);
    IdsDiffer(comments, c.body, handles, s);
    assert Used(c, |handles|) == Used(c.body, |handles|);
  }

  lemma OneInside(comments: seq<string>, c: Content, handles: seq<GroupId>, s: Desk)
    requires Scoped(c, |handles|) && s.cursor <= |comments|
    ensures c.Indent? || c.AlignTo? || c.IndentIf? || c.OnlyIf? ==>
              var (d, s1) := Written(comments, c, handles, s);
              var (x, s2) := Written(comments, c.body, handles, s);
              && s1 == s2 && (d.Indented? || d.Conditional?) && d.body == x
              && (forall h: nat :: Opened(c, h) == Opened(c.body, h))
    ensures c.Silent? || c.Piece? || c.Discarded? ==> var d := Written(comments, c, handles, s).0; d.Nothing? || d.Leaf?
  {
  }

  lemma ListInside(comments: seq<string>, c: Content, handles: seq<GroupId>, s: Desk)
    requires Scoped(c, |handles|) && s.cursor <= |comments|
    ensures c.Filled? ==>
              var (xs, s1) := WrittenEntries(comments, c.entries, handles, s);
              Written(comments, c, handles, s) == (Fill(c.separator, xs), s1)
    ensures c.Fitting? ==>
              var (xs, s1) := WrittenVariants(comments, c.variants, handles, s.cursor, s);
              Written(comments, c, handles, s) == (Best(xs), s1)
  {
  }

  lemma {:induction false} BothDiffer(comments: seq<string>, a: Content, b: Content, handles: seq<GroupId>, s: Desk)
    requires Scoped(Both(a, b), |handles|) && Linear(Both(a, b), |handles|) && s.cursor <= |comments|
             && Handed(handles, s.next)
    requires Once(Both(a, b), |handles|)
    ensures var (d, s1) := Written(comments, Both(a, b), handles, s);
            IdsFine(d, Used(Both(a, b), |handles|), handles, s.next, s1.next)
    decreases Both(a, b), 0
  {
    hide Accounted, Scoped, Linear;
    var n := |handles|;
    assert forall h: nat :: Opened(Both(a, b), h) == Opened(a, h) + Opened(b, h);
    assert Scoped(a, n) && Scoped(b, n) && Linear(a, n) && Linear(b, n) by { BothParts(a, b, n); }
    var (x, s1) := Written(comments, a, handles, s);
    var (y, s2) := Written(comments, b, handles, s1);
    IdsDiffer(comments, a, handles, s);
    IdsDiffer(comments, b, handles, s1);
    assert Used(a, n) + Used(b, n) == Used(Both(a, b), n);
    ApartIds(DocIds(x), DocIds(y), Used(a, n), Used(b, n), handles, s.next, s1.next, s2.next);
  }

  lemma BothParts(a: Content, b: Content, n: nat)
    ensures Scoped(Both(a, b), n) ==> Scoped(a, n) && Scoped(b, n)
    ensures Linear(Both(a, b), n) ==> Linear(a, n) && Linear(b, n)
  {
  }

  lemma {:induction false} FreshDiffer(comments: seq<string>, b: Content, handles: seq<GroupId>, s: Desk)
    requires Scoped(b, |handles|) && Linear(b, |handles|) && s.cursor <= |comments| && Handed(handles, s.next)
    requires Once(FreshGroup(b), |handles|)
    ensures var (d, s1) := Written(comments, FreshGroup(b), handles, s);
            IdsFine(d, Used(FreshGroup(b), |handles|), handles, s.next, s1.next)
    decreases FreshGroup(b), 0
  {
    hide Scoped, Linear;
    var inner := s.(next := s.next + 1);
    var (x, s1) := Written(comments, b, handles, inner);
    assert forall h: nat :: Opened(FreshGroup(b), h) == Opened(b, h);
    IdsDiffer(comments, b, handles, inner);
    var used := Used(b, |handles|);
    assert used == Used(FreshGroup(b), |handles|);
    assert !Accounted(used, handles, inner.next, s1.next, s.next);
    forall id | id in DocIds(Group(s.next, x))
      ensures Accounted(used, handles, s.next, s1.next, id)
    {
      assert id == s.next || Accounted(used, handles, inner.next, s1.next, id);
    }
  }

  /** An id known in the wider scope is known in the narrower one. */
  lemma Narrower(b: Content, handles: seq<GroupId>, next: nat, hi: nat, id: GroupId)
    requires next < hi && Accounted(Used(b, |handles| + 1), handles + [next], next + 1, hi, id)
    ensures Accounted(Used(WithHandle(b), |handles|), handles, next, hi, id)
  {
    var more := handles + [next];
    if !(next + 1 <= id < hi) {
      var h: nat :| h in Used(b, |more|) && h < |more| && more[h] == id;
      if h < |handles| {
        assert Opened(WithHandle(b), h) == Opened(b, h);
        assert h in Used(WithHandle(b), |handles|) && handles[h] == id;
      }
    }
  }

  lemma {:induction false} HandleDiffer(comments: seq<string>, b: Content, handles: seq<GroupId>, s: Desk)
    requires Scoped(b, |handles| + 1) && Linear(WithHandle(b), |handles|) && s.cursor <= |comments|
             && Handed(handles, s.next)
    requires Once(WithHandle(b), |handles|)
    ensures var (d, s1) := Written(comments, WithHandle(b), handles, s);
            IdsFine(d, Used(WithHandle(b), |handles|), handles, s.next, s1.next)
    decreases WithHandle(b), 0
  {
    hide Scoped, Accounted;
    var more := handles + [s.next];
    var inner := s.(next := s.next + 1);
    var (x, s1) := Written(comments, b, more, inner);
    assert forall h: nat :: Opened(WithHandle(b), h) == Opened(b, h);
    IdsDiffer(comments, b, more, inner);
    var used := Used(WithHandle(b), |handles|);
    forall id | id in DocIds(x)
      ensures Accounted(used, handles, s.next, s1.next, id)
    {
      Narrower(b, handles, s.next, s1.next, id);
    }
  }

  lemma {:induction false} GroupDiffer(comments: seq<string>, k: nat, b: Content, handles: seq<GroupId>, s: Desk)
    requires k < |handles| && Scoped(b, |handles|) && Linear(b, |handles|) && s.cursor <= |comments|
             && Handed(handles, s.next)
    requires Once(GroupOn(k, b), |handles|)
    ensures var (d, s1) := Written(comments, GroupOn(k, b), handles, s);
            IdsFine(d, Used(GroupOn(k, b), |handles|), handles, s.next, s1.next)
    decreases GroupOn(k, b), 0
  {
    hide Scoped, Linear;
    assert forall h: nat :: Opened(GroupOn(k, b), h) == (if k == h then 1 else 0) + Opened(b, h);
    var (x, s1) := Written(comments, b, handles, s);
    IdsDiffer(comments, b, handles, s);
    var (used, whole) := (Used(b, |handles|), Used(GroupOn(k, b), |handles|));
    assert k !in used && used + {k} == whole;
    assert !Accounted(used, handles, s.next, s1.next, handles[k]);
    forall id | id in DocIds(Group(handles[k], x))
      ensures Accounted(whole, handles, s.next, s1.next, id)
    {
      if id == handles[k] {
        assert k in whole;
      } else {
        assert Accounted(used, handles, s.next, s1.next, id);
        if !(s.next <= id < s1.next) {
          var h: nat :| h in used && h < |handles| && handles[h] == id;
          assert h in whole;
        }
      }
    }
  }

  ghost predicate AllIdsFine(ds: Docs, used: set<nat>, handles: seq<GroupId>, lo: nat, hi: nat) {
    AllDistinct(ds) && AllAccounted(AllIds(ds), used, handles, lo, hi)
  }

  lemma {:induction false} EntriesDiffer(comments: seq<string>, es: Contents, handles: seq<GroupId>, s: Desk)
    requires AllScoped(es, |handles|) && AllLinear(es, |handles|) && s.cursor <= |comments| && Handed(handles, s.next)
    requires AllOnce(es, |handles|)
    ensures var (xs, s1) := WrittenEntries(comments, es, handles, s);
            AllIdsFine(xs, AllUsed(es, |handles|), handles, s.next, s1.next)
    decreases es, 0
  {
    hide Accounted, Scoped, Linear, Written;
    var n := |handles|;
    if es.Contents? {
      var (x, s1) := Written(comments, es.head, handles, s);
      var (xs, s2) := WrittenEntries(comments, es.tail, handles, s1);
      assert forall h: nat :: AllOpened(es, h) == Opened(es.head, h) + AllOpened(es.tail, h);
      IdsDiffer(comments, es.head, handles, s);
      EntriesDiffer(comments, es.tail, handles, s1);
      assert Used(es.head, n) + AllUsed(es.tail, n) == AllUsed(es, n);
      ApartIds(DocIds(x), AllIds(xs), Used(es.head, n), AllUsed(es.tail, n), handles, s.next, s1.next, s2.next);
    }
  }

  lemma {:induction false} VariantsDiffer(comments: seq<string>, vs: Contents, handles: seq<GroupId>, entry: nat,
                                          s: Desk)
    requires AllScoped(vs, |handles|) && AllLinear(vs, |handles|) && entry <= s.cursor <= |comments|
             && Handed(handles, s.next)
    requires AllOnce(vs, |handles|)
    ensures var (xs, s1) := WrittenVariants(comments, vs, handles, entry, s);
            AllIdsFine(xs, AllUsed(vs, |handles|), handles, s.next, s1.next)
    decreases vs, 0
  {
    hide Accounted, Scoped, Linear, Written;
    var n := |handles|;
    if vs.Contents? {
      var from := s.(cursor := entry);
      var (x, s1) := Written(comments, vs.head, handles, from);
      var (xs, s2) := WrittenVariants(comments, vs.tail, handles, entry, s1);
      assert forall h: nat :: AllOpened(vs, h) == Opened(vs.head, h) + AllOpened(vs.tail, h);
      IdsDiffer(comments, vs.head, handles, from);
      VariantsDiffer(comments, vs.tail, handles, entry, s1);
      assert Used(vs.head, n) + AllUsed(vs.tail, n) == AllUsed(vs, n);
      ApartIds(DocIds(x), AllIds(xs), Used(vs.head, n), AllUsed(vs.tail, n), handles, s.next, s1.next, s2.next);
    }
  }

  function DocOf(comments: seq<string>, c: Content): Doc
    requires Scoped(c, 0)
  {
    Written(comments, c, [], Desk(0, 0)).0
  }

  lemma OwnIds(comments: seq<string>, c: Content)
    requires Scoped(c, 0) && Linear(c, 0)
    ensures Distinct(DocOf(comments, c))
  {
    hide Scoped, Linear, Written, Distinct;
    IdsDiffer(comments, c, [], Desk(0, 0));
  }

  /** Tokens are single-line, and a best-fitting element is given at least two variants. */
  predicate Tidy(c: Content)
    decreases c
  {
    match c
    case Both(a, b) => Tidy(a) && Tidy(b)
    case Piece(Token(s)) => '\n' !in s
    case FreshGroup(b) => Tidy(b)
    case WithHandle(b) => Tidy(b)
    case GroupOn(_, b) => Tidy(b)
    case Indent(b) => Tidy(b)
    case AlignTo(_, b) => Tidy(b)
    case IndentIf(_, b) => Tidy(b)
    case OnlyIf(_, _, b) => Tidy(b)
    case Filled(_, es) => AllTidy(es)
    case Fitting(vs) => vs.Contents? && vs.tail.Contents? && AllTidy(vs)
    case _ => true
  }

  predicate AllTidy(cs: Contents)
    decreases cs
  {
    cs.Contents? ==> Tidy(cs.head) && AllTidy(cs.tail)
  }

  lemma {:induction false} RunIsWellFormed(run: seq<string>, trailing: bool)
    ensures WellFormed(RunDoc(run, trailing))
  {
    if run != [] {
      RunIsWellFormed(run[1..], trailing);
      var space, words := Leaf(Space), Leaf(Text(run[0]));
      assert WellFormed(space) && WellFormed(words) && WellFormed(Cat(space, words));
      assert WellFormed(CommentDoc(trailing, run[0]));
    }
  }

  lemma {:induction false} TidyWritten(comments: seq<string>, c: Content, handles: seq<GroupId>, s: Desk)
    requires Scoped(c, |handles|) && s.cursor <= |comments| && Tidy(c)
    ensures WellFormed(Written(comments, c, handles, s).0)
    decreases c, 1
  {
    hide WrittenEntries, WrittenVariants, RunDoc, Reach;
    match c
    case Both(a, b) =>
      TidyWritten(comments, a, handles, s);
      TidyWritten(comments, b, handles, Written(comments, a, handles, s).1);
    case Claim(count, trailing) => RunIsWellFormed(comments[s.cursor..Reach(comments, s.cursor, count)], trailing);
    case FreshGroup(b) => TidyWritten(comments, b, handles, s.(next := s.next + 1));
    case WithHandle(b) => TidyWritten(comments, b, handles + [s.next], s.(next := s.next + 1));
    case GroupOn(_, b) => TidyWritten(comments, b, handles, s);
    case Indent(b) => TidyWritten(comments, b, handles, s);
    case AlignTo(_, b) => TidyWritten(comments, b, handles, s);
    case IndentIf(_, b) => TidyWritten(comments, b, handles, s);
    case OnlyIf(_, _, b) => TidyWritten(comments, b, handles, s);
    case Filled(_, es) => TidyEntries(comments, es, handles, s);
    case Fitting(vs) => TidyVariants(comments, vs, handles, s.cursor, s);
    case _ =>
  }

  lemma {:induction false} TidyEntries(comments: seq<string>, es: Contents, handles: seq<GroupId>, s: Desk)
    requires AllScoped(es, |handles|) && s.cursor <= |comments| && AllTidy(es)
    ensures AllWellFormed(WrittenEntries(comments, es, handles, s).0)
    decreases es, 0
  {
    hide Written;
    if es.Contents? {
      TidyWritten(comments, es.head, handles, s);
      TidyEntries(comments, es.tail, handles, Written(comments, es.head, handles, s).1);
    }
  }

  lemma {:induction false} TidyVariants(comments: seq<string>, vs: Contents, handles: seq<GroupId>, entry: nat, s: Desk)
    requires AllScoped(vs, |handles|) && entry <= s.cursor <= |comments| && AllTidy(vs)
    ensures var xs := WrittenVariants(comments, vs, handles, entry, s).0;
            && AllWellFormed(xs) && (vs.Contents? ==> Count(xs) >= 1)
            && (vs.Contents? && vs.tail.Contents? ==> Count(xs) >= 2)
    decreases vs, 0
  {
    hide Written;
    if vs.Contents? {
      TidyWritten(comments, vs.head, handles, s.(cursor := entry));
      TidyVariants(comments, vs.tail, handles, entry, Written(comments, vs.head, handles, s.(cursor := entry)).1);
    }
  }

  /** Fit soundness for every document the builder can write, at any line width. */
  lemma WrittenDocumentsCommitSoundly(o: Layout.Options, comments: seq<string>, c: Content)
    requires Scoped(c, 0) && Linear(c, 0) && Tidy(c)
    ensures CommitsSound(o, DocOf(comments, c), Printer.Start(DocOf(comments, c)))
  {
    hide WellFormed, CommitsSound, Distinct, Scoped, Linear, Tidy, Printer.Start;
    OwnIds(comments, c);
    TidyWritten(comments, c, [], Desk(0, 0));
    FlatCommitmentsAreSound(o, DocOf(comments, c));
  }

  // ----- comments -----

  /** The texts that are comments. */
  function Remarks(ts: seq<string>, isComment: string -> bool): seq<string> {
    if ts == [] then [] else (if isComment(ts[0]) then [ts[0]] else []) + Remarks(ts[1..], isComment)
  }

  lemma {:induction false} RemarksCat(x: seq<string>, y: seq<string>, isComment: string -> bool)
    ensures Remarks(x + y, isComment) == Remarks(x, isComment) + Remarks(y, isComment)
  {
    if x == [] {
      assert x + y == y;
      assert [] + Remarks(y, isComment) == Remarks(y, isComment);
    } else {
      var own := if isComment(x[0]) then [x[0]] else [];
      RemarksCat(x[1..], y, isComment);
      assert (x + y)[1..] == x[1..] + y;
      assert Remarks(x + y, isComment) == own + Remarks(x[1..] + y, isComment);
      assert own + (Remarks(x[1..], isComment) + Remarks(y, isComment))
             == own + Remarks(x[1..], isComment) + Remarks(y, isComment);
    }
  }

  lemma {:induction false} AllRemarks(ts: seq<string>, isComment: string -> bool)
    requires forall i :: 0 <= i < |ts| ==> isComment(ts[i])
    ensures Remarks(ts, isComment) == ts
  {
    if ts != [] {
      AllRemarks(ts[1..], isComment);
    }
  }

  /** Writing `c` claims comments up to here. */
  function ClaimedTo(comments: seq<string>, c: Content, cursor: nat): (to: nat)
    requires cursor <= |comments|
    ensures cursor <= to <= |comments|
    decreases c
  {
    match c
    case Both(a, b) => ClaimedTo(comments, b, ClaimedTo(comments, a, cursor))
    case Claim(count, _) => Reach(comments, cursor, count)
    case FreshGroup(b) => ClaimedTo(comments, b, cursor)
    case WithHandle(b) => ClaimedTo(comments, b, cursor)
    case GroupOn(_, b) => ClaimedTo(comments, b, cursor)
    case Indent(b) => ClaimedTo(comments, b, cursor)
    case AlignTo(_, b) => ClaimedTo(comments, b, cursor)
    case IndentIf(_, b) => ClaimedTo(comments, b, cursor)
    case OnlyIf(_, _, b) => ClaimedTo(comments, b, cursor)
    case Filled(_, es) => EntriesTo(comments, es, cursor)
    case Fitting(vs) => if vs.Contents? then ClaimedTo(comments, vs.head, cursor) else cursor
    case _ => cursor
  }

  function EntriesTo(comments: seq<string>, es: Contents, cursor: nat): (to: nat)
    requires cursor <= |comments|
    ensures cursor <= to <= |comments|
    decreases es
  {
    match es
    case NoContents => cursor
    case Contents(c, rest) => EntriesTo(comments, rest, ClaimedTo(comments, c, cursor))
  }

  /** What the builder asks of emitters: the variants of a best-fitting element claim the same comments,
      and a conditional, which may be left out, claims none. And no piece of code is a comment. */
  predicate Agreeing(comments: seq<string>, c: Content, cursor: nat, isComment: string -> bool)
    requires cursor <= |comments|
    decreases c
  {
    match c
    case Both(a, b) =>
      && Agreeing(comments, a, cursor, isComment)
      && Agreeing(comments, b, ClaimedTo(comments, a, cursor), isComment)
    case Piece(Token(text)) => !isComment(text)
    case Piece(Text(text)) => !isComment(text)
    case FreshGroup(b) => Agreeing(comments, b, cursor, isComment)
    case WithHandle(b) => Agreeing(comments, b, cursor, isComment)
    case GroupOn(_, b) => Agreeing(comments, b, cursor, isComment)
    case Indent(b) => Agreeing(comments, b, cursor, isComment)
    case AlignTo(_, b) => Agreeing(comments, b, cursor, isComment)
    case IndentIf(_, b) => Agreeing(comments, b, cursor, isComment)
    case OnlyIf(_, _, b) => Agreeing(comments, b, cursor, isComment) && ClaimedTo(comments, b, cursor) == cursor
    case Filled(_, es) => EntriesAgree(comments, es, cursor, isComment)
    case Fitting(vs) => VariantsAgree(comments, vs, cursor, ClaimedTo(comments, c, cursor), isComment)
    case _ => true
  }

  predicate EntriesAgree(comments: seq<string>, es: Contents, cursor: nat, isComment: string -> bool)
    requires cursor <= |comments|
    decreases es
  {
    es.Contents? ==>
      && Agreeing(comments, es.head, cursor, isComment)
      && EntriesAgree(comments, es.tail, ClaimedTo(comments, es.head, cursor), isComment)
  }

  predicate VariantsAgree(comments: seq<string>, vs: Contents, cursor: nat, to: nat, isComment: string -> bool)
    requires cursor <= |comments|
    decreases vs
  {
    vs.Contents? ==>
      && Agreeing(comments, vs.head, cursor, isComment) && ClaimedTo(comments, vs.head, cursor) == to
      && VariantsAgree(comments, vs.tail, cursor, to, isComment)
  }

  /** The cursor ends where the claims say. */
  lemma {:induction false} CursorIsClaimed(comments: seq<string>, c: Content, handles: seq<GroupId>, s: Desk,
                                           isComment: string -> bool)
    requires Scoped(c, |handles|) && s.cursor <= |comments| && Agreeing(comments, c, s.cursor, isComment)
    ensures Written(comments, c, handles, s).1.cursor == ClaimedTo(comments, c, s.cursor)
    decreases c, 0
  {
    match c
    case Both(a, b) =>
      CursorIsClaimed(comments, a, handles, s, isComment);
      CursorIsClaimed(comments, b, handles, Written(comments, a, handles, s).1, isComment);
    case FreshGroup(b) => CursorIsClaimed(comments, b, handles, s.(next := s.next + 1), isComment);
    case WithHandle(b) => CursorIsClaimed(comments, b, handles + [s.next], s.(next := s.next + 1), isComment);
    case GroupOn(_, b) => CursorIsClaimed(comments, b, handles, s, isComment);
    case Indent(b) => CursorIsClaimed(comments, b, handles, s, isComment);
    case AlignTo(_, b) => CursorIsClaimed(comments, b, handles, s, isComment);
    case IndentIf(_, b) => CursorIsClaimed(comments, b, handles, s, isComment);
    case OnlyIf(_, _, b) => CursorIsClaimed(comments, b, handles, s, isComment);
    case Filled(_, es) => EntriesClaimed(comments, es, handles, s, isComment);
    case Fitting(vs) =>
      if vs.Contents? {
        VariantsClaimed(comments, vs, handles, s.cursor, ClaimedTo(comments, c, s.cursor), s, isComment);
      }
    case _ =>
  }

  lemma {:induction false} EntriesClaimed(comments: seq<string>, es: Contents, handles: seq<GroupId>, s: Desk,
                                          isComment: string -> bool)
    requires AllScoped(es, |handles|) && s.cursor <= |comments| && EntriesAgree(comments, es, s.cursor, isComment)
    ensures WrittenEntries(comments, es, handles, s).1.cursor == EntriesTo(comments, es, s.cursor)
    decreases es, 0
  {
    hide Scoped, Written, Agreeing, ClaimedTo;
    if es.Contents? {
      CursorIsClaimed(comments, es.head, handles, s, isComment);
      EntriesClaimed(comments, es.tail, handles, Written(comments, es.head, handles, s).1, isComment);
    }
  }

  lemma {:induction false} VariantsClaimed(comments: seq<string>, vs: Contents, handles: seq<GroupId>, entry: nat,
                                           to: nat, s: Desk, isComment: string -> bool)
    requires vs.Contents? && AllScoped(vs, |handles|) && entry <= s.cursor <= |comments|
    requires VariantsAgree(comments, vs, entry, to, isComment)
    ensures WrittenVariants(comments, vs, handles, entry, s).1.cursor == to
    decreases vs, 0
  {
    hide Scoped, Written, Agreeing, ClaimedTo;
    var from := s.(cursor := entry);
    CursorIsClaimed(comments, vs.head, handles, from, isComment);
    if vs.tail.Contents? {
      VariantsClaimed(comments, vs.tail, handles, entry, to, Written(comments, vs.head, handles, from).1, isComment);
    }
  }

  lemma {:induction false} RunSelects(run: seq<string>, trailing: bool, ts: seq<string>)
    requires IsSelection(RunDoc(run, trailing), ts)
    ensures ts == run
  {
    if run != [] {
      var k :| 0 <= k <= |ts| && IsSelection(CommentDoc(trailing, run[0]), ts[..k])
        && IsSelection(RunDoc(run[1..], trailing), ts[k..]);
      RunSelects(run[1..], trailing, ts[k..]);
      CommentSelects(trailing, run[0], ts[..k]);
      assert ts == ts[..k] + ts[k..];
    }
  }

  lemma CommentSelects(trailing: bool, text: string, ts: seq<string>)
    requires IsSelection(CommentDoc(trailing, text), ts)
    ensures ts == [text]
  {
    if trailing {
      var inner := Cat(Leaf(Space), Leaf(Text(text)));
      assert Stream(Leaf(Space)) == [Plain(Space)] && Stream(Leaf(Text(text))) == [Plain(Text(text))];
      var both := [Plain(Space)] + [Plain(Text(text))];
      assert Stream(inner) == both;
      assert both[1..] == [Plain(Text(text))] && both[1..][1..] == [];
      assert SuffixTexts(both[1..][1..]) == [];
      assert SuffixTexts(both[1..]) == [text];
      assert SuffixTexts(both) == [text];
    }
  }

  /** Whatever is selected from what was written, the comments in it are those claimed, in order. */
  lemma {:induction false} CommentsOnce(comments: seq<string>, c: Content, handles: seq<GroupId>, s: Desk,
                                        isComment: string -> bool, ts: seq<string>)
    requires Scoped(c, |handles|) && s.cursor <= |comments| && Agreeing(comments, c, s.cursor, isComment)
    requires forall i :: 0 <= i < |comments| ==> isComment(comments[i])
    requires IsSelection(Written(comments, c, handles, s).0, ts)
    ensures Remarks(ts, isComment) == comments[s.cursor..ClaimedTo(comments, c, s.cursor)]
    decreases c, 0
  {
    match c
    case Both(a, b) => BothOnce(comments, a, b, handles, s, isComment, ts);
    case Piece(atom) => PieceOnce(atom, isComment, ts);
    case Claim(count, trailing) =>
      var run := comments[s.cursor..Reach(comments, s.cursor, count)];
      RunSelects(run, trailing, ts);
      AllRemarks(run, isComment);
    case FreshGroup(b) => CommentsOnce(comments, b, handles, s.(next := s.next + 1), isComment, ts);
    case WithHandle(b) => CommentsOnce(comments, b, handles + [s.next], s.(next := s.next + 1), isComment, ts);
    case GroupOn(_, b) => CommentsOnce(comments, b, handles, s, isComment, ts);
    case Indent(b) => CommentsOnce(comments, b, handles, s, isComment, ts);
    case AlignTo(_, b) => CommentsOnce(comments, b, handles, s, isComment, ts);
    case IndentIf(_, b) => CommentsOnce(comments, b, handles, s, isComment, ts);
    case OnlyIf(_, _, b) =>
      if ts != [] {
        CommentsOnce(comments, b, handles, s, isComment, ts);
      }
    case Filled(_, es) => EntriesOnce(comments, es, handles, s, isComment, ts);
    case Fitting(vs) =>
      if vs.Contents? {
        VariantsOnce(comments, vs, handles, s.cursor, ClaimedTo(comments, c, s.cursor), s, isComment, ts);
      }
    case _ =>
  }

  lemma PieceOnce(atom: Atom, isComment: string -> bool, ts: seq<string>)
    requires IsSelection(Leaf(atom), ts)
    requires atom.Token? || atom.Text? ==> !isComment(atom.content)
    ensures Remarks(ts, isComment) == []
  {
    if ts != [] {
      assert ts[1..] == [];
    }
  }

  /** Two stretches of comments one after the other. */
  lemma Joined(comments: seq<string>, i: nat, j: nat, k: nat)
    requires i <= j <= k <= |comments|
    ensures comments[i..j] + comments[j..k] == comments[i..k]
  {
  }

  lemma {:induction false} BothOnce(comments: seq<string>, a: Content, b: Content, handles: seq<GroupId>, s: Desk,
                                    isComment: string -> bool, ts: seq<string>)
    requires Scoped(Both(a, b), |handles|) && s.cursor <= |comments|
             && Agreeing(comments, Both(a, b), s.cursor, isComment)
    requires forall i :: 0 <= i < |comments| ==> isComment(comments[i])
    requires IsSelection(Written(comments, Both(a, b), handles, s).0, ts)
    ensures Remarks(ts, isComment) == comments[s.cursor..ClaimedTo(comments, Both(a, b), s.cursor)]
    decreases Both(a, b), 0, 0
  {
    var (x, s1) := Written(comments, a, handles, s);
    var (y, s2) := Written(comments, b, handles, s1);
    var k :| 0 <= k <= |ts| && IsSelection(x, ts[..k]) && IsSelection(y, ts[k..]);
    hide IsSelection, Remarks;
    CursorIsClaimed(comments, a, handles, s, isComment);
    CommentsOnce(comments, a, handles, s, isComment, ts[..k]);
    CommentsOnce(comments, b, handles, s1, isComment, ts[k..]);
    RemarksCat(ts[..k], ts[k..], isComment);
    assert ts == ts[..k] + ts[k..];
    Joined(comments, s.cursor, s1.cursor, ClaimedTo(comments, b, s1.cursor));
  }

  lemma {:induction false} EntriesOnce(comments: seq<string>, es: Contents, handles: seq<GroupId>, s: Desk,
                                       isComment: string -> bool, ts: seq<string>)
    requires AllScoped(es, |handles|) && s.cursor <= |comments| && EntriesAgree(comments, es, s.cursor, isComment)
    requires forall i :: 0 <= i < |comments| ==> isComment(comments[i])
    requires IsSelectionOfAll(WrittenEntries(comments, es, handles, s).0, ts)
    ensures Remarks(ts, isComment) == comments[s.cursor..EntriesTo(comments, es, s.cursor)]
    decreases es, 0
  {
    hide Written, Agreeing, ClaimedTo, Scoped, IsSelection;
    if es.Contents? {
      var (x, s1) := Written(comments, es.head, handles, s);
      var (xs, s2) := WrittenEntries(comments, es.tail, handles, s1);
      var k :| 0 <= k <= |ts| && IsSelection(x, ts[..k]) && IsSelectionOfAll(xs, ts[k..]);
      CursorIsClaimed(comments, es.head, handles, s, isComment);
      CommentsOnce(comments, es.head, handles, s, isComment, ts[..k]);
      EntriesOnce(comments, es.tail, handles, s1, isComment, ts[k..]);
      RemarksCat(ts[..k], ts[k..], isComment);
      assert ts == ts[..k] + ts[k..];
      Joined(comments, s.cursor, s1.cursor, EntriesTo(comments, es.tail, s1.cursor));
    }
  }

  lemma {:induction false} VariantsOnce(comments: seq<string>, vs: Contents, handles: seq<GroupId>, entry: nat,
                                        to: nat, s: Desk, isComment: string -> bool, ts: seq<string>)
    requires AllScoped(vs, |handles|) && entry <= s.cursor <= |comments| && entry <= to <= |comments|
    requires VariantsAgree(comments, vs, entry, to, isComment)
    requires forall i :: 0 <= i < |comments| ==> isComment(comments[i])
    requires IsSelectionOfOne(WrittenVariants(comments, vs, handles, entry, s).0, ts)
    ensures Remarks(ts, isComment) == comments[entry..to]
    decreases vs, 0
  {
    hide Written, Agreeing, ClaimedTo, Scoped, IsSelection, Remarks;
    if vs.Contents? {
      var from := s.(cursor := entry);
      var (x, s1) := Written(comments, vs.head, handles, from);
      if IsSelection(x, ts) {
        CommentsOnce(comments, vs.head, handles, from, isComment, ts);
      } else {
        VariantsOnce(comments, vs.tail, handles, entry, to, s1, isComment, ts);
      }
    }
  }

  /** A whole run: whichever variants the printer takes and whatever was rolled back while writing, each
      comment the emitters claimed is among the printed texts exactly once and in source order. */
  lemma EachCommentPrintsOnce(o: Layout.Options, comments: seq<string>, c: Content, isComment: string -> bool)
    requires Scoped(c, 0) && Agreeing(comments, c, 0, isComment)
    requires forall i :: 0 <= i < |comments| ==> isComment(comments[i])
    ensures var d := DocOf(comments, c);
            Remarks(Said(Selected(o, d, Printer.Start(d))), isComment) == comments[..ClaimedTo(comments, c, 0)]
  {
    hide Scoped, Agreeing, Written, Selected, Said, IsSelection, Remarks, ClaimedTo, Printer.Start;
    var d := DocOf(comments, c);
    SelectedIsSelection(o, d, Printer.Start(d));
    CommentsOnce(comments, c, [], Desk(0, 0), isComment, Said(Selected(o, d, Printer.Start(d))));
  }
}
