/** What the parser returns is canonical: printing is lossless on every parsed program. */
module ParsedForm {
  import opened Wrappers
  import opened LuaSyntax
  import opened Grammar
  import opened CanonicalForm

  // ----- types -----

  predicate TypeEnds(t: Type, k: Tokens) { k.Tok? ==> TypeSealed(t, k.head) }

  predicate EdgeEnds(t: Type, k: Tokens) { k.Tok? ==> TypeEdgeSealed(t, k.head) }

  lemma {:induction false} TypeParsed(ts: Tokens)
    requires ParseType(ts).Ok?
    ensures CanonicalType(ParseType(ts).value) && TypeEnds(ParseType(ts).value, ParseType(ts).rest)
    decreases Size(ts), 4
  {
    hide ParseIntersection, ParseUnionTail, Size;
    var first := ParseIntersection(ts);
    IntersectionParsed(ts);
    if AtSign(first.rest, Pipe) {
      UnionTailParsed(first.rest);
      var more := ParseUnionTail(first.rest);
      ListEnds(first.value, more.value, more.rest);
    }
  }

  /** `types` are union members, the last closed against what follows. */
  predicate MembersEnd(types: Types, k: Tokens) {
    && types.MoreTypes? && CanonicalTypes(types)
    && (k.Tok? ==> TypesEdgeSealed(types, k.head))
  }

  lemma ListEnds(t: Type, types: Types, k: Tokens)
    requires CanonicalType(t) && MembersEnd(types, k)
    ensures MembersEnd(MoreTypes(t, types), k)
  {
    hide CanonicalType, TypeEdgeSealed;
  }

  lemma ListStops(t: Type, k: Tokens)
    requires CanonicalType(t) && EdgeEnds(t, k)
    ensures MembersEnd(MoreTypes(t, NoTypes), k)
  {
    hide CanonicalType, TypeEdgeSealed;
    assert CanonicalTypes(NoTypes);
  }

  lemma {:induction false} UnionTailParsed(ts: Tokens)
    requires AtSign(ts, Pipe) && ParseUnionTail(ts).Ok?
    ensures MembersEnd(ParseUnionTail(ts).value, ParseUnionTail(ts).rest) && UnionMembers(ParseUnionTail(ts).value)
    ensures var k := ParseUnionTail(ts).rest; k.Tok? ==> k.head !in [Sign(Question), Sign(Ampersand), Sign(Pipe)]
    decreases Size(ts)
  {
    hide ParseIntersection, Size;
    var next := ParseIntersection(ts.tail);
    IntersectionParsed(ts.tail);
    if AtSign(next.rest, Pipe) {
      UnionTailParsed(next.rest);
      var more := ParseUnionTail(next.rest);
      ListEnds(next.value, more.value, more.rest);
    } else {
      ListStops(next.value, next.rest);
    }
  }

  lemma {:induction false} IntersectionParsed(ts: Tokens)
    requires ParseIntersection(ts).Ok?
    ensures var r := ParseIntersection(ts);
            CanonicalType(r.value) && !r.value.Union? && EdgeEnds(r.value, r.rest)
            && !AtSign(r.rest, Question) && !AtSign(r.rest, Ampersand)
    decreases Size(ts), 3
  {
    hide ParsePostfixType, ParseIntersectionTail, Size;
    var first := ParsePostfixType(ts);
    PostfixParsed(ts);
    if AtSign(first.rest, Ampersand) {
      IntersectionTailParsed(first.rest);
      var more := ParseIntersectionTail(first.rest);
      ListEnds(first.value, more.value, more.rest);
    }
  }

  lemma {:induction false} IntersectionTailParsed(ts: Tokens)
    requires AtSign(ts, Ampersand) && ParseIntersectionTail(ts).Ok?
    ensures var r := ParseIntersectionTail(ts);
            MembersEnd(r.value, r.rest) && IntersectionMembers(r.value)
            && !AtSign(r.rest, Question) && !AtSign(r.rest, Ampersand)
    decreases Size(ts)
  {
    hide ParsePostfixType, Size;
    var next := ParsePostfixType(ts.tail);
    PostfixParsed(ts.tail);
    if AtSign(next.rest, Ampersand) {
      IntersectionTailParsed(next.rest);
      var more := ParseIntersectionTail(next.rest);
      ListEnds(next.value, more.value, more.rest);
    } else {
      ListStops(next.value, next.rest);
    }
  }

  lemma {:induction false} PostfixParsed(ts: Tokens)
    requires ParsePostfixType(ts).Ok?
    ensures var r := ParsePostfixType(ts);
            CanonicalType(r.value) && PostfixType(r.value) && EdgeEnds(r.value, r.rest) && !AtSign(r.rest, Question)
    decreases Size(ts), 2
  {
    hide ParsePrimaryType, Size, ParseQuestions;
    PrimaryTypeParsed(ts);
    QuestionsParsed(ParsePrimaryType(ts).value, ParsePrimaryType(ts).rest);
  }

  lemma {:induction false} QuestionsParsed(t: Type, ts: Tokens)
    requires CanonicalType(t) && PostfixType(t) && EdgeEnds(t, ts)
    ensures var r := ParseQuestions(t, ts);
            CanonicalType(r.value) && PostfixType(r.value) && EdgeEnds(r.value, r.rest) && !AtSign(r.rest, Question)
    decreases ts
  {
    hide Size;
    if AtSign(ts, Question) {
      QuestionsParsed(Optional(t), ts.tail);
    }
  }

  lemma {:induction false} PrimaryTypeParsed(ts: Tokens)
    requires ParsePrimaryType(ts).Ok?
    ensures var r := ParsePrimaryType(ts);
            CanonicalType(r.value) && PrimaryType(r.value) && EdgeEnds(r.value, r.rest)
    decreases Size(ts), 1
  {
    hide ParseTypeArgs, ParseType, Size;
    if AtName(ts) {
      if NextSign(ts, Less) {
        assert Size(ts.tail.tail) < Size(ts.tail);
        TypeArgsParsed(ts.tail.tail);
      }
    } else {
      TypeParsed(ts.tail);
    }
  }

  lemma {:induction false} TypeArgsParsed(ts: Tokens)
    requires ParseTypeArgs(ts).Ok?
    ensures CanonicalTypes(ParseTypeArgs(ts).value)
    decreases Size(ts), 5
  {
    hide ParseType, Size;
    if !(AtSign(ts, Greater) || AtSign(ts, ShiftRight) || AtSign(ts, GreaterEqual)) {
      var first := ParseType(ts);
      TypeParsed(ts);
      if AtSign(first.rest, Comma) {
        TypeArgsParsed(first.rest.tail);
      }
    }
  }

  // ----- expressions -----

  predicate Ends(v: Version, e: Expr, k: Tokens) { k.Tok? ==> Sealed(v, e, k.head) }

  lemma {:induction false} ExprParsed(v: Version, min: nat, ts: Tokens)
    requires ParseExpr(v, min, ts).Ok?
    ensures var r := ParseExpr(v, min, ts);
            Canonical(v, false, r.value) && Spine(r.value, min) && Ends(v, r.value, r.rest) && !Binds(v, min, r.rest)
    decreases Size(ts), 5
  {
    hide ParsePrefix, ParseOperators, Canonical, Sealed, TokenBinds, Size;
    var left := ParsePrefix(v, ts);
    PrefixParsed(v, ts);
    OperatorsParsed(v, left.value, min, left.rest);
  }

  lemma {:induction false} OperatorsParsed(v: Version, left: Expr, min: nat, ts: Tokens)
    requires Canonical(v, false, left) && Spine(left, min) && Ends(v, left, ts)
    requires ParseOperators(v, left, min, ts).Ok?
    ensures var r := ParseOperators(v, left, min, ts);
            Canonical(v, false, r.value) && Spine(r.value, min) && Ends(v, r.value, r.rest) && !Binds(v, min, r.rest)
    decreases Size(ts), 0
  {
    hide ParseExpr, Canonical, Sealed, TokenBinds, BinOpOf, BinToken, RightMinimum, Precedence;
    if Binds(v, min, ts) {
      var op := BindingOperator(v, min, ts.head);
      var right := ParseExpr(v, RightMinimum(op), ts.tail);
      ExprParsed(v, RightMinimum(op), ts.tail);
      JoinedCanonical(v, left, op, right.value, right.rest);
      OperatorsParsed(v, Binary(left, op, right.value), min, right.rest);
    }
  }

  function BindingOperator(v: Version, min: nat, t: Token): (op: BinOp)
    requires TokenBinds(v, min, t)
    ensures BinOpOf(t) == Some(op) && BinToken(op) == t
    ensures min <= Precedence(op) && (Bitwise(op) ==> v.HasBitwise())
  {
    BinOpOf(t).value
  }

  lemma JoinedCanonical(v: Version, left: Expr, op: BinOp, right: Expr, k: Tokens)
    requires Canonical(v, false, left) && Canonical(v, false, right) && (Bitwise(op) ==> v.HasBitwise())
    requires Sealed(v, left, BinToken(op)) && Spine(right, RightMinimum(op))
    requires Ends(v, right, k) && !Binds(v, RightMinimum(op), k)
    ensures Canonical(v, false, Binary(left, op, right)) && Ends(v, Binary(left, op, right), k)
  {
    hide TokenBinds, BinToken, Precedence;
  }

  lemma {:induction false} PrefixParsed(v: Version, ts: Tokens)
    requires ParsePrefix(v, ts).Ok?
    ensures var r := ParsePrefix(v, ts); Canonical(v, false, r.value) && !r.value.Binary? && Ends(v, r.value, r.rest)
    decreases Size(ts), 4
  {
    hide ParseExpr, ParsePrimary, ParseAssertion, TokenBinds;
    if ts.Tok? && UnOpOf(ts.head).Some? {
      ExprParsed(v, UNARY_PRECEDENCE, ts.tail);
    } else {
      var primary := ParsePrimary(v, ts);
      PrimaryParsed(v, ts);
      AssertionParsed(v, primary.value, primary.rest);
    }
  }

  predicate SimpleEnds(v: Version, e: Expr, k: Tokens) {
    && Canonical(v, false, e) && !e.Binary? && !e.Unary? && !e.Cast?
    && (k.Tok? ==> SimpleSealed(v, e, k.head))
  }

  lemma AssertionParsed(v: Version, e: Expr, ts: Tokens)
    requires SimpleEnds(v, e, ts) && ParseAssertion(v, e, ts).Ok?
    ensures var r := ParseAssertion(v, e, ts);
    Canonical(v, false, r.value) && !r.value.Binary? && Ends(v, r.value, r.rest)
  {
    hide ParseType, Size, TypeSealed, SimpleSealed;
    if v.Luau? && AtSign(ts, DoubleColon) {
      TypeParsed(ts.tail);
      var r := ParseType(ts.tail);
      CastCanonical(v, e, r.value);
    }
  }

  lemma CastCanonical(v: Version, e: Expr, t: Type)
    requires v.Luau? && CanonicalType(t) && SimpleEnds(v, e, Tok(Sign(DoubleColon), Eof))
    ensures Canonical(v, false, Cast(e, t))
  {
    hide CanonicalType, SimpleSealed;
  }

  lemma {:induction false} PrimaryParsed(v: Version, ts: Tokens)
    requires ParsePrimary(v, ts).Ok?
    ensures SimpleEnds(v, ParsePrimary(v, ts).value, ParsePrimary(v, ts).rest)
    decreases Size(ts), 3
  {
    hide ParseSuffixes, ParseHoles, ParseWordPrimary, ParseFields, ParseExpr, CanonicalFields, CanonicalHoles, Sealed;
    if ts.head.Identifier? {
      SuffixesParsed(v, Name(ts.head.name), ts.tail);
    } else if ts.head.InterpBegin? {
      HolesParsed(v, ts.tail);
    } else if ts.head.Word? {
      WordPrimaryParsed(v, ts.head.keyword, ts);
    } else if ts.head == Sign(LeftBrace) {
      FieldsParsed(v, ts.tail);
    } else if ts.head == Sign(LeftParen) {
      var inner := ParseExpr(v, 0, ts.tail);
      ExprParsed(v, 0, ts.tail);
      SuffixesParsed(v, Paren(inner.value), inner.rest.tail);
    }
  }

  lemma {:induction false} WordPrimaryParsed(v: Version, w: Keyword, ts: Tokens)
    requires ts.Tok? && ts.head == Word(w) && ParseWordPrimary(v, w, ts).Ok?
    ensures SimpleEnds(v, ParseWordPrimary(v, w, ts).value, ParseWordPrimary(v, w, ts).rest)
    decreases Size(ts), 2
  {
    hide ParseBody, ParseIfExpr;
    if w.KwFunction? {
      BodyParsed(v, ts.tail);
    } else if w.KwIf? {
      IfExprParsed(v, ts.tail);
    }
  }

  lemma {:induction false} IfExprParsed(v: Version, ts: Tokens)
    requires v.Luau? && ParseIfExpr(v, ts).Ok?
    ensures SimpleEnds(v, ParseIfExpr(v, ts).value, ParseIfExpr(v, ts).rest)
    decreases Size(ts), 6
  {
    hide ParseExpr, ParseArms, Size, Canonical, CanonicalArms, Sealed, ArmsSealed, SimpleEnds;
    var condition := ParseExpr(v, 0, ts);
    ExprParsed(v, 0, ts);
    var thenExpr := ParseExpr(v, 0, condition.rest.tail);
    ExprParsed(v, 0, condition.rest.tail);
    ArmsParsed(v, thenExpr.rest);
    var arms := ParseArms(v, thenExpr.rest);
    IfExprEnds(v, condition.value, thenExpr.value, arms.value, arms.rest);
  }

  lemma IfExprEnds(v: Version, condition: Expr, thenExpr: Expr, arms: ExprArms, k: Tokens)
    requires v.Luau? && Canonical(v, false, condition) && Canonical(v, false, thenExpr) && CanonicalArms(v, false, arms)
    requires k.Tok? ==> ArmsSealed(v, arms, k.head)
    ensures SimpleEnds(v, IfExpr(condition, thenExpr, arms), k)
  {
    hide CanonicalArms, ArmsSealed;
  }

  lemma {:induction false} ArmsParsed(v: Version, ts: Tokens)
    requires ParseArms(v, ts).Ok?
    ensures var r := ParseArms(v, ts);
    CanonicalArms(v, false, r.value) && (r.rest.Tok? ==> ArmsSealed(v, r.value, r.rest.head))
    decreases Size(ts), 0
  {
    hide ParseExpr, Size, Canonical, Sealed, TokenBinds;
    ExprParsed(v, 0, ts.tail);
    if AtWord(ts, KwElseIf) {
      var condition := ParseExpr(v, 0, ts.tail);
      ExprParsed(v, 0, condition.rest.tail);
      ArmsParsed(v, ParseExpr(v, 0, condition.rest.tail).rest);
    }
  }

  lemma {:induction false} HolesParsed(v: Version, ts: Tokens)
    requires ParseHoles(v, ts).Ok?
    ensures CanonicalHoles(v, false, ParseHoles(v, ts).value)
    decreases Size(ts), 6
  {
    hide ParseExpr, Canonical, Sealed;
    var expr := ParseExpr(v, 0, ts);
    ExprParsed(v, 0, ts);
    if expr.rest.head.InterpMid? {
      HolesParsed(v, expr.rest.tail);
    }
  }

  lemma {:induction false} SuffixesParsed(v: Version, e: Expr, ts: Tokens)
    requires Canonical(v, false, e) && IsPrefix(e) && ParseSuffixes(v, e, ts).Ok?
    ensures SimpleEnds(v, ParseSuffixes(v, e, ts).value, ParseSuffixes(v, e, ts).rest)
    decreases Size(ts), 1
  {
    hide ParseExpr, ParseArgs, Size, Canonical, CanonicalArgs, SimpleEnds, IsPrefix;
    if AtSign(ts, Dot) {
      SuffixIsCanonical(v, e, FieldAccess(e, ts.tail.head.name));
      SuffixesParsed(v, FieldAccess(e, ts.tail.head.name), ts.tail.tail);
    } else if AtSign(ts, LeftBracket) {
      var index := ParseExpr(v, 0, ts.tail);
      ExprParsed(v, 0, ts.tail);
      SuffixIsCanonical(v, e, Index(e, index.value));
      SuffixesParsed(v, Index(e, index.value), index.rest.tail);
    } else if AtSign(ts, Colon) {
      var args := ParseArgs(v, ts.tail.tail);
      ArgsParsed(v, ts.tail.tail);
      SuffixIsCanonical(v, e, Call(e, Some(ts.tail.head.name), args.value));
      SuffixesParsed(v, Call(e, Some(ts.tail.head.name), args.value), args.rest);
    } else if ts.Tok? && StartsArgs(ts.head) {
      var args := ParseArgs(v, ts);
      ArgsParsed(v, ts);
      SuffixIsCanonical(v, e, Call(e, None, args.value));
      SuffixesParsed(v, Call(e, None, args.value), args.rest);
    } else {
      PrefixEnds(v, e, ts);
    }
  }

  lemma SuffixIsCanonical(v: Version, e: Expr, s: Expr)
    requires Canonical(v, false, e) && IsPrefix(e)
    requires s.FieldAccess? || (s.Index? && Canonical(v, false, s.index))
             || (s.Call? && CanonicalArgs(v, false, s.args))
    requires if s.Call? then s.callee == e else s.prefix == e
    ensures Canonical(v, false, s) && IsPrefix(s)
  {
    hide CanonicalArgs;
  }

  lemma PrefixEnds(v: Version, e: Expr, k: Tokens)
    requires Canonical(v, false, e) && IsPrefix(e)
    requires !AtSign(k, Dot) && !AtSign(k, LeftBracket) && !AtSign(k, Colon) && !(k.Tok? && StartsArgs(k.head))
    ensures SimpleEnds(v, e, k)
  {
    hide Canonical;
  }

  lemma {:induction false} ArgsParsed(v: Version, ts: Tokens)
    requires ParseArgs(v, ts).Ok?
    ensures CanonicalArgs(v, false, ParseArgs(v, ts).value)
    decreases Size(ts), 0
  {
    hide ParseExprs, ParseFields, Size;
    if AtSign(ts, LeftParen) {
      if !AtSign(ts.tail, RightParen) {
        ExprsParsed(v, ts.tail);
      }
    } else if AtSign(ts, LeftBrace) {
      FieldsParsed(v, ts.tail);
    }
  }

  lemma {:induction false} ExprsParsed(v: Version, ts: Tokens)
    requires ParseExprs(v, ts).Ok?
    ensures CanonicalExprs(v, false, ParseExprs(v, ts).value)
    decreases Size(ts), 6
  {
    hide ParseExpr, Size, Canonical, Sealed;
    var first := ParseExpr(v, 0, ts);
    ExprParsed(v, 0, ts);
    if AtSign(first.rest, Comma) {
      ExprsParsed(v, first.rest.tail);
    }
  }

  lemma {:induction false} FieldsParsed(v: Version, ts: Tokens)
    requires ParseFields(v, ts).Ok?
    ensures CanonicalFields(v, false, ParseFields(v, ts).value)
    decreases Size(ts), 7
  {
    hide ParseField, Size, CanonicalField;
    if !AtSign(ts, RightBrace) {
      var field := ParseField(v, ts);
      FieldParsed(v, ts);
      if AtSign(field.rest, Comma) || AtSign(field.rest, Semicolon) {
        FieldsParsed(v, field.rest.tail);
      }
    }
  }

  lemma {:induction false} FieldParsed(v: Version, ts: Tokens)
    requires ParseField(v, ts).Ok?
    ensures CanonicalField(v, false, ParseField(v, ts).value)
    decreases Size(ts), 6
  {
    hide ParseExpr, Size, Canonical, Sealed;
    if AtSign(ts, LeftBracket) {
      var key := ParseExpr(v, 0, ts.tail);
      ExprParsed(v, 0, ts.tail);
      ExprParsed(v, 0, key.rest.tail.tail);
    } else if AtName(ts) && NextSign(ts, Equal) {
      ExprParsed(v, 0, ts.tail.tail);
    } else {
      ExprParsed(v, 0, ts);
    }
  }

  // ----- statements -----

  lemma {:induction false} BodyParsed(v: Version, ts: Tokens)
    requires ParseBody(v, ts).Ok?
    ensures CanonicalBody(v, false, ParseBody(v, ts).value)
    decreases Size(ts), 0
  {
    hide ParseBlock, ParseParams, Size, CanonicalBlock;
    var params := if AtSign(ts.tail, RightParen) then Ok((NoNames, false), ts.tail.tail) else ParseParams(ts.tail);
    BlockParsed(v, params.rest);
  }

  lemma {:induction false} BlockParsed(v: Version, ts: Tokens)
    requires ParseBlock(v, ts).Ok?
    ensures CanonicalBlock(v, false, ParseBlock(v, ts).value)
    decreases Size(ts), 9
  {
    hide ParseStmts, Size, CanonicalBlock;
    StmtsParsed(v, false, ts);
  }

  lemma {:induction false} StmtsParsed(v: Version, separable: bool, ts: Tokens)
    requires ParseStmts(v, separable, ts).Ok?
    ensures CanonicalBlock(v, false, ParseStmts(v, separable, ts).value)
    decreases Size(ts), 8
  {
    hide ParseStmt, ParseReturn, Size, CanonicalStmt;
    if AtSign(ts, Semicolon) {
      if v.HasEmptyStatement() {
        StmtsParsed(v, separable, ts.tail);
        PrependCanonical(v, Empty, ParseStmts(v, separable, ts.tail).value);
      } else {
        StmtsParsed(v, false, ts.tail);
      }
    } else if AtWord(ts, KwReturn) {
      ReturnParsed(v, ts.tail);
    } else if !(AtWord(ts, KwBreak) && v.BreakIsLast()) && !BlockEnd(ts)
              && !(v.Luau? && AtToken(ts, Identifier("continue"))
                   && (BlockEnd(ts.tail) || AtSign(ts.tail, Semicolon))) {
      var stmt := ParseStmt(v, ts);
      StmtParsed(v, ts);
      StmtsParsed(v, true, stmt.rest);
      PrependCanonical(v, stmt.value, ParseStmts(v, true, stmt.rest).value);
    }
  }

  lemma EmptyIsCanonical(v: Version, s: Stmt)
    requires s.Empty? && v.HasEmptyStatement()
    ensures CanonicalStmt(v, false, s)
  {
  }

  lemma PrependCanonical(v: Version, s: Stmt, b: Block)
    requires CanonicalBlock(v, false, b) && (CanonicalStmt(v, false, s) || (s.Empty? && v.HasEmptyStatement()))
    ensures CanonicalBlock(v, false, Prepend(s, b))
  {
    hide CanonicalStmt, CanonicalExprs;
    if s.Empty? && v.HasEmptyStatement() { EmptyIsCanonical(v, s); }
    assert CanonicalStmts(v, false, b.stmts, s.Empty?);
  }

  lemma {:induction false} ReturnParsed(v: Version, ts: Tokens)
    requires ParseReturn(v, ts).Ok?
    ensures CanonicalBlock(v, false, ParseReturn(v, ts).value)
    decreases Size(ts), 7
  {
    hide ParseExprs, Size, CanonicalExprs;
    if !BlockEnd(ts) && !AtSign(ts, Semicolon) {
      ExprsParsed(v, ts);
    } else {
      NoExprsCanonical(v);
    }
  }

  lemma NoExprsCanonical(v: Version)
    ensures CanonicalExprs(v, false, NoExprs)
  {
  }

  lemma {:induction false} StmtParsed(v: Version, ts: Tokens)
    requires ParseStmt(v, ts).Ok?
    ensures CanonicalStmt(v, false, ParseStmt(v, ts).value)
    decreases Size(ts), 7
  {
    hide ParseWordStmt, ParseSimpleStmt, Size, Canonical, CanonicalExprs, CanonicalBlock;
    if ts.head.Word? {
      WordStmtParsed(v, ts.head.keyword, ts);
    } else if ts.head == Sign(LeftParen) || ts.head.Identifier? {
      SimpleStmtParsed(v, ts);
    }
  }

  lemma {:induction false} SimpleStmtParsed(v: Version, ts: Tokens)
    requires ParseSimpleStmt(v, ts).Ok?
    ensures CanonicalStmt(v, false, ParseSimpleStmt(v, ts).value)
    decreases Size(ts), 6
  {
    hide ParseExpr, ParseExprs, ParseTargets, Canonical, Sealed, TokenBinds, CompoundOpOf;
    var first := ParseExpr(v, 0, ts);
    ExprParsed(v, 0, ts);
    if v.Luau? && first.rest.Tok? && CompoundOpOf(first.rest.head).Some? {
      ExprParsed(v, 0, first.rest.tail);
    } else if AtSign(first.rest, Comma) || AtSign(first.rest, Equal) {
      TargetsParsed(v, first.rest);
      ExprsParsed(v, ParseTargets(v, first.rest).rest.tail);
    }
  }

  lemma {:induction false} TargetsParsed(v: Version, ts: Tokens)
    requires ParseTargets(v, ts).Ok?
    ensures CanonicalExprs(v, false, ParseTargets(v, ts).value)
    decreases Size(ts), 0
  {
    hide ParseExpr, Size, Canonical, Sealed;
    if AtSign(ts, Comma) {
      var next := ParseExpr(v, 0, ts.tail);
      ExprParsed(v, 0, ts.tail);
      TargetsParsed(v, next.rest);
    }
  }

  lemma {:induction false} WordStmtParsed(v: Version, w: Keyword, ts: Tokens)
    requires ts.Tok? && ts.head == Word(w) && ParseWordStmt(v, w, ts).Ok?
    ensures CanonicalStmt(v, false, ParseWordStmt(v, w, ts).value)
    decreases Size(ts), 1
  {
    hide ParseExpr, ParseBlock, ParseEnded, ParseLoopBody, ParseStmtArms, ParseNumericFor, ParseGenericFor,
      ParseFunctionDecl, ParseLocal, Canonical, CanonicalBlock, Sealed, TokenBinds;
    if w.KwDo? {
      EndedParsed(v, ts.tail);
    } else if w.KwWhile? {
      ExprParsed(v, 0, ts.tail);
      LoopBodyParsed(v, ParseExpr(v, 0, ts.tail).rest);
    } else if w.KwRepeat? {
      BlockParsed(v, ts.tail);
      ExprParsed(v, 0, ParseBlock(v, ts.tail).rest.tail);
    } else if w.KwIf? {
      var condition := ParseExpr(v, 0, ts.tail);
      ExprParsed(v, 0, ts.tail);
      BlockParsed(v, condition.rest.tail);
      StmtArmsParsed(v, ParseBlock(v, condition.rest.tail).rest);
    } else if w.KwFor? {
      if AtName(ts.tail) && NextSign(ts.tail, Equal) {
        NumericForParsed(v, ts.tail.head.name, ts.tail.tail.tail);
      } else {
        GenericForParsed(v, ts.tail);
      }
    } else if w.KwFunction? {
      FunctionDeclParsed(v, ts.tail);
    } else if w.KwLocal? {
      LocalParsed(v, ts.tail);
    }
  }

  lemma {:induction false} EndedParsed(v: Version, ts: Tokens)
    requires ParseEnded(v, ts).Ok?
    ensures CanonicalBlock(v, false, ParseEnded(v, ts).value)
    decreases Size(ts), 10
  {
    hide ParseBlock, Size, CanonicalBlock;
    BlockParsed(v, ts);
  }

  lemma {:induction false} LoopBodyParsed(v: Version, ts: Tokens)
    requires ParseLoopBody(v, ts).Ok?
    ensures CanonicalBlock(v, false, ParseLoopBody(v, ts).value)
    decreases Size(ts), 0
  {
    hide ParseEnded, Size, CanonicalBlock;
    EndedParsed(v, ts.tail);
  }

  lemma {:induction false} StmtArmsParsed(v: Version, ts: Tokens)
    requires ParseStmtArms(v, ts).Ok?
    ensures CanonicalStmtArms(v, false, ParseStmtArms(v, ts).value)
    decreases Size(ts), 0
  {
    hide ParseExpr, ParseBlock, ParseEnded, Size, Canonical, CanonicalBlock, Sealed;
    if AtWord(ts, KwElseIf) {
      var condition := ParseExpr(v, 0, ts.tail);
      ExprParsed(v, 0, ts.tail);
      BlockParsed(v, condition.rest.tail);
      StmtArmsParsed(v, ParseBlock(v, condition.rest.tail).rest);
    } else if AtWord(ts, KwElse) {
      EndedParsed(v, ts.tail);
    }
  }

  lemma {:induction false} NumericForParsed(v: Version, name: string, ts: Tokens)
    requires ParseNumericFor(v, name, ts).Ok?
    ensures CanonicalStmt(v, false, ParseNumericFor(v, name, ts).value)
    decreases Size(ts), 6
  {
    hide ParseExpr, ParseStep, ParseLoopBody, Size, Canonical, CanonicalBlock, Sealed;
    var start := ParseExpr(v, 0, ts);
    ExprParsed(v, 0, ts);
    var limit := ParseExpr(v, 0, start.rest.tail);
    ExprParsed(v, 0, start.rest.tail);
    StepParsed(v, limit.rest);
    LoopBodyParsed(v, ParseStep(v, limit.rest).rest);
  }

  lemma {:induction false} StepParsed(v: Version, ts: Tokens)
    requires ParseStep(v, ts).Ok?
    ensures CanonicalStep(v, false, ParseStep(v, ts).value)
    decreases Size(ts), 0
  {
    hide ParseExpr, Size, Canonical, Sealed;
    if AtSign(ts, Comma) {
      ExprParsed(v, 0, ts.tail);
    }
  }

  lemma {:induction false} GenericForParsed(v: Version, ts: Tokens)
    requires ParseGenericFor(v, ts).Ok?
    ensures CanonicalStmt(v, false, ParseGenericFor(v, ts).value)
    decreases Size(ts), 0
  {
    hide ParseNames, ParseExprs, ParseLoopBody, Size, CanonicalExprs, CanonicalBlock;
    var names := ParseNames(Comma, ts);
    ExprsParsed(v, names.rest.tail);
    LoopBodyParsed(v, ParseExprs(v, names.rest.tail).rest);
  }

  lemma {:induction false} FunctionDeclParsed(v: Version, ts: Tokens)
    requires ParseFunctionDecl(v, ts).Ok?
    ensures CanonicalStmt(v, false, ParseFunctionDecl(v, ts).value)
    decreases Size(ts), 1
  {
    hide ParseNames, ParseSelector, ParseBody, Size, CanonicalBody;
    var path := ParseNames(Dot, ts);
    var selector := ParseSelector(path.rest);
    BodyParsed(v, selector.rest);
    DeclCanonical(v, path.value, selector.value, ParseBody(v, selector.rest).value);
  }

  lemma DeclCanonical(v: Version, path: Names, selector: Option<string>, body: Body)
    requires path.MoreNames? && CanonicalBody(v, false, body)
    ensures CanonicalStmt(v, false, FunctionDecl(path, selector, body))
    ensures CanonicalStmt(v, false, LocalFunction(path.head, body))
  {
    hide CanonicalBody;
  }

  lemma {:induction false} LocalParsed(v: Version, ts: Tokens)
    requires ParseLocal(v, ts).Ok?
    ensures CanonicalStmt(v, false, ParseLocal(v, ts).value)
    decreases Size(ts), 1
  {
    hide ParseBindings, ParseBody, ParseExprs, Size, CanonicalStmt, CanonicalBody, CanonicalExprs, CanonicalBindings,
         Closers;
    if AtWord(ts, KwFunction) {
      BodyParsed(v, ts.tail.tail);
      DeclCanonical(v, MoreNames(ts.tail.head.name, NoNames), None, ParseBody(v, ts.tail.tail).value);
    } else {
      var bindings := ParseBindings(v, ts);
      BindingsParsed(v, ts);
      if AtSign(bindings.rest, Equal) {
        ExprsParsed(v, bindings.rest.tail);
        LocalCanonical(v, bindings.value, ParseExprs(v, bindings.rest.tail).value);
      } else {
        NoExprsCanonical(v);
        LocalCanonical(v, bindings.value, NoExprs);
      }
    }
  }

  lemma LocalCanonical(v: Version, bindings: Bindings, values: Exprs)
    requires bindings.MoreBindings? && CanonicalBindings(v, bindings) && Closers(bindings) <= 1
             && CanonicalExprs(v, false, values)
    ensures CanonicalStmt(v, false, Local(bindings, values))
  {
    hide CanonicalExprs, CanonicalBindings, Closers;
  }

  lemma {:induction false} BindingsParsed(v: Version, ts: Tokens)
    requires ParseBindings(v, ts).Ok?
    ensures CanonicalBindings(v, ParseBindings(v, ts).value)
    decreases Size(ts)
  {
    hide Size;
    var first := ParseBinding(v, ts);
    if AtSign(first.rest, Comma) {
      BindingsParsed(v, first.rest.tail);
    }
  }

  /** Every program that parses is canonical, the guards apart. */
  lemma ParsedIsCanonical(v: Version, ts: Tokens)
    requires Parse(v, ts).Some?
    ensures CanonicalBlock(v, false, Parse(v, ts).value)
  {
    BlockParsed(v, ts);
  }
}
