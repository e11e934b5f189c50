/** Reading back the printed tokens of a canonical tree gives the tree. */
module RoundTrip {
  import opened Wrappers
  import opened LuaSyntax
  import opened Emission
  import opened Grammar
  import opened CanonicalForm
  import TypeRoundTrip

  /** The tokens after `e` leave it alone. */
  predicate Follows(v: Version, e: Expr, k: Tokens) {
    k.Tok? ==> Sealed(v, e, k.head) && !AtInstantiation(v, k)
  }

  predicate StopsAt(v: Version, k: Tokens) { k.Tok? ==> Stops(v, k.head) }

  /** The closing tokens the printer writes after whole expressions. */
  lemma ClosersAreNoSuffixes()
    ensures !StartsSuffix(Sign(RightParen)) && !StartsSuffix(Sign(RightBracket)) && !StartsSuffix(Sign(RightBrace))
    ensures !StartsSuffix(Sign(Comma)) && !StartsSuffix(Sign(Equal))
    ensures forall w :: !StartsSuffix(Word(w))
  {
  }

  lemma ClosersStop(v: Version)
    ensures Stops(v, Sign(RightParen)) && Stops(v, Sign(RightBracket)) && Stops(v, Sign(RightBrace))
    ensures Stops(v, Sign(Comma)) && Stops(v, Sign(Equal))
    ensures Stops(v, Word(KwThen)) && Stops(v, Word(KwElse)) && Stops(v, Word(KwElseIf)) && Stops(v, Word(KwDo))
    ensures Stops(v, Word(KwEnd)) && Stops(v, Word(KwUntil))
  {
    hide BinOpOf, StartsSuffix;
    ClosersAreNoOperators();
    ClosersAreNoSuffixes();
  }

  lemma StopFollows(v: Version, e: Expr, k: Tokens)
    requires StopsAt(v, k) && Canonical(v, v.HasEmptyStatement(), e)
    ensures Follows(v, e, k) && !Binds(v, 0, k)
  {
    if k.Tok? {
      StopSeals(v, v.HasEmptyStatement(), e, k.head);
    }
  }

  /** Printed at a place read at precedence `min`, `e` is what the operator loop then holds. */
  lemma {:induction false} ExprReads(v: Version, e: Expr, min: nat, k: Tokens)
    requires Canonical(v, v.HasEmptyStatement(), e) && Spine(e, min) && Follows(v, e, k)
    ensures ParseExpr(v, min, EmitExpr(e, k)) == ParseOperators(v, e, min, k)
    decreases e, 3
  {
    hide BinOpOf, BinToken, ParsePrefix, Size, EmitBody, EmitFields, EmitHoles, EmitArgs, EmitArms, EmitType,
         Precedence, SimpleSealed, TypeSealed, ParseExpr;
    match e
    case Binary(left, op, right) =>
      var rest := EmitExpr(right, k);
      ExprReads(v, left, min, Tok(BinToken(op), rest));
      ExprReads(v, right, RightMinimum(op), k);
      assert ParseOperators(v, right, RightMinimum(op), k) == Ok(right, k);
      BinTokensDistinct(op);
      OperatorStep(v, left, op, min, rest, right, k);
    case _ => PrefixStep(v, e, min, k);
  }

  lemma OperatorStep(v: Version, left: Expr, op: BinOp, min: nat, rest: Tokens, right: Expr, k: Tokens)
    requires BinOpOf(BinToken(op)) == Some(op) && min <= Precedence(op) && (Bitwise(op) ==> v.HasBitwise())
    requires ParseExpr(v, RightMinimum(op), rest) == Ok(right, k)
    ensures ParseOperators(v, left, min, Tok(BinToken(op), rest)) == ParseOperators(v, Binary(left, op, right), min, k)
  {
    hide ParseExpr, BinOpOf, BinToken, Precedence, RightMinimum, Bitwise, Size;
  }

  lemma {:induction false} PrefixStep(v: Version, e: Expr, min: nat, k: Tokens)
    requires Canonical(v, v.HasEmptyStatement(), e) && Follows(v, e, k) && !e.Binary?
    ensures ParseExpr(v, min, EmitExpr(e, k)) == ParseOperators(v, e, min, k)
    decreases e, 3, 0
  {
    hide ParsePrefix, ParseOperators, EmitExpr, Canonical, Sealed, Size;
    PrefixReads(v, e, k);
  }

  /** In a position that admits any operator, the whole of `e` and nothing else. */
  lemma {:induction false} WholeReads(v: Version, e: Expr, k: Tokens)
    requires Canonical(v, v.HasEmptyStatement(), e) && StopsAt(v, k)
    ensures ParseExpr(v, 0, EmitExpr(e, k)) == Ok(e, k)
    decreases e, 4
  {
    hide ParseExpr, EmitExpr, Canonical, Stops, Size, Sealed, TokenBinds;
    StopFollows(v, e, k);
    LoosestSpine(e);
    ExprReads(v, e, 0, k);
  }

  lemma LoosestSpine(e: Expr)
    ensures Spine(e, 0)
  {
  }

  lemma {:induction false} PrefixReads(v: Version, e: Expr, k: Tokens)
    requires Canonical(v, v.HasEmptyStatement(), e) && !e.Binary? && Follows(v, e, k)
    ensures ParsePrefix(v, EmitExpr(e, k)) == Ok(e, k)
    decreases e, 2
  {
    hide ParsePrefix, ParsePrimary, ParseExpr, ParseAssertion, SimpleSealed, BinOpOf, Size, EmitType, CanonicalType;
    if e.Unary? {
      ExprReads(v, e.operand, UNARY_PRECEDENCE, k);
      assert ParseOperators(v, e.operand, UNARY_PRECEDENCE, k) == Ok(e.operand, k);
      UnaryStep(v, e.unop, e.operand, k);
    } else if e.Cast? {
      var rest := Tok(Sign(DoubleColon), EmitType(e.annotation, k));
      PrimaryReads(v, e.expr, rest);
      TypeRoundTrip.TypeReads(e.annotation, k);
      NoUnaryStart(e.expr, rest);
      PrimaryStep(v, e.expr, EmitExpr(e.expr, rest), rest);
      CastStep(v, e.expr, e.annotation, k);
    } else {
      PrimaryReads(v, e, k);
      NoUnaryStart(e, k);
      PrimaryStep(v, e, EmitExpr(e, k), k);
      NoCastStep(v, e, k);
    }
  }

  lemma UnaryStep(v: Version, op: UnOp, operand: Expr, k: Tokens)
    requires ParseExpr(v, UNARY_PRECEDENCE, EmitExpr(operand, k)) == Ok(operand, k)
    ensures ParsePrefix(v, EmitExpr(Unary(op, operand), k)) == Ok(Unary(op, operand), k)
  {
    hide ParseExpr, ParsePrimary, Size;
    UnTokensDistinct(op);
  }

  lemma PrimaryStep(v: Version, e: Expr, ts: Tokens, k: Tokens)
    requires ts.Tok? && UnOpOf(ts.head).None? && ParsePrimary(v, ts) == Ok(e, k)
    ensures ParsePrefix(v, ts) == ParseAssertion(v, e, k)
  {
    hide ParseExpr, ParsePrimary, Size;
  }

  lemma CastStep(v: Version, e: Expr, annotation: Type, k: Tokens)
    requires v.Luau? && ParseType(EmitType(annotation, k)) == Ok(annotation, k)
    ensures ParseAssertion(v, e, Tok(Sign(DoubleColon), EmitType(annotation, k))) == Ok(Cast(e, annotation), k)
  {
    hide ParseType, EmitType, Size;
  }

  lemma NoCastStep(v: Version, e: Expr, k: Tokens)
    requires !(v.Luau? && AtSign(k, DoubleColon))
    ensures ParseAssertion(v, e, k) == Ok(e, k)
  {
  }

  predicate Simple(e: Expr) { !e.Binary? && !e.Unary? && !e.Cast? }

  lemma {:induction false} NoUnaryStart(e: Expr, k: Tokens)
    requires Simple(e) && (IsPrefix(e) ==> PrefixChain(e))
    ensures UnOpOf(EmitExpr(e, k).head).None?
  {
    if IsPrefix(e) {
      ChainStart(e, k);
    }
  }

  /** A suffix chain that stands on a name or a parenthesis. */
  predicate PrefixChain(e: Expr) {
    match e
    case Name(_) => true
    case Paren(_) => true
    case Index(prefix, _) => PrefixChain(prefix)
    case FieldAccess(prefix, _) => PrefixChain(prefix)
    case Call(callee, _, _) => PrefixChain(callee)
    case _ => false
  }

  lemma {:induction false} CanonicalChain(v: Version, e: Expr)
    requires Canonical(v, v.HasEmptyStatement(), e) && IsPrefix(e)
    ensures PrefixChain(e)
  {
    match e
    case Index(prefix, _) => CanonicalChain(v, prefix);
    case FieldAccess(prefix, _) => CanonicalChain(v, prefix);
    case Call(callee, _, _) => CanonicalChain(v, callee);
    case _ =>
  }

  /** A chain starts with `(`, or with a name followed by a suffix or, alone, by what comes after. */
  lemma {:induction false} ChainStart(e: Expr, k: Tokens)
    requires PrefixChain(e)
    ensures EmitExpr(e, k).head.Identifier? || EmitExpr(e, k).head == Sign(LeftParen)
    ensures e.Name? || EmitExpr(e, k).head == Sign(LeftParen)
            || (EmitExpr(e, k).tail.Tok? && StartsSuffix(EmitExpr(e, k).tail.head))
  {
    match e
    case Index(prefix, index) =>
      ChainStart(prefix, Tok(Sign(LeftBracket), EmitExpr(index, Tok(Sign(RightBracket), k))));
    case FieldAccess(prefix, name) => ChainStart(prefix, Tok(Sign(Dot), Tok(Identifier(name), k)));
    case Call(callee, selector, args) => ChainStart(callee, EmitMethod(selector, EmitArgs(args, k)));
    case _ =>
  }

  lemma {:induction false} PrimaryReads(v: Version, e: Expr, k: Tokens)
    requires Canonical(v, v.HasEmptyStatement(), e) && Simple(e)
    requires k.Tok? ==> SimpleSealed(v, e, k.head) && !AtInstantiation(v, k)
    ensures ParsePrimary(v, EmitExpr(e, k)) == Ok(e, k)
    ensures IsPrefix(e) ==> PrefixChain(e)
    decreases e, 1
  {
    hide ParsePrimary, ParseExpr, ParseBody, ParseFields, ParseHoles, ParseArms, Stops, BinOpOf, Size, Sealed,
         ParseSuffixes;
    hide CanonicalBody, CanonicalFields, CanonicalHoles, CanonicalArms, EmitBody, EmitFields, EmitHoles, EmitArms;
    if e.FunctionDef? {
      BodyReads(v, e.body, k);
      FunctionStep(v, e.body, k);
    } else if e.Table? {
      FieldsRead(v, e.fields, k);
      TableStep(v, e.fields, k);
    } else if e.IfExpr? {
      var after := EmitArms(e.arms, k);
      ArmsStart(v, e.arms, k);
      WholeReads(v, e.thenExpr, after);
      ClosersStop(v);
      WholeReads(v, e.condition, Tok(Word(KwThen), EmitExpr(e.thenExpr, after)));
      ArmsRead(v, e.arms, k);
      IfStep(v, e.condition, e.thenExpr, e.arms, k);
    } else if e.Interp? {
      HolesRead(v, e.holes, k);
      InterpStep(v, e.text, e.holes, k);
    } else if IsPrefix(e) {
      CanonicalChain(v, e);
      ChainReads(v, e, k);
      ChainEndStep(v, e, k);
    } else {
      LeafStep(v, e, k);
    }
  }

  predicate Leaf(e: Expr) {
    e.Nil? || e.False? || e.True? || e.VarArg? || e.Number? || e.StringLit? || e.PlainInterp?
  }

  lemma LeafStep(v: Version, e: Expr, k: Tokens)
    requires Leaf(e)
    ensures ParsePrimary(v, EmitExpr(e, k)) == Ok(e, k)
  {
    hide Size;
  }

  lemma ChainEndStep(v: Version, e: Expr, k: Tokens)
    requires (k.Tok? ==> !StartsSuffix(k.head)) && !AtInstantiation(v, k)
    ensures ParseSuffixes(v, e, k) == Ok(e, k)
  {
    hide Size, ParseExpr, ParseArgs;
  }

  lemma FunctionStep(v: Version, body: Body, k: Tokens)
    requires ParseBody(v, EmitBody(body, k)) == Ok(body, k)
    ensures ParsePrimary(v, EmitExpr(FunctionDef(body), k)) == Ok(FunctionDef(body), k)
  {
    hide Size, ParseBody, EmitBody;
  }

  lemma TableStep(v: Version, fields: Fields, k: Tokens)
    requires ParseFields(v, EmitFields(fields, Tok(Sign(RightBrace), k))) == Ok(fields, k)
    ensures ParsePrimary(v, EmitExpr(Table(fields), k)) == Ok(Table(fields), k)
  {
    hide Size, ParseFields, EmitFields;
  }

  lemma InterpStep(v: Version, text: string, holes: Holes, k: Tokens)
    requires ParseHoles(v, EmitHoles(holes, k)) == Ok(holes, k)
    ensures ParsePrimary(v, EmitExpr(Interp(text, holes), k)) == Ok(Interp(text, holes), k)
  {
    hide Size, ParseHoles, EmitHoles;
  }

  lemma IfStep(v: Version, condition: Expr, thenExpr: Expr, arms: ExprArms, k: Tokens)
    requires v.Luau?
    requires ParseExpr(v, 0, EmitExpr(thenExpr, EmitArms(arms, k))) == Ok(thenExpr, EmitArms(arms, k))
    requires var rest := Tok(Word(KwThen), EmitExpr(thenExpr, EmitArms(arms, k)));
             ParseExpr(v, 0, EmitExpr(condition, rest)) == Ok(condition, rest)
    requires ParseArms(v, EmitArms(arms, k)) == Ok(arms, k)
    ensures ParsePrimary(v, EmitExpr(IfExpr(condition, thenExpr, arms), k)) == Ok(IfExpr(condition, thenExpr, arms), k)
  {
    hide Size, ParseExpr, ParseArms, EmitArms, EmitExpr;
    var ts := EmitExpr(condition, Tok(Word(KwThen), EmitExpr(thenExpr, EmitArms(arms, k))));
    assert ParseIfExpr(v, ts) == Ok(IfExpr(condition, thenExpr, arms), k);
    IfDispatch(v, ts);
    IfEmit(condition, thenExpr, arms, k);
  }

  lemma IfDispatch(v: Version, ts: Tokens)
    requires v.Luau?
    ensures ParsePrimary(v, Tok(Word(KwIf), ts)) == ParseIfExpr(v, ts)
  {
    hide Size, ParseIfExpr;
  }

  lemma IfEmit(condition: Expr, thenExpr: Expr, arms: ExprArms, k: Tokens)
    ensures EmitExpr(IfExpr(condition, thenExpr, arms), k)
            == Tok(Word(KwIf), EmitExpr(condition, Tok(Word(KwThen), EmitExpr(thenExpr, EmitArms(arms, k)))))
  {
    hide EmitArms;
  }

  lemma ArmsStart(v: Version, arms: ExprArms, k: Tokens)
    ensures StopsAt(v, EmitArms(arms, k))
  {
    hide Stops, EmitExpr;
    ClosersStop(v);
  }

  lemma HoleEndStops(v: Version, text: string)
    ensures Stops(v, InterpMid(text)) && Stops(v, InterpEnd(text))
  {
  }

  /** The suffix loop comes to hold every prefix expression it passes. */
  lemma {:induction false} ChainReads(v: Version, e: Expr, k: Tokens)
    requires Canonical(v, v.HasEmptyStatement(), e) && IsPrefix(e)
    ensures ParsePrimary(v, EmitExpr(e, k)) == ParseSuffixes(v, e, k)
    decreases e, 0
  {
    hide Size, Stops, ParsePrimary, ParseSuffixes, ParseExpr, ParseArgs, EmitArgs;
    ClosersStop(v);
    match e
    case Name(_) => NameStep(v, e.name, k);
    case Paren(inner) =>
      WholeReads(v, inner, Tok(Sign(RightParen), k));
      ParenStep(v, inner, k);
    case Index(prefix, index) =>
      var close := Tok(Sign(RightBracket), k);
      ChainReads(v, prefix, Tok(Sign(LeftBracket), EmitExpr(index, close)));
      WholeReads(v, index, close);
      IndexStep(v, prefix, index, k);
    case FieldAccess(prefix, name) =>
      ChainReads(v, prefix, Tok(Sign(Dot), Tok(Identifier(name), k)));
      FieldStep(v, prefix, name, k);
    case Call(callee, selector, args) =>
      ChainReads(v, callee, EmitMethod(selector, EmitArgs(args, k)));
      ArgsRead(v, args, k);
      CallStep(v, callee, selector, args, k);
  }

  lemma NameStep(v: Version, name: string, k: Tokens)
    ensures ParsePrimary(v, Tok(Identifier(name), k)) == ParseSuffixes(v, Name(name), k)
  {
    hide ParseSuffixes;
  }

  lemma ParenStep(v: Version, inner: Expr, k: Tokens)
    requires ParseExpr(v, 0, EmitExpr(inner, Tok(Sign(RightParen), k))) == Ok(inner, Tok(Sign(RightParen), k))
    ensures ParsePrimary(v, EmitExpr(Paren(inner), k)) == ParseSuffixes(v, Paren(inner), k)
  {
    hide ParseSuffixes, ParseExpr, Size;
  }

  lemma IndexStep(v: Version, prefix: Expr, index: Expr, k: Tokens)
    requires ParseExpr(v, 0, EmitExpr(index, Tok(Sign(RightBracket), k))) == Ok(index, Tok(Sign(RightBracket), k))
    ensures ParseSuffixes(v, prefix, Tok(Sign(LeftBracket), EmitExpr(index, Tok(Sign(RightBracket), k))))
            == ParseSuffixes(v, Index(prefix, index), k)
  {
    hide ParseExpr, EmitExpr, Size;
  }

  lemma FieldStep(v: Version, prefix: Expr, name: string, k: Tokens)
    ensures ParseSuffixes(v, prefix, Tok(Sign(Dot), Tok(Identifier(name), k)))
            == ParseSuffixes(v, FieldAccess(prefix, name), k)
  {
    hide ParseExpr, Size;
  }

  lemma CallStep(v: Version, callee: Expr, selector: Option<string>, args: Args, k: Tokens)
    requires ParseArgs(v, EmitArgs(args, k)) == Ok(args, k) && StartsArgs(EmitArgs(args, k).head)
    ensures ParseSuffixes(v, callee, EmitMethod(selector, EmitArgs(args, k)))
            == ParseSuffixes(v, Call(callee, selector, args), k)
  {
    hide ParseArgs, EmitArgs, ParseExpr, Size;
  }

  lemma {:induction false} ArgsRead(v: Version, args: Args, k: Tokens)
    requires CanonicalArgs(v, v.HasEmptyStatement(), args)
    ensures ParseArgs(v, EmitArgs(args, k)) == Ok(args, k)
    ensures StartsArgs(EmitArgs(args, k).head)
    decreases args
  {
    hide Size, Stops, ParseFields, EmitFields, ParseExprs, EmitExpr, CanonicalExprs, CanonicalFields;
    ClosersStop(v);
    match args
    case ParenArgs(exprs) =>
      if exprs.MoreExprs? {
        ExprsRead(v, exprs, Tok(Sign(RightParen), k));
      }
    case TableArg(fields) => FieldsRead(v, fields, k);
    case StringArg(_) =>
  }

  lemma {:induction false} ExprsRead(v: Version, es: Exprs, k: Tokens)
    requires es.MoreExprs? && CanonicalExprs(v, v.HasEmptyStatement(), es) && StopsAt(v, k) && !AtSign(k, Comma)
    ensures ParseExprs(v, EmitExprs(es, k)) == Ok(es, k)
    decreases es, 0
  {
    hide ParseExpr, EmitExpr, Canonical, Stops, Size;
    ClosersStop(v);
    ClosersStop(v);
    if es.tail.NoExprs? {
      WholeReads(v, es.head, k);
    } else {
      WholeReads(v, es.head, Tok(Sign(Comma), EmitExprs(es.tail, k)));
      ExprsRead(v, es.tail, k);
    }
  }

  lemma {:induction false} FieldsRead(v: Version, fields: Fields, k: Tokens)
    requires CanonicalFields(v, v.HasEmptyStatement(), fields)
    ensures ParseFields(v, EmitFields(fields, Tok(Sign(RightBrace), k))) == Ok(fields, k)
    decreases fields
  {
    hide Size, Stops, ParseField, EmitField, CanonicalField;
    ClosersStop(v);
    var close := Tok(Sign(RightBrace), k);
    if fields.MoreFields? {
      if fields.tail.NoFields? {
        FieldReads(v, fields.head, close);
      } else {
        FieldReads(v, fields.head, Tok(Sign(Comma), EmitFields(fields.tail, close)));
        FieldsRead(v, fields.tail, k);
      }
    }
  }

  lemma {:induction false} FieldReads(v: Version, f: Field, k: Tokens)
    requires CanonicalField(v, v.HasEmptyStatement(), f) && k.Tok? && Stops(v, k.head) && k.head != Sign(Equal)
    ensures ParseField(v, EmitField(f, k)) == Ok(f, k)
    decreases f
  {
    hide Size, Stops, ParseExpr, EmitExpr, Canonical;
    ClosersStop(v);
    match f
    case Bracketed(key, value) =>
      WholeReads(v, value, k);
      WholeReads(v, key, Tok(Sign(RightBracket), Tok(Sign(Equal), EmitExpr(value, k))));
    case Named(_, value) => WholeReads(v, value, k);
    case Positional(value) =>
      WholeReads(v, value, k);
      NotNamed(value, k);
  }

  /** No expression starts with a name and `=`. */
  lemma {:induction false} NotNamed(e: Expr, k: Tokens)
    requires !AtSign(k, Equal)
    ensures AtName(EmitExpr(e, k)) ==> !NextSign(EmitExpr(e, k), Equal)
  {
    hide EmitType, EmitBody, EmitFields, EmitHoles, EmitArms, EmitExprs;
    match e
    case Index(prefix, index) =>
      NotNamed(prefix, Tok(Sign(LeftBracket), EmitExpr(index, Tok(Sign(RightBracket), k))));
    case FieldAccess(prefix, name) => NotNamed(prefix, Tok(Sign(Dot), Tok(Identifier(name), k)));
    case Call(callee, selector, args) =>
      assert args.ParenArgs? || args.TableArg? || args.StringArg?;
      NotNamed(callee, EmitMethod(selector, EmitArgs(args, k)));
    case Binary(left, op, right) => NotNamed(left, Tok(BinToken(op), EmitExpr(right, k)));
    case Cast(expr, annotation) => NotNamed(expr, Tok(Sign(DoubleColon), EmitType(annotation, k)));
    case _ =>
  }

  lemma {:induction false} ArmsRead(v: Version, arms: ExprArms, k: Tokens)
    requires CanonicalArms(v, v.HasEmptyStatement(), arms)
             && (k.Tok? ==> ArmsSealed(v, arms, k.head) && !AtInstantiation(v, k))
    ensures ParseArms(v, EmitArms(arms, k)) == Ok(arms, k)
    decreases arms
  {
    hide Size, Stops, ParseExpr, EmitExpr, Canonical, Sealed;
    ClosersStop(v);
    match arms
    case ElseExpr(expr) =>
      LoosestSpine(expr);
      ExprReads(v, expr, 0, k);
    case ElseIfExpr(condition, expr, rest) =>
      var after := EmitArms(rest, k);
      WholeReads(v, expr, after);
      WholeReads(v, condition, Tok(Word(KwThen), EmitExpr(expr, after)));
      ArmsRead(v, rest, k);
  }

  lemma {:induction false} HolesRead(v: Version, holes: Holes, k: Tokens)
    requires CanonicalHoles(v, v.HasEmptyStatement(), holes)
    ensures ParseHoles(v, EmitHoles(holes, k)) == Ok(holes, k)
    decreases holes
  {
    hide Size, Stops, ParseExpr, EmitExpr, Canonical;
    HoleEndStops(v, holes.text);
    match holes
    case LastHole(expr, text) => WholeReads(v, expr, Tok(InterpEnd(text), k));
    case MoreHoles(expr, text, rest) =>
      WholeReads(v, expr, Tok(InterpMid(text), EmitHoles(rest, k)));
      HolesRead(v, rest, k);
  }

  // ----- statements -----

  /** The tokens a statement or the end of its block can start with, `(` apart. */
  predicate AfterStmt(v: Version, t: Token) {
    match t
    case Identifier(_) => true
    case Word(w) =>
      w in [KwIf, KwWhile, KwDo, KwFor, KwRepeat, KwFunction, KwLocal, KwBreak, KwGoto,
            KwReturn, KwEnd, KwElse, KwElseIf, KwUntil]
    case Sign(s) => s.Semicolon? || (s.DoubleColon? && v.HasGoto())
    case _ => false
  }

  predicate StmtFollows(v: Version, k: Tokens) { k.Tok? ==> AfterStmt(v, k.head) }

  lemma StmtFollowStops(v: Version, k: Tokens)
    requires StmtFollows(v, k)
    ensures StopsAt(v, k)
  {
  }

  lemma {:induction false} NamesRead(names: Names, separator: Symbol, k: Tokens)
    requires names.MoreNames? && !AtSign(k, separator)
    ensures ParseNames(separator, EmitNames(names, separator, k)) == Ok(names, k)
  {
    hide Size, ParseNames;
    if names.tail.MoreNames? {
      NamesRead(names.tail, separator, k);
      NamesStep(names.head, names.tail, separator, EmitNames(names.tail, separator, k), k);
    } else {
      LastNameStep(names.head, separator, k);
    }
  }

  lemma NamesStep(name: string, more: Names, separator: Symbol, rest: Tokens, k: Tokens)
    requires ParseNames(separator, rest) == Ok(more, k)
    ensures ParseNames(separator, Tok(Identifier(name), Tok(Sign(separator), rest))) == Ok(MoreNames(name, more), k)
  {
    hide Size;
  }

  lemma LastNameStep(name: string, separator: Symbol, k: Tokens)
    requires !AtSign(k, separator)
    ensures ParseNames(separator, Tok(Identifier(name), k)) == Ok(MoreNames(name, NoNames), k)
  {
    hide Size;
  }

  lemma {:induction false} ParamsRead(params: Names, vararg: bool, k: Tokens)
    requires params.MoreNames? || vararg
    ensures ParseParams(EmitParams(params, vararg, Tok(Sign(RightParen), k))) == Ok((params, vararg), k)
    ensures !AtSign(EmitParams(params, vararg, Tok(Sign(RightParen), k)), RightParen)
    decreases params
  {
    if params.MoreNames? && (params.tail.MoreNames? || vararg) {
      ParamsRead(params.tail, vararg, k);
    }
  }

  lemma {:induction false} BodyReads(v: Version, body: Body, k: Tokens)
    requires CanonicalBody(v, v.HasEmptyStatement(), body)
    ensures ParseBody(v, EmitBody(body, k)) == Ok(body, k)
    decreases body
  {
    hide ParseBlock, EmitBlock, CanonicalBlock, ParseParams, Size;
    var end := Tok(Word(KwEnd), k);
    BlockReads(v, body.block, end);
    if body.params.MoreNames? || body.vararg {
      ParamsRead(body.params, body.vararg, EmitBlock(body.block, end));
    }
  }

  lemma {:induction false} BlockReads(v: Version, b: Block, k: Tokens)
    requires CanonicalBlock(v, v.HasEmptyStatement(), b) && BlockEnd(k)
    ensures ParseBlock(v, EmitBlock(b, k)) == Ok(b, k)
    decreases b, 0
  {
    LastReads(v, b.last, true, k);
    LastReads(v, b.last, false, k);
    StmtsRead(v, b.stmts, b.last, true, false, k);
  }

  lemma {:induction false} LastReads(v: Version, last: Last, separable: bool, k: Tokens)
    requires CanonicalBlock(v, v.HasEmptyStatement(), Block(NoStmts, last)) && BlockEnd(k)
    ensures ParseStmts(v, separable, EmitLast(last, k)) == Ok(Block(NoStmts, last), k)
    ensures StmtFollows(v, EmitLast(last, k))
    decreases last
  {
    hide Size, Stops, ParseExprs, EmitExpr, CanonicalExprs, CanonicalStmts, ParseStmt;
    match last
    case Return(exprs) =>
      if exprs.MoreExprs? {
        EndStops(v, k);
        ExprsRead(v, exprs, k);
        ReturnStep(v, separable, exprs, k);
      }
    case _ =>
  }

  lemma EndStops(v: Version, k: Tokens)
    requires BlockEnd(k)
    ensures StopsAt(v, k)
  {
    hide Stops;
    ClosersStop(v);
  }

  lemma ReturnStep(v: Version, separable: bool, exprs: Exprs, k: Tokens)
    requires exprs.MoreExprs? && BlockEnd(k) && ParseExprs(v, EmitExprs(exprs, k)) == Ok(exprs, k)
    ensures ParseStmts(v, separable, EmitLast(Return(exprs), k)) == Ok(Block(NoStmts, Return(exprs)), k)
  {
    hide Size, ParseExprs, EmitExprs, ParseStmt;
    assert StartsExpr(EmitExprs(exprs, k).head);
    assert !BlockEnd(EmitExprs(exprs, k));
  }

  lemma {:induction false} StmtsRead(v: Version, ss: Stmts, last: Last, safe: bool, separable: bool, k: Tokens)
    requires CanonicalStmts(v, v.HasEmptyStatement(), ss, safe) && (v.HasEmptyStatement() || safe || separable)
    requires forall s :: ParseStmts(v, s, EmitLast(last, k)) == Ok(Block(NoStmts, last), k)
    requires StmtFollows(v, EmitLast(last, k))
    ensures ParseStmts(v, separable, EmitStmts(ss, safe, EmitLast(last, k))) == Ok(Block(ss, last), k)
    ensures !safe ==> StmtFollows(v, EmitStmts(ss, safe, EmitLast(last, k)))
    decreases ss
  {
    hide ParseStmts, ParseStmt, EmitStmt, CanonicalStmt, Size, Stops, StmtStartsWithParen;
    match ss
    case NoStmts =>
    case MoreStmts(head, tail) =>
      var rest := EmitStmts(tail, head.Empty?, EmitLast(last, k));
      StmtsRead(v, tail, last, head.Empty?, true, k);
      StmtStart(v, head, rest);
      if head.Empty? {
        DialectStmts(v, head);
        StmtsRead(v, tail, last, true, separable, k);
        EmptyStep(v, separable, rest, Block(tail, last), k);
      } else {
        StmtReads(v, head, rest);
        StmtStep(v, separable, head, rest, Block(tail, last), k);
        if NeedsGuard(head, safe) {
          StmtStep(v, false, head, rest, Block(tail, last), k);
          GuardStep(v, EmitStmt(head, rest));
        }
      }
  }

  lemma EmptyStep(v: Version, separable: bool, rest: Tokens, block: Block, k: Tokens)
    requires v.HasEmptyStatement() && ParseStmts(v, separable, rest) == Ok(block, k)
    ensures EmitStmt(Empty, rest) == Tok(Sign(Semicolon), rest)
    ensures ParseStmts(v, separable, Tok(Sign(Semicolon), rest))
            == Ok(Block(MoreStmts(Empty, block.stmts), block.last), k)
  {
    hide Size, ParseStmt;
  }

  lemma GuardStep(v: Version, ts: Tokens)
    requires !v.HasEmptyStatement()
    ensures ParseStmts(v, true, Tok(Sign(Semicolon), ts)) == ParseStmts(v, false, ts)
  {
    hide Size, ParseStmt;
  }

  lemma StmtStep(v: Version, separable: bool, s: Stmt, rest: Tokens, block: Block, k: Tokens)
    requires CanonicalStmt(v, v.HasEmptyStatement(), s) && !s.Empty?
    requires ParseStmt(v, EmitStmt(s, rest)) == Ok(s, rest)
    requires ParseStmts(v, true, rest) == Ok(block, k)
    ensures ParseStmts(v, separable, EmitStmt(s, rest)) == Ok(Block(MoreStmts(s, block.stmts), block.last), k)
  {
    hide Size, ParseStmt, EmitStmt, CanonicalStmt, Canonical, StartsSuffix;
    if SimpleStmt(s) {
      SimpleStart(v, s, rest);
      assert !BlockEnd(EmitStmt(s, rest));
      if EmitStmt(s, rest).head.Identifier? {
        FirstNameGoesOn(EmitStmt(s, rest).tail);
      }
    } else {
      WordStart(v, s, rest);
      DialectStmts(v, s);
    }
    StmtLoopStep(v, separable, s, EmitStmt(s, rest), rest, block, k);
  }

  lemma FirstNameGoesOn(ts: Tokens)
    requires ts.Tok? && AfterFirstName(ts.head)
    ensures !BlockEnd(ts) && !AtSign(ts, Semicolon)
  {
  }

  lemma DialectStmts(v: Version, s: Stmt)
    requires CanonicalStmt(v, v.HasEmptyStatement(), s)
    ensures s.Break? ==> !v.BreakIsLast()
    ensures s.Empty? ==> v.HasEmptyStatement()
  {
  }

  lemma StmtLoopStep(v: Version, separable: bool, s: Stmt, ts: Tokens, rest: Tokens, block: Block, k: Tokens)
    requires ParseStmt(v, ts) == Ok(s, rest) && ParseStmts(v, true, rest) == Ok(block, k)
    requires ts.Tok? && !BlockEnd(ts) && ts.head != Sign(Semicolon) && ts.head != Word(KwReturn)
    requires ts.head == Word(KwBreak) ==> !v.BreakIsLast()
    requires ts.head.Identifier? ==> !BlockEnd(ts.tail) && !AtSign(ts.tail, Semicolon)
    ensures ParseStmts(v, separable, ts) == Ok(Block(MoreStmts(s, block.stmts), block.last), k)
  {
    hide Size, ParseStmt;
  }

  /** What comes first in a statement tells it from the end of a block. */
  lemma StmtStart(v: Version, s: Stmt, k: Tokens)
    requires CanonicalStmt(v, v.HasEmptyStatement(), s)
    ensures EmitStmt(s, k).Tok?
    ensures AfterStmt(v, EmitStmt(s, k).head) || (EmitStmt(s, k).head == Sign(LeftParen) && StmtStartsWithParen(s))
    ensures !s.Empty? ==> !AtSign(EmitStmt(s, k), Semicolon)
  {
    hide Canonical, EmitExpr, EmitExprs, EmitBlock, EmitBody, CanonicalExprs, CanonicalBlock, StmtStartsWithParen;
    if SimpleStmt(s) {
      SimpleStart(v, s, k);
      GuardReadsFirstToken(s, k);
    } else {
      WordStart(v, s, k);
    }
  }

  predicate SimpleStmt(s: Stmt) { s.Assign? || s.CallStmt? || s.Compound? }

  lemma WordStart(v: Version, s: Stmt, k: Tokens)
    requires CanonicalStmt(v, v.HasEmptyStatement(), s) && !SimpleStmt(s)
    ensures EmitStmt(s, k).Tok? && AfterStmt(v, EmitStmt(s, k).head)
    ensures !EmitStmt(s, k).head.Identifier?
    ensures !s.Empty? ==>
              !BlockEnd(EmitStmt(s, k)) && EmitStmt(s, k).head != Sign(Semicolon)
                && EmitStmt(s, k).head != Word(KwReturn)
    ensures !s.Empty? && !s.Label? ==> EmitStmt(s, k).head.Word?
    ensures !s.Break? ==> EmitStmt(s, k).head != Word(KwBreak)
  {
    hide EmitExpr, EmitBlock, EmitBody, EmitExprs, EmitNames, EmitBindings, CanonicalBlock, Canonical;
    hide CanonicalExprs, CanonicalStmtArms, CanonicalBody;
  }

  /** A statement that starts with a name goes on with a suffix, `,`, `=` or a compound operator. */
  predicate AfterFirstName(t: Token) {
    StartsSuffix(t) || t == Sign(Comma) || t == Sign(Equal) || CompoundOpOf(t).Some?
  }

  lemma SimpleStart(v: Version, s: Stmt, k: Tokens)
    requires CanonicalStmt(v, v.HasEmptyStatement(), s) && SimpleStmt(s)
    ensures EmitStmt(s, k).Tok?
    ensures EmitStmt(s, k).head == Sign(LeftParen)
            || (EmitStmt(s, k).head.Identifier? && EmitStmt(s, k).tail.Tok? && AfterFirstName(EmitStmt(s, k).tail.head))
  {
    hide Canonical, CanonicalExprs, EmitExprs, StartsSuffix;
    match s
    case Assign(targets, values) =>
      var rest := Tok(Sign(Equal), EmitExprs(values, k));
      FirstTarget(v, targets);
      CanonicalChain(v, targets.head);
      TargetsEmit(targets, rest);
      ChainStart(targets.head, TargetsAfter(targets.tail, rest));
    case CallStmt(call) =>
      CanonicalChain(v, call);
      ChainStart(call, k);
    case Compound(target, op, value) =>
      CompoundTokensDistinct(op);
      CanonicalChain(v, target);
      ChainStart(target, Tok(CompoundToken(op), EmitExpr(value, k)));
  }

  lemma FirstTarget(v: Version, es: Exprs)
    requires es.MoreExprs? && CanonicalExprs(v, v.HasEmptyStatement(), es) && AllVars(es)
    ensures Canonical(v, v.HasEmptyStatement(), es.head) && IsPrefix(es.head)
  {
    hide Canonical;
  }

  function TargetsAfter(es: Exprs, k: Tokens): Tokens {
    if es.NoExprs? then k else Tok(Sign(Comma), EmitExprs(es, k))
  }

  lemma TargetsEmit(es: Exprs, k: Tokens)
    requires es.MoreExprs?
    ensures EmitExprs(es, k) == EmitExpr(es.head, TargetsAfter(es.tail, k))
  {
    hide EmitExpr;
  }

  lemma {:induction false} StmtReads(v: Version, s: Stmt, k: Tokens)
    requires CanonicalStmt(v, v.HasEmptyStatement(), s) && !s.Empty? && StmtFollows(v, k)
    ensures ParseStmt(v, EmitStmt(s, k)) == Ok(s, k)
    decreases s, 2
  {
    hide ParseSimpleStmt, ParseWordStmt, EmitStmt, StartsSuffix, Canonical, CanonicalExprs, CanonicalBlock,
         CanonicalBody, CanonicalStmtArms, Size;
    if SimpleStmt(s) {
      SimpleStart(v, s, k);
      SimpleStmtReads(v, s, k);
      SimpleStep(v, EmitStmt(s, k));
    } else if s.Label? {
      LabelReads(v, s, k);
    } else {
      WordStmtReads(v, s, k);
    }
  }

  lemma SimpleStep(v: Version, ts: Tokens)
    requires ts.Tok?
    requires ts.head == Sign(LeftParen) || (ts.head.Identifier? && ts.tail.Tok? && AfterFirstName(ts.tail.head))
    ensures ParseStmt(v, ts) == ParseSimpleStmt(v, ts)
  {
    hide ParseSimpleStmt, Size;
  }

  lemma LabelReads(v: Version, s: Stmt, k: Tokens)
    requires s.Label? && v.HasGoto()
    ensures ParseStmt(v, EmitStmt(s, k)) == Ok(s, k)
  {
    hide Size;
  }

  lemma {:induction false} SimpleStmtReads(v: Version, s: Stmt, k: Tokens)
    requires CanonicalStmt(v, v.HasEmptyStatement(), s) && SimpleStmt(s) && StmtFollows(v, k)
    ensures ParseSimpleStmt(v, EmitStmt(s, k)) == Ok(s, k)
    decreases s, 1
  {
    if s.Assign? {
      AssignReads(v, s.targets, s.values, k);
    } else if s.CallStmt? {
      CallReads(v, s.call, k);
    } else {
      CompoundReads(v, s.target, s.cop, s.value, k);
    }
  }

  lemma {:induction false} CallReads(v: Version, call: Expr, k: Tokens)
    requires Canonical(v, v.HasEmptyStatement(), call) && call.Call? && StmtFollows(v, k)
    ensures ParseSimpleStmt(v, EmitExpr(call, k)) == Ok(CallStmt(call), k)
    decreases call, 5
  {
    hide Canonical, EmitExpr, ParseExpr, Size;
    StmtFollowStops(v, k);
    WholeReads(v, call, k);
  }

  lemma {:induction false} AssignReads(v: Version, targets: Exprs, values: Exprs, k: Tokens)
    requires targets.MoreExprs? && AllVars(targets) && CanonicalExprs(v, v.HasEmptyStatement(), targets)
    requires values.MoreExprs? && CanonicalExprs(v, v.HasEmptyStatement(), values) && StmtFollows(v, k)
    ensures ParseSimpleStmt(v, EmitStmt(Assign(targets, values), k)) == Ok(Assign(targets, values), k)
    decreases Assign(targets, values), 0
  {
    hide Canonical, EmitExprs, EmitExpr, ParseExpr, ParseExprs, ParseSimpleStmt, ParseTargets, Size, Stops;
    StmtFollowStops(v, k);
    var rest := Tok(Sign(Equal), EmitExprs(values, k));
    ExprsRead(v, values, k);
    TargetsRead(v, targets.tail, rest);
    ClosersStop(v);
    WholeReads(v, targets.head, TargetsAfter(targets.tail, rest));
    TargetsEmit(targets, rest);
    AssignStep(v, targets, values, k);
  }

  lemma AssignStep(v: Version, targets: Exprs, values: Exprs, k: Tokens)
    requires targets.MoreExprs? && AllVars(targets)
    requires var rest := TargetsAfter(targets.tail, Tok(Sign(Equal), EmitExprs(values, k)));
             ParseExpr(v, 0, EmitExpr(targets.head, rest)) == Ok(targets.head, rest)
    requires var rest := Tok(Sign(Equal), EmitExprs(values, k));
             ParseTargets(v, TargetsAfter(targets.tail, rest)) == Ok(targets.tail, rest)
    requires ParseExprs(v, EmitExprs(values, k)) == Ok(values, k)
    ensures ParseSimpleStmt(v,
                            EmitExpr(targets.head, TargetsAfter(targets.tail, Tok(Sign(Equal), EmitExprs(values, k)))))
            == Ok(Assign(targets, values), k)
  {
    hide EmitExprs, EmitExpr, ParseExpr, ParseExprs, ParseTargets, Size;
  }

  lemma {:induction false} TargetsRead(v: Version, es: Exprs, k: Tokens)
    requires CanonicalExprs(v, v.HasEmptyStatement(), es) && AtSign(k, Equal)
    ensures ParseTargets(v, TargetsAfter(es, k)) == Ok(es, k)
    decreases es
  {
    hide ParseExpr, EmitExpr, Canonical, EmitExprs, Stops, Size;
    if es.MoreExprs? {
      ClosersStop(v);
      TargetsEmit(es, k);
      WholeReads(v, es.head, TargetsAfter(es.tail, k));
      TargetsRead(v, es.tail, k);
    }
  }

  lemma {:induction false} CompoundReads(v: Version, target: Expr, op: CompoundOp, value: Expr, k: Tokens)
    requires v.Luau? && IsVar(target) && Canonical(v, v.HasEmptyStatement(), target)
             && Canonical(v, v.HasEmptyStatement(), value) && StmtFollows(v, k)
    ensures ParseSimpleStmt(v, EmitExpr(target, Tok(CompoundToken(op), EmitExpr(value, k))))
            == Ok(Compound(target, op, value), k)
    decreases Compound(target, op, value), 0
  {
    hide Canonical, EmitExpr, ParseExpr, Size, CompoundToken, CompoundOpOf, IsVar, Stops, TokenBinds, ParseSimpleStmt;
    StmtFollowStops(v, k);
    WholeReads(v, value, k);
    CompoundStops(v, op);
    CompoundTokensDistinct(op);
    WholeReads(v, target, Tok(CompoundToken(op), EmitExpr(value, k)));
    CompoundStep(v, EmitExpr(target, Tok(CompoundToken(op), EmitExpr(value, k))), target, op, value,
                 EmitExpr(value, k), k);
  }

  lemma CompoundStep(v: Version, ts: Tokens, target: Expr, op: CompoundOp, value: Expr, rest: Tokens, k: Tokens)
    requires v.Luau? && IsVar(target) && CompoundOpOf(CompoundToken(op)) == Some(op)
    requires ParseExpr(v, 0, ts) == Ok(target, Tok(CompoundToken(op), rest)) && ParseExpr(v, 0, rest) == Ok(value, k)
    ensures ParseSimpleStmt(v, ts) == Ok(Compound(target, op, value), k)
  {
    hide ParseExpr, Size, CompoundToken, CompoundOpOf, IsVar, ParseTargets, ParseExprs;
  }

  lemma CompoundStops(v: Version, op: CompoundOp)
    ensures Stops(v, CompoundToken(op))
  {
    CompoundTokensDistinct(op);
  }

  lemma {:induction false} WordStmtReads(v: Version, s: Stmt, k: Tokens)
    requires CanonicalStmt(v, v.HasEmptyStatement(), s) && StmtFollows(v, k)
    requires !SimpleStmt(s) && !s.Label? && !s.Empty?
    ensures ParseStmt(v, EmitStmt(s, k)) == Ok(s, k)
    decreases s, 1
  {
    hide ParseStmt, ParseWordStmt, EmitStmt, Size;
    WordStart(v, s, k);
    WordDispatch(v, EmitStmt(s, k));
    if s.Do? || s.While? || s.Repeat? || s.If? {
      BlockStmtReads(v, s, k);
    } else if s.NumericFor? || s.GenericFor? {
      ForReads(v, s, k);
    } else {
      DeclarationReads(v, s, k);
    }
  }

  lemma WordDispatch(v: Version, ts: Tokens)
    requires ts.Tok? && ts.head.Word?
    ensures ParseStmt(v, ts) == ParseWordStmt(v, ts.head.keyword, ts)
  {
    hide ParseWordStmt, Size;
  }

  lemma {:induction false} BlockStmtReads(v: Version, s: Stmt, k: Tokens)
    requires CanonicalStmt(v, v.HasEmptyStatement(), s) && StmtFollows(v, k)
             && (s.Do? || s.While? || s.Repeat? || s.If?)
    ensures EmitStmt(s, k).Tok? && EmitStmt(s, k).head.Word?
    ensures ParseWordStmt(v, EmitStmt(s, k).head.keyword, EmitStmt(s, k)) == Ok(s, k)
    decreases s, 0
  {
    hide ParseExpr, EmitExpr, Canonical, ParseBlock, EmitBlock, CanonicalBlock, Stops, Size, AfterStmt;
    hide ParseStmtArms, EmitStmtArms, ParseLoopBody, EmitLoopBody, ParseEnded, CanonicalStmtArms, StmtFollows;
    StmtFollowStops(v, k);
    ClosersStop(v);
    match s
    case Do(block) =>
      BlockReads(v, block, Tok(Word(KwEnd), k));
      EndedStep(v, block, k);
    case While(condition, block) =>
      LoopBodyReads(v, block, k);
      WholeReads(v, condition, EmitLoopBody(block, k));
    case Repeat(block, condition) =>
      WholeReads(v, condition, k);
      BlockReads(v, block, Tok(Word(KwUntil), EmitExpr(condition, k)));
    case If(condition, block, arms) =>
      var after := EmitStmtArms(arms, k);
      StmtArmsRead(v, arms, k);
      BlockReads(v, block, after);
      WholeReads(v, condition, Tok(Word(KwThen), EmitBlock(block, after)));
  }

  lemma EndedStep(v: Version, block: Block, k: Tokens)
    requires ParseBlock(v, EmitBlock(block, Tok(Word(KwEnd), k))) == Ok(block, Tok(Word(KwEnd), k))
    ensures EmitLoopBody(block, k) == Tok(Word(KwDo), EmitBlock(block, Tok(Word(KwEnd), k)))
    ensures ParseEnded(v, EmitLoopBody(block, k).tail) == Ok(block, k)
  {
    hide ParseBlock, EmitBlock, Size;
  }

  lemma {:induction false} ForReads(v: Version, s: Stmt, k: Tokens)
    requires CanonicalStmt(v, v.HasEmptyStatement(), s) && (s.NumericFor? || s.GenericFor?)
    ensures EmitStmt(s, k).Tok? && EmitStmt(s, k).head == Word(KwFor)
    ensures ParseWordStmt(v, KwFor, EmitStmt(s, k)) == Ok(s, k)
    decreases s, 0
  {
    hide ParseExpr, EmitExpr, Canonical, ParseBlock, EmitBlock, CanonicalBlock, Stops, Size;
    hide ParseExprs, EmitExprs, CanonicalExprs, ParseNumericFor, ParseGenericFor, ParseLoopBody;
    ClosersStop(v);
    match s
    case NumericFor(name, start, limit, step, block) =>
      var body := EmitLoopBody(block, k);
      LoopBodyReads(v, block, k);
      StepReads(v, step, body);
      WholeReads(v, limit, EmitStep(step, body));
      WholeReads(v, start, Tok(Sign(Comma), EmitExpr(limit, EmitStep(step, body))));
      NumericForStep(v, name, start, limit, step, block, k);
    case GenericFor(names, exprs, block) =>
      var body := EmitLoopBody(block, k);
      LoopBodyReads(v, block, k);
      ExprsRead(v, exprs, body);
      NamesRead(names, Comma, Tok(Word(KwIn), EmitExprs(exprs, body)));
      GenericForStep(v, names, exprs, block, k);
  }

  lemma NumericForStep(v: Version, name: string, start: Expr, limit: Expr, step: Option<Expr>, block: Block, k: Tokens)
    requires ParseLoopBody(v, EmitLoopBody(block, k)) == Ok(block, k)
    requires ParseStep(v, EmitStep(step, EmitLoopBody(block, k))) == Ok(step, EmitLoopBody(block, k))
    requires var rest := EmitStep(step, EmitLoopBody(block, k));
             ParseExpr(v, 0, EmitExpr(limit, rest)) == Ok(limit, rest)
    requires var rest := Tok(Sign(Comma), EmitExpr(limit, EmitStep(step, EmitLoopBody(block, k))));
             ParseExpr(v, 0, EmitExpr(start, rest)) == Ok(start, rest)
    ensures ParseNumericFor(v, name,
                            EmitExpr(start, Tok(Sign(Comma), EmitExpr(limit, EmitStep(step, EmitLoopBody(block, k))))))
            == Ok(NumericFor(name, start, limit, step, block), k)
  {
    hide ParseExpr, EmitExpr, ParseLoopBody, EmitLoopBody, ParseStep, EmitStep, Size;
  }

  lemma GenericForStep(v: Version, names: Names, exprs: Exprs, block: Block, k: Tokens)
    requires names.MoreNames?
    requires ParseLoopBody(v, EmitLoopBody(block, k)) == Ok(block, k)
    requires ParseExprs(v, EmitExprs(exprs, EmitLoopBody(block, k))) == Ok(exprs, EmitLoopBody(block, k))
    requires var rest := Tok(Word(KwIn), EmitExprs(exprs, EmitLoopBody(block, k)));
             ParseNames(Comma, EmitNames(names, Comma, rest)) == Ok(names, rest)
    ensures var ts := EmitNames(names, Comma, Tok(Word(KwIn), EmitExprs(exprs, EmitLoopBody(block, k))));
            AtName(ts) && !NextSign(ts, Equal)
            && ParseGenericFor(v, ts) == Ok(GenericFor(names, exprs, block), k)
  {
    hide ParseExprs, EmitExprs, ParseLoopBody, EmitLoopBody, ParseNames, Size;
  }

  lemma {:induction false} DeclarationReads(v: Version, s: Stmt, k: Tokens)
    requires CanonicalStmt(v, v.HasEmptyStatement(), s) && StmtFollows(v, k)
    requires s.FunctionDecl? || s.LocalFunction? || s.Local? || s.Goto? || s.Break?
    ensures EmitStmt(s, k).Tok? && EmitStmt(s, k).head.Word?
    ensures ParseWordStmt(v, EmitStmt(s, k).head.keyword, EmitStmt(s, k)) == Ok(s, k)
    decreases s, 0
  {
    hide ParseBody, EmitBody, CanonicalBody, CanonicalExprs, ParseWordStmt, EmitBindings, EmitExprs, AfterStmt, Size;
    match s
    case FunctionDecl(path, selector, body) =>
      BodyReads(v, body, k);
      FunctionDeclReads(v, path, selector, body, k);
    case LocalFunction(name, body) =>
      BodyReads(v, body, k);
      LocalFunctionStep(v, name, body, k);
    case Local(bindings, values) => LocalReads(v, bindings, values, k);
    case Goto(name) => JumpStep(v, s, k);
    case Break => JumpStep(v, s, k);
  }

  lemma FunctionDeclReads(v: Version, path: Names, selector: Option<string>, body: Body, k: Tokens)
    requires path.MoreNames? && ParseBody(v, EmitBody(body, k)) == Ok(body, k)
    ensures ParseWordStmt(v, KwFunction, EmitStmt(FunctionDecl(path, selector, body), k))
            == Ok(FunctionDecl(path, selector, body), k)
  {
    hide ParseBody, EmitBody, ParseNames, EmitNames, Size;
    BodyStart(body, k);
    NamesRead(path, Dot, EmitMethod(selector, EmitBody(body, k)));
    assert ParseSelector(EmitMethod(selector, EmitBody(body, k))) == Ok(selector, EmitBody(body, k));
  }

  lemma LocalFunctionStep(v: Version, name: string, body: Body, k: Tokens)
    requires ParseBody(v, EmitBody(body, k)) == Ok(body, k)
    ensures ParseWordStmt(v, KwLocal, EmitStmt(LocalFunction(name, body), k)) == Ok(LocalFunction(name, body), k)
  {
    hide ParseBody, EmitBody, Size;
  }

  lemma JumpStep(v: Version, s: Stmt, k: Tokens)
    requires (s.Goto? && v.HasGoto()) || (s.Break? && !v.BreakIsLast())
    ensures ParseWordStmt(v, EmitStmt(s, k).head.keyword, EmitStmt(s, k)) == Ok(s, k)
  {
    hide Size;
  }

  lemma BodyStart(body: Body, k: Tokens)
    ensures AtSign(EmitBody(body, k), LeftParen)
  {
    hide EmitBlock, EmitParams;
  }

  lemma {:induction false} LoopBodyReads(v: Version, block: Block, k: Tokens)
    requires CanonicalBlock(v, v.HasEmptyStatement(), block)
    ensures ParseLoopBody(v, EmitLoopBody(block, k)) == Ok(block, k)
    ensures AtWord(EmitLoopBody(block, k), KwDo)
    decreases block, 1
  {
    BlockReads(v, block, Tok(Word(KwEnd), k));
  }

  lemma {:induction false} StepReads(v: Version, step: Option<Expr>, k: Tokens)
    requires CanonicalStep(v, v.HasEmptyStatement(), step) && AtWord(k, KwDo)
    ensures ParseStep(v, EmitStep(step, k)) == Ok(step, k)
    ensures StopsAt(v, EmitStep(step, k))
    decreases step
  {
    hide ParseExpr, EmitExpr, Canonical, Size;
    match step
    case None =>
    case Some(expr) => WholeReads(v, expr, k);
  }

  lemma {:induction false} StmtArmsRead(v: Version, arms: StmtArms, k: Tokens)
    requires CanonicalStmtArms(v, v.HasEmptyStatement(), arms)
    ensures ParseStmtArms(v, EmitStmtArms(arms, k)) == Ok(arms, k)
    ensures BlockEnd(EmitStmtArms(arms, k))
    decreases arms
  {
    hide ParseBlock, EmitBlock, ParseExpr, EmitExpr, Canonical, CanonicalBlock, Stops, Size, ParseStmtArms, StmtFollows;
    match arms
    case EndIf => EndIfStep(v, k);
    case Else(block) =>
      BlockReads(v, block, Tok(Word(KwEnd), k));
      ElseStep(v, block, k);
    case ElseIf(condition, block, rest) =>
      var after := EmitStmtArms(rest, k);
      StmtArmsRead(v, rest, k);
      BlockReads(v, block, after);
      ClosersStop(v);
      var body := Tok(Word(KwThen), EmitBlock(block, after));
      WholeReads(v, condition, body);
      ElseIfStep(v, EmitExpr(condition, body), condition, EmitBlock(block, after), block, after, rest, k);
  }

  lemma EndIfStep(v: Version, k: Tokens)
    ensures ParseStmtArms(v, Tok(Word(KwEnd), k)) == Ok(EndIf, k)
  {
    hide Size;
  }

  lemma ElseStep(v: Version, block: Block, k: Tokens)
    requires ParseBlock(v, EmitBlock(block, Tok(Word(KwEnd), k))) == Ok(block, Tok(Word(KwEnd), k))
    ensures ParseStmtArms(v, Tok(Word(KwElse), EmitBlock(block, Tok(Word(KwEnd), k)))) == Ok(Else(block), k)
  {
    hide Size, ParseBlock, EmitBlock;
  }

  lemma ElseIfStep(v: Version, head: Tokens, condition: Expr, body: Tokens, block: Block, after: Tokens,
                   rest: StmtArms, k: Tokens)
    requires ParseExpr(v, 0, head) == Ok(condition, Tok(Word(KwThen), body))
    requires ParseBlock(v, body) == Ok(block, after) && ParseStmtArms(v, after) == Ok(rest, k)
    ensures ParseStmtArms(v, Tok(Word(KwElseIf), head)) == Ok(ElseIf(condition, block, rest), k)
  {
    hide Size, ParseBlock, ParseExpr;
  }

  lemma {:induction false} LocalReads(v: Version, bindings: Bindings, values: Exprs, k: Tokens)
    requires CanonicalStmt(v, v.HasEmptyStatement(), Local(bindings, values)) && StmtFollows(v, k)
    ensures ParseWordStmt(v, KwLocal, EmitStmt(Local(bindings, values), k)) == Ok(Local(bindings, values), k)
    decreases values, 1
  {
    hide EmitBindings, ParseBindings, ParseExprs, EmitExprs, CanonicalExprs, ParseWordStmt, Size, Stops;
    StmtFollowStops(v, k);
    BindingsRead(v, bindings, AfterBindings(values, k));
    if values.MoreExprs? {
      ExprsRead(v, values, k);
    }
    LocalStep(v, bindings, values, k);
  }

  function AfterBindings(values: Exprs, k: Tokens): Tokens {
    if values.NoExprs? then k else Tok(Sign(Equal), EmitExprs(values, k))
  }

  lemma LocalStep(v: Version, bindings: Bindings, values: Exprs, k: Tokens)
    requires ParseBindings(v, EmitBindings(bindings, AfterBindings(values, k)))
             == Ok(bindings, AfterBindings(values, k))
    requires AtName(EmitBindings(bindings, AfterBindings(values, k))) && Closers(bindings) <= 1 && !AtSign(k, Equal)
    requires values.MoreExprs? ==> ParseExprs(v, EmitExprs(values, k)) == Ok(values, k)
    ensures ParseWordStmt(v, KwLocal, EmitStmt(Local(bindings, values), k)) == Ok(Local(bindings, values), k)
  {
    hide EmitBindings, ParseBindings, ParseExprs, EmitExprs, Size, Closers;
    assert ParseLocal(v, EmitBindings(bindings, AfterBindings(values, k))) == Ok(Local(bindings, values), k);
  }

  lemma {:induction false} BindingsRead(v: Version, bindings: Bindings, k: Tokens)
    requires bindings.MoreBindings? && CanonicalBindings(v, bindings)
    requires !AtSign(k, Comma) && !AtSign(k, Less)
    ensures ParseBindings(v, EmitBindings(bindings, k)) == Ok(bindings, k)
    ensures AtName(EmitBindings(bindings, k))
  {
    if bindings.tail.MoreBindings? {
      BindingsRead(v, bindings.tail, k);
      BindingReads(v, bindings.head, Tok(Sign(Comma), EmitBindings(bindings.tail, k)));
    } else {
      BindingReads(v, bindings.head, k);
    }
  }

  lemma BindingReads(v: Version, b: Binding, k: Tokens)
    requires b.attribute.Some? ==> v.HasAttributes() && b.attribute.value in ["const", "close"]
    requires !AtSign(k, Less)
    ensures ParseBinding(v, EmitBinding(b, k)) == Ok(b, k)
  {
  }

  // ----- programs -----

  /** Printing a canonical program and parsing the tokens gives the program. */
  lemma ProgramReads(v: Version, b: Block)
    requires CanonicalBlock(v, v.HasEmptyStatement(), b)
    ensures Parse(v, EmitBlock(b, Eof)) == Some(b)
  {
    BlockReads(v, b, Eof);
  }
}
