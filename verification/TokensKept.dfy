/** Nothing of a source is lost by parsing and printing: every program that is accepted prints the tokens it
    was read from, the separators aside. */
module TokensKept {
  import opened Wrappers
  import opened LuaSyntax
  import opened Emission
  import opened Grammar
  import ParsedForm

  /** The tokens without `;` and `,`, which the printer writes at its own discretion; a token that starts with
      a `>` and can be split in a type is split. */
  function Core(ts: Tokens): Tokens {
    match ts
    case Eof => Eof
    case Tok(t, k) =>
      if t == Sign(Semicolon) || t == Sign(Comma) then Core(k)
      else if t == Sign(ShiftRight) then Tok(Sign(Greater), Tok(Sign(Greater), Core(k)))
      else if t == Sign(GreaterEqual) then Tok(Sign(Greater), Tok(Sign(Equal), Core(k)))
      else Tok(t, Core(k))
  }

  predicate Alike(ts: Tokens, us: Tokens) { Core(ts) == Core(us) }

  // ----- what follows decides only what follows -----

  lemma Next(t: Token, k: Tokens, l: Tokens)
    requires Alike(k, l)
    ensures Alike(Tok(t, k), Tok(t, l))
  {
  }

  lemma {:induction false} TypeThen(t: Type, k: Tokens, l: Tokens)
    requires Alike(k, l)
    ensures Alike(EmitType(t, k), EmitType(t, l))
    decreases t
  {
    match t
    case TypeName(_) =>
    case Generic(_, args) => TypesThen(args, Sign(Comma), Tok(Sign(Greater), k), Tok(Sign(Greater), l));
    case Optional(inner) => TypeThen(inner, Tok(Sign(Question), k), Tok(Sign(Question), l));
    case Union(types) => TypesThen(types, Sign(Pipe), k, l);
    case Intersection(types) => TypesThen(types, Sign(Ampersand), k, l);
    case ParenType(inner) => TypeThen(inner, Tok(Sign(RightParen), k), Tok(Sign(RightParen), l));
  }

  lemma {:induction false} TypesThen(types: Types, separator: Token, k: Tokens, l: Tokens)
    requires Alike(k, l)
    ensures Alike(EmitTypes(types, separator, k), EmitTypes(types, separator, l))
    decreases types
  {
    if types.MoreTypes? {
      if types.tail.NoTypes? {
        TypeThen(types.head, k, l);
      } else {
        TypesThen(types.tail, separator, k, l);
        TypeThen(types.head, Tok(separator, EmitTypes(types.tail, separator, k)),
                 Tok(separator, EmitTypes(types.tail, separator, l)));
      }
    }
  }

  lemma {:induction false} ExprThen(e: Expr, k: Tokens, l: Tokens)
    requires Alike(k, l)
    ensures Alike(EmitExpr(e, k), EmitExpr(e, l))
    decreases e, 1
  {
    hide Core, Alike, BinToken, UnToken, EmitType, EmitBody, EmitArgs, EmitTable, EmitArms, EmitHoles, EmitMethod;
    match e
    case FunctionDef(body) =>
      BodyThen(body, k, l);
      Next(Word(KwFunction), EmitBody(body, k), EmitBody(body, l));
    case Index(prefix, index) => IndexThen(prefix, index, k, l);
    case FieldAccess(prefix, name) =>
      var (field, field') := (Tok(Identifier(name), k), Tok(Identifier(name), l));
      Next(Identifier(name), k, l);
      Next(Sign(Dot), field, field');
      ExprThen(prefix, Tok(Sign(Dot), field), Tok(Sign(Dot), field'));
    case Call(callee, selector, args) =>
      ArgsThen(args, k, l);
      MethodThen(selector, EmitArgs(args, k), EmitArgs(args, l));
      ExprThen(callee, EmitMethod(selector, EmitArgs(args, k)), EmitMethod(selector, EmitArgs(args, l)));
    case Paren(inner) =>
      var (close, close') := (Tok(Sign(RightParen), k), Tok(Sign(RightParen), l));
      Next(Sign(RightParen), k, l);
      ExprThen(inner, close, close');
      Next(Sign(LeftParen), EmitExpr(inner, close), EmitExpr(inner, close'));
    case Table(fields) => TableThen(fields, k, l);
    case Binary(left, op, right) =>
      ExprThen(right, k, l);
      Next(BinToken(op), EmitExpr(right, k), EmitExpr(right, l));
      ExprThen(left, Tok(BinToken(op), EmitExpr(right, k)), Tok(BinToken(op), EmitExpr(right, l)));
    case Unary(op, operand) =>
      ExprThen(operand, k, l);
      Next(UnToken(op), EmitExpr(operand, k), EmitExpr(operand, l));
    case IfExpr(condition, thenExpr, arms) => IfThen(condition, thenExpr, arms, k, l);
    case Interp(text, holes) =>
      HolesThen(holes, k, l);
      Next(InterpBegin(text), EmitHoles(holes, k), EmitHoles(holes, l));
    case Cast(expr, annotation) =>
      TypeThen(annotation, k, l);
      Next(Sign(DoubleColon), EmitType(annotation, k), EmitType(annotation, l));
      ExprThen(expr, Tok(Sign(DoubleColon), EmitType(annotation, k)), Tok(Sign(DoubleColon), EmitType(annotation, l)));
    case _ => AtomThen(e, k, l);
  }

  lemma AtomThen(e: Expr, k: Tokens, l: Tokens)
    requires Alike(k, l)
    requires e.Nil? || e.False? || e.True? || e.VarArg? || e.Number? || e.StringLit? || e.Name? || e.PlainInterp?
    ensures Alike(EmitExpr(e, k), EmitExpr(e, l))
  {
  }

  lemma {:induction false} IndexThen(prefix: Expr, index: Expr, k: Tokens, l: Tokens)
    requires Alike(k, l)
    ensures Alike(EmitExpr(prefix, Tok(Sign(LeftBracket), EmitExpr(index, Tok(Sign(RightBracket), k)))),
                  EmitExpr(prefix, Tok(Sign(LeftBracket), EmitExpr(index, Tok(Sign(RightBracket), l)))))
    decreases Index(prefix, index), 0
  {
    hide Core, Alike, EmitExpr;
    var (close, close') := (Tok(Sign(RightBracket), k), Tok(Sign(RightBracket), l));
    Next(Sign(RightBracket), k, l);
    ExprThen(index, close, close');
    Next(Sign(LeftBracket), EmitExpr(index, close), EmitExpr(index, close'));
    ExprThen(prefix, Tok(Sign(LeftBracket), EmitExpr(index, close)), Tok(Sign(LeftBracket), EmitExpr(index, close')));
  }

  lemma {:induction false} IfThen(condition: Expr, thenExpr: Expr, arms: ExprArms, k: Tokens, l: Tokens)
    requires Alike(k, l)
    ensures Alike(EmitExpr(IfExpr(condition, thenExpr, arms), k), EmitExpr(IfExpr(condition, thenExpr, arms), l))
    decreases IfExpr(condition, thenExpr, arms), 0
  {
    hide Core, Alike, EmitArms;
    ArmsThen(arms, k, l);
    var (rest, rest') := (EmitArms(arms, k), EmitArms(arms, l));
    ExprThen(thenExpr, rest, rest');
    var (chosen, chosen') := (Tok(Word(KwThen), EmitExpr(thenExpr, rest)),
                              Tok(Word(KwThen), EmitExpr(thenExpr, rest')));
    Next(Word(KwThen), EmitExpr(thenExpr, rest), EmitExpr(thenExpr, rest'));
    ExprThen(condition, chosen, chosen');
    Next(Word(KwIf), EmitExpr(condition, chosen), EmitExpr(condition, chosen'));
  }

  lemma MethodThen(selector: Option<string>, k: Tokens, l: Tokens)
    requires Alike(k, l)
    ensures Alike(EmitMethod(selector, k), EmitMethod(selector, l))
  {
  }

  lemma {:induction false} ArgsThen(args: Args, k: Tokens, l: Tokens)
    requires Alike(k, l)
    ensures Alike(EmitArgs(args, k), EmitArgs(args, l))
    decreases args
  {
    match args
    case ParenArgs(exprs) => ExprsThen(exprs, Tok(Sign(RightParen), k), Tok(Sign(RightParen), l));
    case TableArg(fields) => TableThen(fields, k, l);
    case StringArg(_) =>
  }

  lemma {:induction false} ExprsThen(es: Exprs, k: Tokens, l: Tokens)
    requires Alike(k, l)
    ensures Alike(EmitExprs(es, k), EmitExprs(es, l))
    decreases es
  {
    if es.MoreExprs? {
      if es.tail.NoExprs? {
        ExprThen(es.head, k, l);
      } else {
        ExprsThen(es.tail, k, l);
        ExprThen(es.head, Tok(Sign(Comma), EmitExprs(es.tail, k)), Tok(Sign(Comma), EmitExprs(es.tail, l)));
      }
    }
  }

  lemma {:induction false} TableThen(fields: Fields, k: Tokens, l: Tokens)
    requires Alike(k, l)
    ensures Alike(EmitTable(fields, k), EmitTable(fields, l))
    decreases fields, 1
  {
    FieldsThen(fields, Tok(Sign(RightBrace), k), Tok(Sign(RightBrace), l));
  }

  lemma {:induction false} FieldsThen(fields: Fields, k: Tokens, l: Tokens)
    requires Alike(k, l)
    ensures Alike(EmitFields(fields, k), EmitFields(fields, l))
    decreases fields, 0
  {
    if fields.MoreFields? {
      if fields.tail.NoFields? {
        FieldThen(fields.head, k, l);
      } else {
        FieldsThen(fields.tail, k, l);
        FieldThen(fields.head, Tok(Sign(Comma), EmitFields(fields.tail, k)),
                  Tok(Sign(Comma), EmitFields(fields.tail, l)));
      }
    }
  }

  lemma {:induction false} FieldThen(f: Field, k: Tokens, l: Tokens)
    requires Alike(k, l)
    ensures Alike(EmitField(f, k), EmitField(f, l))
    decreases f
  {
    hide Core, Alike;
    ExprThen(f.value, k, l);
    Next(Sign(Equal), EmitExpr(f.value, k), EmitExpr(f.value, l));
    var (rest, rest') := (Tok(Sign(Equal), EmitExpr(f.value, k)), Tok(Sign(Equal), EmitExpr(f.value, l)));
    match f
    case Bracketed(key, _) =>
      var (close, close') := (Tok(Sign(RightBracket), rest), Tok(Sign(RightBracket), rest'));
      Next(Sign(RightBracket), rest, rest');
      ExprThen(key, close, close');
      Next(Sign(LeftBracket), EmitExpr(key, close), EmitExpr(key, close'));
    case Named(name, _) => Next(Identifier(name), rest, rest');
    case Positional(_) =>
  }

  lemma {:induction false} ArmsThen(arms: ExprArms, k: Tokens, l: Tokens)
    requires Alike(k, l)
    ensures Alike(EmitArms(arms, k), EmitArms(arms, l))
    decreases arms
  {
    hide Core, Alike;
    match arms
    case ElseExpr(expr) =>
      ExprThen(expr, k, l);
      Next(Word(KwElse), EmitExpr(expr, k), EmitExpr(expr, l));
    case ElseIfExpr(condition, expr, rest) =>
      ArmsThen(rest, k, l);
      ExprThen(expr, EmitArms(rest, k), EmitArms(rest, l));
      var (chosen, chosen') := (EmitExpr(expr, EmitArms(rest, k)), EmitExpr(expr, EmitArms(rest, l)));
      Next(Word(KwThen), chosen, chosen');
      ExprThen(condition, Tok(Word(KwThen), chosen), Tok(Word(KwThen), chosen'));
      Next(Word(KwElseIf), EmitExpr(condition, Tok(Word(KwThen), chosen)),
           EmitExpr(condition, Tok(Word(KwThen), chosen')));
  }

  lemma {:induction false} HolesThen(holes: Holes, k: Tokens, l: Tokens)
    requires Alike(k, l)
    ensures Alike(EmitHoles(holes, k), EmitHoles(holes, l))
    decreases holes
  {
    match holes
    case LastHole(expr, text) => ExprThen(expr, Tok(InterpEnd(text), k), Tok(InterpEnd(text), l));
    case MoreHoles(expr, text, rest) =>
      HolesThen(rest, k, l);
      ExprThen(expr, Tok(InterpMid(text), EmitHoles(rest, k)), Tok(InterpMid(text), EmitHoles(rest, l)));
  }

  lemma {:induction false} NamesThen(names: Names, separator: Symbol, k: Tokens, l: Tokens)
    requires Alike(k, l)
    ensures Alike(EmitNames(names, separator, k), EmitNames(names, separator, l))
    decreases names
  {
    if names.MoreNames? {
      NamesThen(names.tail, separator, k, l);
    }
  }

  lemma ParamsThen(params: Names, vararg: bool, k: Tokens, l: Tokens)
    requires Alike(k, l)
    ensures Alike(EmitParams(params, vararg, k), EmitParams(params, vararg, l))
  {
    NamesThen(params, Comma, k, l);
    NamesThen(params, Comma, Tok(Sign(DotDotDot), k), Tok(Sign(DotDotDot), l));
    NamesThen(params, Comma, Tok(Sign(Comma), Tok(Sign(DotDotDot), k)), Tok(Sign(Comma), Tok(Sign(DotDotDot), l)));
  }

  lemma {:induction false} BodyThen(body: Body, k: Tokens, l: Tokens)
    requires Alike(k, l)
    ensures Alike(EmitBody(body, k), EmitBody(body, l))
    decreases body
  {
    var (end, end') := (Tok(Word(KwEnd), k), Tok(Word(KwEnd), l));
    BlockThen(body.block, end, end');
    ParamsThen(body.params, body.vararg, Tok(Sign(RightParen), EmitBlock(body.block, end)),
               Tok(Sign(RightParen), EmitBlock(body.block, end')));
  }

  lemma {:induction false} BlockThen(b: Block, k: Tokens, l: Tokens)
    requires Alike(k, l)
    ensures Alike(EmitBlock(b, k), EmitBlock(b, l))
    decreases b, 0
  {
    if b.last.Return? {
      ExprsThen(b.last.exprs, k, l);
    }
    StmtsThen(b.stmts, true, true, EmitLast(b.last, k), EmitLast(b.last, l));
  }

  /** A written guard is a separator. */
  lemma {:induction false} StmtsThen(ss: Stmts, safe: bool, safe': bool, k: Tokens, l: Tokens)
    requires Alike(k, l)
    ensures Alike(EmitStmts(ss, safe, k), EmitStmts(ss, safe', l))
    decreases ss
  {
    if ss.MoreStmts? {
      var empty := ss.head.Empty?;
      StmtsThen(ss.tail, empty, empty, k, l);
      StmtThen(ss.head, EmitStmts(ss.tail, empty, k), EmitStmts(ss.tail, empty, l));
    }
  }

  lemma {:induction false} BindingsThen(bindings: Bindings, k: Tokens, l: Tokens)
    requires Alike(k, l)
    ensures Alike(EmitBindings(bindings, k), EmitBindings(bindings, l))
    decreases bindings
  {
    if bindings.MoreBindings? {
      BindingsThen(bindings.tail, k, l);
      BindingThen(bindings.head, k, l);
      BindingThen(bindings.head, Tok(Sign(Comma), EmitBindings(bindings.tail, k)),
                  Tok(Sign(Comma), EmitBindings(bindings.tail, l)));
    }
  }

  lemma BindingThen(b: Binding, k: Tokens, l: Tokens)
    requires Alike(k, l)
    ensures Alike(EmitBinding(b, k), EmitBinding(b, l))
  {
    hide Core, Alike;
    if b.attribute.Some? {
      Next(Sign(Greater), k, l);
      var (close, close') := (Tok(Sign(Greater), k), Tok(Sign(Greater), l));
      var (name, name') := (Tok(Identifier(b.attribute.value), close), Tok(Identifier(b.attribute.value), close'));
      Next(Identifier(b.attribute.value), close, close');
      Next(Sign(Less), name, name');
      Next(Identifier(b.name), Tok(Sign(Less), name), Tok(Sign(Less), name'));
    } else {
      Next(Identifier(b.name), k, l);
    }
  }

  lemma {:induction false} LoopBodyThen(block: Block, k: Tokens, l: Tokens)
    requires Alike(k, l)
    ensures Alike(EmitLoopBody(block, k), EmitLoopBody(block, l))
    decreases block, 1
  {
    BlockThen(block, Tok(Word(KwEnd), k), Tok(Word(KwEnd), l));
  }

  lemma {:induction false} StepThen(step: Option<Expr>, k: Tokens, l: Tokens)
    requires Alike(k, l) && k.Tok? && l.Tok?
    ensures Alike(EmitStep(step, k), EmitStep(step, l))
    decreases step
  {
    if step.Some? {
      ExprThen(step.value, k, l);
    }
  }

  lemma {:induction false} StmtThen(s: Stmt, k: Tokens, l: Tokens)
    requires Alike(k, l)
    ensures Alike(EmitStmt(s, k), EmitStmt(s, l))
    decreases s, 1
  {
    hide Core, Alike, EmitBlock, EmitLoopBody, EmitBody, EmitStep, EmitStmtArms, EmitMethod, CompoundToken,
         EmitBindings,
         EmitNames;
    match s
    case Assign(targets, values) =>
      ExprsThen(values, k, l);
      Next(Sign(Equal), EmitExprs(values, k), EmitExprs(values, l));
      ExprsThen(targets, Tok(Sign(Equal), EmitExprs(values, k)), Tok(Sign(Equal), EmitExprs(values, l)));
    case CallStmt(call) => ExprThen(call, k, l);
    case Do(block) => LoopBodyThen(block, k, l);
    case While(condition, block) =>
      LoopBodyThen(block, k, l);
      ExprThen(condition, EmitLoopBody(block, k), EmitLoopBody(block, l));
      Next(Word(KwWhile), EmitExpr(condition, EmitLoopBody(block, k)), EmitExpr(condition, EmitLoopBody(block, l)));
    case Repeat(block, condition) =>
      ExprThen(condition, k, l);
      var (until, until') := (Tok(Word(KwUntil), EmitExpr(condition, k)), Tok(Word(KwUntil), EmitExpr(condition, l)));
      Next(Word(KwUntil), EmitExpr(condition, k), EmitExpr(condition, l));
      BlockThen(block, until, until');
      Next(Word(KwRepeat), EmitBlock(block, until), EmitBlock(block, until'));
    case If(condition, block, arms) =>
      StmtArmsThen(arms, k, l);
      BlockThen(block, EmitStmtArms(arms, k), EmitStmtArms(arms, l));
      var (chosen, chosen') := (EmitBlock(block, EmitStmtArms(arms, k)), EmitBlock(block, EmitStmtArms(arms, l)));
      Next(Word(KwThen), chosen, chosen');
      ExprThen(condition, Tok(Word(KwThen), chosen), Tok(Word(KwThen), chosen'));
      Next(Word(KwIf), EmitExpr(condition, Tok(Word(KwThen), chosen)), EmitExpr(condition, Tok(Word(KwThen), chosen')));
    case NumericFor(name, start, limit, step, block) => ForThen(name, start, limit, step, block, k, l);
    case GenericFor(names, exprs, block) =>
      LoopBodyThen(block, k, l);
      var (rest, rest') := (EmitLoopBody(block, k), EmitLoopBody(block, l));
      ExprsThen(exprs, rest, rest');
      Next(Word(KwIn), EmitExprs(exprs, rest), EmitExprs(exprs, rest'));
      var (source, source') := (Tok(Word(KwIn), EmitExprs(exprs, rest)), Tok(Word(KwIn), EmitExprs(exprs, rest')));
      NamesThen(names, Comma, source, source');
      Next(Word(KwFor), EmitNames(names, Comma, source), EmitNames(names, Comma, source'));
    case FunctionDecl(path, selector, body) =>
      BodyThen(body, k, l);
      MethodThen(selector, EmitBody(body, k), EmitBody(body, l));
      var (own, own') := (EmitMethod(selector, EmitBody(body, k)), EmitMethod(selector, EmitBody(body, l)));
      NamesThen(path, Dot, own, own');
      Next(Word(KwFunction), EmitNames(path, Dot, own), EmitNames(path, Dot, own'));
    case LocalFunction(name, body) =>
      BodyThen(body, k, l);
      var (named, named') := (Tok(Identifier(name), EmitBody(body, k)), Tok(Identifier(name), EmitBody(body, l)));
      Next(Identifier(name), EmitBody(body, k), EmitBody(body, l));
      Next(Word(KwFunction), named, named');
      Next(Word(KwLocal), Tok(Word(KwFunction), named), Tok(Word(KwFunction), named'));
    case Local(bindings, values) =>
      ExprsThen(values, k, l);
      Next(Sign(Equal), EmitExprs(values, k), EmitExprs(values, l));
      var (rest, rest') := if values.NoExprs? then (k, l)
                           else (Tok(Sign(Equal), EmitExprs(values, k)), Tok(Sign(Equal), EmitExprs(values, l)));
      BindingsThen(bindings, rest, rest');
      Next(Word(KwLocal), EmitBindings(bindings, rest), EmitBindings(bindings, rest'));
    case Compound(target, op, value) =>
      ExprThen(value, k, l);
      Next(CompoundToken(op), EmitExpr(value, k), EmitExpr(value, l));
      ExprThen(target, Tok(CompoundToken(op), EmitExpr(value, k)), Tok(CompoundToken(op), EmitExpr(value, l)));
    case _ => SimpleThen(s, k, l);
  }

  lemma SimpleThen(s: Stmt, k: Tokens, l: Tokens)
    requires Alike(k, l) && (s.Empty? || s.Goto? || s.Label? || s.Break?)
    ensures Alike(EmitStmt(s, k), EmitStmt(s, l))
  {
    hide Core, Alike;
    match s
    case Empty => Next(Sign(Semicolon), k, l);
    case Break => Next(Word(KwBreak), k, l);
    case Goto(name) =>
      Next(Identifier(name), k, l);
      Next(Word(KwGoto), Tok(Identifier(name), k), Tok(Identifier(name), l));
    case Label(name) =>
      var (close, close') := (Tok(Sign(DoubleColon), k), Tok(Sign(DoubleColon), l));
      Next(Sign(DoubleColon), k, l);
      Next(Identifier(name), close, close');
      Next(Sign(DoubleColon), Tok(Identifier(name), close), Tok(Identifier(name), close'));
  }

  lemma {:induction false} ForThen(name: string, start: Expr, limit: Expr, step: Option<Expr>, block: Block, k: Tokens,
                                   l: Tokens)
    requires Alike(k, l)
    ensures Alike(EmitStmt(NumericFor(name, start, limit, step, block), k),
                  EmitStmt(NumericFor(name, start, limit, step, block), l))
    decreases NumericFor(name, start, limit, step, block), 0
  {
    hide Core, Alike, EmitLoopBody, EmitStep;
    LoopBodyThen(block, k, l);
    var (rest, rest') := (EmitLoopBody(block, k), EmitLoopBody(block, l));
    StepThen(step, rest, rest');
    ExprThen(limit, EmitStep(step, rest), EmitStep(step, rest'));
    var (to, to') := (EmitExpr(limit, EmitStep(step, rest)), EmitExpr(limit, EmitStep(step, rest')));
    Next(Sign(Comma), to, to');
    ExprThen(start, Tok(Sign(Comma), to), Tok(Sign(Comma), to'));
    var (bounds, bounds') := (EmitExpr(start, Tok(Sign(Comma), to)), EmitExpr(start, Tok(Sign(Comma), to')));
    Next(Sign(Equal), bounds, bounds');
    Next(Identifier(name), Tok(Sign(Equal), bounds), Tok(Sign(Equal), bounds'));
    Next(Word(KwFor), Tok(Identifier(name), Tok(Sign(Equal), bounds)),
         Tok(Identifier(name), Tok(Sign(Equal), bounds')));
  }

  lemma {:induction false} StmtArmsThen(arms: StmtArms, k: Tokens, l: Tokens)
    requires Alike(k, l)
    ensures Alike(EmitStmtArms(arms, k), EmitStmtArms(arms, l))
    decreases arms
  {
    hide Core, Alike, EmitBlock;
    match arms
    case EndIf => Next(Word(KwEnd), k, l);
    case Else(block) =>
      var (end, end') := (Tok(Word(KwEnd), k), Tok(Word(KwEnd), l));
      Next(Word(KwEnd), k, l);
      BlockThen(block, end, end');
      Next(Word(KwElse), EmitBlock(block, end), EmitBlock(block, end'));
    case ElseIf(condition, block, rest) =>
      StmtArmsThen(rest, k, l);
      BlockThen(block, EmitStmtArms(rest, k), EmitStmtArms(rest, l));
      var (chosen, chosen') := (EmitBlock(block, EmitStmtArms(rest, k)), EmitBlock(block, EmitStmtArms(rest, l)));
      Next(Word(KwThen), chosen, chosen');
      ExprThen(condition, Tok(Word(KwThen), chosen), Tok(Word(KwThen), chosen'));
      Next(Word(KwElseIf), EmitExpr(condition, Tok(Word(KwThen), chosen)),
           EmitExpr(condition, Tok(Word(KwThen), chosen')));
  }

  // ----- types -----

  /** The text of a type that `ts` starts with. */
  predicate TypeKept(ts: Tokens, r: Result<Type>) { r.Ok? ==> Alike(ts, EmitType(r.value, r.rest)) }

  lemma {:induction false} TypeIsKept(ts: Tokens)
    ensures TypeKept(ts, ParseType(ts))
    decreases Size(ts), 4
  {
    hide ParseIntersection, ParseUnionTail, Core, Size;
    var first := ParseIntersection(ts);
    IntersectionIsKept(ts);
    if first.Ok? && AtSign(first.rest, Pipe) {
      UnionTailIsKept(first.rest);
      var more := ParseUnionTail(first.rest);
      if more.Ok? {
        TypeThen(first.value, first.rest, MoreMembers(Sign(Pipe), more.value, more.rest));
        MembersEmit(first.value, more.value, more.rest);
      }
    }
  }

  /** A separator and types behind it, or nothing. */
  function MoreMembers(separator: Token, types: Types, k: Tokens): Tokens {
    if types.NoTypes? then k else Tok(separator, EmitTypes(types, separator, k))
  }

  lemma MembersEmit(t: Type, types: Types, k: Tokens)
    ensures EmitType(Union(MoreTypes(t, types)), k) == EmitType(t, MoreMembers(Sign(Pipe), types, k))
    ensures EmitType(Intersection(MoreTypes(t, types)), k) == EmitType(t, MoreMembers(Sign(Ampersand), types, k))
    ensures forall separator ::
              EmitTypes(MoreTypes(t, types), separator, k) == EmitType(t, MoreMembers(separator, types, k))
  {
  }

  lemma {:induction false} UnionTailIsKept(ts: Tokens)
    ensures var r := ParseUnionTail(ts); r.Ok? ==> Alike(ts, MoreMembers(Sign(Pipe), r.value, r.rest))
    decreases Size(ts), 0
  {
    hide ParseIntersection, Core, Size;
    if AtSign(ts, Pipe) {
      SmallerTail(ts);
      var next := ParseIntersection(ts.tail);
      IntersectionIsKept(ts.tail);
      if next.Ok? {
        UnionTailIsKept(next.rest);
        var more := ParseUnionTail(next.rest);
        if more.Ok? {
          var rest := MoreMembers(Sign(Pipe), more.value, more.rest);
          TypeThen(next.value, next.rest, rest);
          Next(Sign(Pipe), ts.tail, EmitType(next.value, rest));
          MembersEmit(next.value, more.value, more.rest);
        }
      }
    }
  }

  lemma SmallerTail(ts: Tokens)
    requires ts.Tok?
    ensures Size(ts.tail) < Size(ts) && ts == Tok(ts.head, ts.tail)
  {
  }

  lemma {:induction false} IntersectionIsKept(ts: Tokens)
    ensures TypeKept(ts, ParseIntersection(ts))
    decreases Size(ts), 3
  {
    hide ParsePostfixType, ParseIntersectionTail, Core, Size;
    var first := ParsePostfixType(ts);
    PostfixIsKept(ts);
    if first.Ok? && AtSign(first.rest, Ampersand) {
      IntersectionTailIsKept(first.rest);
      var more := ParseIntersectionTail(first.rest);
      if more.Ok? {
        TypeThen(first.value, first.rest, MoreMembers(Sign(Ampersand), more.value, more.rest));
        MembersEmit(first.value, more.value, more.rest);
      }
    }
  }

  lemma {:induction false} IntersectionTailIsKept(ts: Tokens)
    ensures var r := ParseIntersectionTail(ts); r.Ok? ==> Alike(ts, MoreMembers(Sign(Ampersand), r.value, r.rest))
    decreases Size(ts), 0
  {
    hide ParsePostfixType, Core, Size;
    if AtSign(ts, Ampersand) {
      SmallerTail(ts);
      var next := ParsePostfixType(ts.tail);
      PostfixIsKept(ts.tail);
      if next.Ok? {
        IntersectionTailIsKept(next.rest);
        var more := ParseIntersectionTail(next.rest);
        if more.Ok? {
          var rest := MoreMembers(Sign(Ampersand), more.value, more.rest);
          TypeThen(next.value, next.rest, rest);
          Next(Sign(Ampersand), ts.tail, EmitType(next.value, rest));
          MembersEmit(next.value, more.value, more.rest);
        }
      }
    }
  }

  lemma {:induction false} PostfixIsKept(ts: Tokens)
    ensures TypeKept(ts, ParsePostfixType(ts))
    decreases Size(ts), 2
  {
    hide ParsePrimaryType, Core, Size, ParseQuestions;
    PrimaryTypeIsKept(ts);
    if ParsePrimaryType(ts).Ok? {
      QuestionsAreKept(ParsePrimaryType(ts).value, ParsePrimaryType(ts).rest);
    }
  }

  lemma {:induction false} QuestionsAreKept(t: Type, ts: Tokens)
    ensures ParseQuestions(t, ts).Ok?
            && EmitType(t, ts) == EmitType(ParseQuestions(t, ts).value, ParseQuestions(t, ts).rest)
    decreases ts
  {
    hide Size;
    if AtSign(ts, Question) {
      QuestionsAreKept(Optional(t), ts.tail);
    }
  }

  lemma {:induction false} PrimaryTypeIsKept(ts: Tokens)
    ensures TypeKept(ts, ParsePrimaryType(ts))
    decreases Size(ts), 1
  {
    hide ParseTypeArgs, ParseType, Core, Size;
    var r := ParsePrimaryType(ts);
    if r.Ok? {
      SmallerTail(ts);
      if AtName(ts) {
        if NextSign(ts, Less) {
          SmallerTail(ts.tail);
          TypeArgsAreKept(ts.tail.tail);
          var args := ParseTypeArgs(ts.tail.tail);
          var rest := EmitTypes(args.value, Sign(Comma), Tok(Sign(Greater), args.rest));
          Next(Sign(Less), ts.tail.tail, rest);
          Next(ts.head, ts.tail, Tok(Sign(Less), rest));
        }
      } else {
        TypeIsKept(ts.tail);
        var inner := ParseType(ts.tail);
        SmallerTail(inner.rest);
        Next(Sign(LeftParen), ts.tail, EmitType(inner.value, inner.rest));
      }
    }
  }

  lemma CloseIsKept(ts: Tokens)
    ensures CloseAngle(ts).Ok? ==> Alike(ts, Tok(Sign(Greater), CloseAngle(ts).rest))
  {
  }

  lemma {:induction false} TypeArgsAreKept(ts: Tokens)
    ensures var r := ParseTypeArgs(ts);
            r.Ok? ==> Alike(ts, EmitTypes(r.value, Sign(Comma), Tok(Sign(Greater), r.rest)))
    decreases Size(ts), 5
  {
    hide ParseType, Core, Size, CloseAngle;
    if AtSign(ts, Greater) || AtSign(ts, ShiftRight) || AtSign(ts, GreaterEqual) {
      CloseIsKept(ts);
      ClosesThere(ts);
    } else {
      var first := ParseType(ts);
      TypeIsKept(ts);
      if first.Ok? {
        if AtSign(first.rest, Comma) {
          SmallerTail(first.rest);
          TypeArgsAreKept(first.rest.tail);
          var more := ParseTypeArgs(first.rest.tail);
          if more.Ok? {
            var close := Tok(Sign(Greater), more.rest);
            var rest := EmitTypes(more.value, Sign(Comma), close);
            Next(Sign(Comma), first.rest.tail, rest);
            CommaDropped(rest);
            TypeThen(first.value, first.rest, if more.value.NoTypes? then close else Tok(Sign(Comma), rest));
          }
        } else {
          var close := CloseAngle(first.rest);
          CloseIsKept(first.rest);
          if close.Ok? {
            TypeThen(first.value, first.rest, Tok(Sign(Greater), close.rest));
          }
        }
      }
    }
  }

  lemma ClosesThere(ts: Tokens)
    requires AtSign(ts, Greater) || AtSign(ts, ShiftRight) || AtSign(ts, GreaterEqual)
    ensures CloseAngle(ts).Ok?
  {
  }

  lemma CommaDropped(k: Tokens)
    ensures Alike(Tok(Sign(Comma), k), k) && Alike(Tok(Sign(Semicolon), k), k)
  {
  }

  // ----- expressions -----

  predicate ExprKept(ts: Tokens, r: Result<Expr>) { r.Ok? ==> Alike(ts, EmitExpr(r.value, r.rest)) }

  lemma {:induction false} ExprIsKept(v: Version, min: nat, ts: Tokens)
    ensures ExprKept(ts, ParseExpr(v, min, ts))
    decreases Size(ts), 5
  {
    hide ParsePrefix, ParseOperators, Core, Size;
    var left := ParsePrefix(v, ts);
    PrefixIsKept(v, ts);
    if left.Ok? {
      OperatorsAreKept(v, left.value, min, left.rest);
    }
  }

  lemma {:induction false} OperatorsAreKept(v: Version, left: Expr, min: nat, ts: Tokens)
    ensures ExprKept(EmitExpr(left, ts), ParseOperators(v, left, min, ts))
    decreases Size(ts), 0
  {
    hide ParseExpr, Core, Size, TokenBinds, BinOpOf, BinToken, RightMinimum, EmitExpr;
    if Binds(v, min, ts) {
      var op := ParsedForm.BindingOperator(v, min, ts.head);
      SmallerTail(ts);
      var right := ParseExpr(v, RightMinimum(op), ts.tail);
      ExprIsKept(v, RightMinimum(op), ts.tail);
      if right.Ok? {
        var rest := EmitExpr(right.value, right.rest);
        Next(BinToken(op), ts.tail, rest);
        ExprThen(left, ts, Tok(BinToken(op), rest));
        BinaryEmits(left, op, right.value, right.rest);
        OperatorsAreKept(v, Binary(left, op, right.value), min, right.rest);
      }
    }
  }

  lemma BinaryEmits(left: Expr, op: BinOp, right: Expr, k: Tokens)
    ensures EmitExpr(Binary(left, op, right), k) == EmitExpr(left, Tok(BinToken(op), EmitExpr(right, k)))
  {
  }

  lemma UnaryWritten(t: Token)
    requires UnOpOf(t).Some?
    ensures UnToken(UnOpOf(t).value) == t
  {
  }

  lemma {:induction false} PrefixIsKept(v: Version, ts: Tokens)
    ensures ExprKept(ts, ParsePrefix(v, ts))
    decreases Size(ts), 4
  {
    hide ParseExpr, ParsePrimary, ParseAssertion, Core, Size, UnOpOf, UnToken;
    if ts.Tok? && UnOpOf(ts.head).Some? {
      SmallerTail(ts);
      UnaryWritten(ts.head);
      ExprIsKept(v, UNARY_PRECEDENCE, ts.tail);
      var operand := ParseExpr(v, UNARY_PRECEDENCE, ts.tail);
      if operand.Ok? {
        Next(ts.head, ts.tail, EmitExpr(operand.value, operand.rest));
      }
    } else {
      var primary := ParsePrimary(v, ts);
      PrimaryIsKept(v, ts);
      if primary.Ok? {
        AssertionIsKept(v, primary.value, primary.rest);
      }
    }
  }

  lemma CastIsKept(e: Expr, ts: Tokens, t: Type, k: Tokens)
    requires AtSign(ts, DoubleColon) && Alike(ts.tail, EmitType(t, k))
    ensures Alike(EmitExpr(e, ts), EmitExpr(Cast(e, t), k))
  {
    hide Core, EmitType;
    Next(ts.head, ts.tail, EmitType(t, k));
    ExprThen(e, ts, Tok(ts.head, EmitType(t, k)));
  }

  lemma AssertionIsKept(v: Version, e: Expr, ts: Tokens)
    ensures ExprKept(EmitExpr(e, ts), ParseAssertion(v, e, ts))
  {
    hide ParseType, Core, Size, EmitExpr, EmitType;
    if v.Luau? && AtSign(ts, DoubleColon) {
      TypeIsKept(ts.tail);
      var annotation := ParseType(ts.tail);
      if annotation.Ok? {
        CastIsKept(e, ts, annotation.value, annotation.rest);
      }
    }
  }

  lemma TableEmits(fields: Fields, k: Tokens)
    ensures EmitExpr(Table(fields), k) == Tok(Sign(LeftBrace), EmitFields(fields, Tok(Sign(RightBrace), k)))
    ensures EmitArgs(TableArg(fields), k) == Tok(Sign(LeftBrace), EmitFields(fields, Tok(Sign(RightBrace), k)))
  {
    hide EmitFields;
  }

  lemma {:induction false} PrimaryIsKept(v: Version, ts: Tokens)
    ensures ExprKept(ts, ParsePrimary(v, ts))
    decreases Size(ts), 3
  {
    hide ParseSuffixes, ParseHoles, ParseWordPrimary, ParseFields, ParseExpr, Core, Size, EmitFields, EmitHoles;
    if ParsePrimary(v, ts).Ok? {
      SmallerTail(ts);
      if ts.head.Identifier? {
        SuffixesAreKept(v, Name(ts.head.name), ts.tail);
      } else if ts.head.InterpBegin? {
        HolesAreKept(v, ts.tail);
        var holes := ParseHoles(v, ts.tail);
        Next(ts.head, ts.tail, EmitHoles(holes.value, holes.rest));
      } else if ts.head.Word? {
        WordPrimaryIsKept(v, ts.head.keyword, ts);
      } else if ts.head == Sign(LeftBrace) {
        FieldsAreKept(v, ts.tail);
        var fields := ParseFields(v, ts.tail);
        Next(ts.head, ts.tail, EmitFields(fields.value, Tok(Sign(RightBrace), fields.rest)));
        TableEmits(fields.value, fields.rest);
      } else if ts.head == Sign(LeftParen) {
        ExprIsKept(v, 0, ts.tail);
        var inner := ParseExpr(v, 0, ts.tail);
        SmallerTail(inner.rest);
        Next(ts.head, ts.tail, EmitExpr(inner.value, inner.rest));
        SuffixesAreKept(v, Paren(inner.value), inner.rest.tail);
      }
    }
  }

  lemma {:induction false} WordPrimaryIsKept(v: Version, w: Keyword, ts: Tokens)
    requires ts.Tok? && ts.head == Word(w)
    ensures ExprKept(ts, ParseWordPrimary(v, w, ts))
    decreases Size(ts), 2
  {
    hide ParseBody, ParseIfExpr, Core, Size;
    SmallerTail(ts);
    if w.KwFunction? {
      BodyIsKept(v, ts.tail);
      var body := ParseBody(v, ts.tail);
      if body.Ok? {
        Next(ts.head, ts.tail, EmitBody(body.value, body.rest));
      }
    } else if w.KwIf? {
      IfExprIsKept(v, ts.tail);
      var choice := ParseIfExpr(v, ts.tail);
      if choice.Ok? {
        Next(ts.head, ts.tail, EmitExpr(choice.value, choice.rest).tail);
      }
    }
  }

  /** A condition, a `then` and what it chooses. */
  lemma ThenKept(condition: Expr, then_: Tokens, chosen: Tokens)
    requires AtWord(then_, KwThen) && Alike(then_.tail, chosen)
    ensures Alike(EmitExpr(condition, then_), EmitExpr(condition, Tok(Word(KwThen), chosen)))
  {
    hide Core;
    Next(Word(KwThen), then_.tail, chosen);
    ExprThen(condition, then_, Tok(Word(KwThen), chosen));
  }

  lemma {:induction false} IfExprIsKept(v: Version, ts: Tokens)
    ensures var r := ParseIfExpr(v, ts);
            r.Ok? ==> r.value.IfExpr? && Alike(ts, EmitExpr(r.value, r.rest).tail)
    decreases Size(ts), 6
  {
    hide ParseExpr, ParseArms, Core, Size;
    var r := ParseIfExpr(v, ts);
    if r.Ok? {
      var condition := ParseExpr(v, 0, ts);
      ExprIsKept(v, 0, ts);
      SmallerTail(condition.rest);
      var thenExpr := ParseExpr(v, 0, condition.rest.tail);
      ExprIsKept(v, 0, condition.rest.tail);
      ArmsAreKept(v, thenExpr.rest);
      var arms := ParseArms(v, thenExpr.rest);
      var rest := EmitArms(arms.value, arms.rest);
      ExprThen(thenExpr.value, thenExpr.rest, rest);
      ThenKept(condition.value, condition.rest, EmitExpr(thenExpr.value, rest));
    }
  }

  lemma {:induction false} ArmsAreKept(v: Version, ts: Tokens)
    ensures var r := ParseArms(v, ts); r.Ok? ==> Alike(ts, EmitArms(r.value, r.rest))
    decreases Size(ts), 0
  {
    hide ParseExpr, Core, Size;
    var r := ParseArms(v, ts);
    if r.Ok? {
      SmallerTail(ts);
      ExprIsKept(v, 0, ts.tail);
      if AtWord(ts, KwElseIf) {
        var condition := ParseExpr(v, 0, ts.tail);
        SmallerTail(condition.rest);
        var expr := ParseExpr(v, 0, condition.rest.tail);
        ExprIsKept(v, 0, condition.rest.tail);
        ArmsAreKept(v, expr.rest);
        var more := ParseArms(v, expr.rest);
        var rest := EmitArms(more.value, more.rest);
        ExprThen(expr.value, expr.rest, rest);
        ThenKept(condition.value, condition.rest, EmitExpr(expr.value, rest));
        Next(ts.head, ts.tail, EmitExpr(condition.value, Tok(Word(KwThen), EmitExpr(expr.value, rest))));
      } else {
        Next(ts.head, ts.tail, EmitExpr(ParseExpr(v, 0, ts.tail).value, r.rest));
      }
    }
  }

  lemma {:induction false} HolesAreKept(v: Version, ts: Tokens)
    ensures var r := ParseHoles(v, ts); r.Ok? ==> Alike(ts, EmitHoles(r.value, r.rest))
    decreases Size(ts), 6
  {
    hide ParseExpr, Core, Size;
    var r := ParseHoles(v, ts);
    if r.Ok? {
      var expr := ParseExpr(v, 0, ts);
      ExprIsKept(v, 0, ts);
      SmallerTail(expr.rest);
      if expr.rest.head.InterpMid? {
        HolesAreKept(v, expr.rest.tail);
        var more := ParseHoles(v, expr.rest.tail);
        var rest := EmitHoles(more.value, more.rest);
        Next(expr.rest.head, expr.rest.tail, rest);
        ExprThen(expr.value, expr.rest, Tok(expr.rest.head, rest));
      }
    }
  }

  lemma SuffixesEmit(e: Expr, name: string, index: Expr, selector: Option<string>, args: Args, k: Tokens)
    ensures EmitExpr(FieldAccess(e, name), k) == EmitExpr(e, Tok(Sign(Dot), Tok(Identifier(name), k)))
    ensures EmitExpr(Index(e, index), k)
            == EmitExpr(e, Tok(Sign(LeftBracket), EmitExpr(index, Tok(Sign(RightBracket), k))))
    ensures EmitExpr(Call(e, selector, args), k)
            == EmitExpr(e, if selector.None? then EmitArgs(args, k)
                           else Tok(Sign(Colon), Tok(Identifier(selector.value), EmitArgs(args, k))))
  {
    hide EmitArgs;
  }

  lemma FieldSuffix(e: Expr, ts: Tokens)
    requires AtSign(ts, Dot) && AtName(ts.tail)
    ensures EmitExpr(e, ts) == EmitExpr(FieldAccess(e, ts.tail.head.name), ts.tail.tail)
  {
    SuffixesEmit(e, ts.tail.head.name, Nil, None, StringArg(""), ts.tail.tail);
  }

  lemma IndexSuffix(e: Expr, ts: Tokens, index: Expr, k: Tokens)
    requires AtSign(ts, LeftBracket) && Alike(ts.tail, EmitExpr(index, Tok(Sign(RightBracket), k)))
    ensures Alike(EmitExpr(e, ts), EmitExpr(Index(e, index), k))
  {
    hide Core, EmitExpr;
    var rest := EmitExpr(index, Tok(Sign(RightBracket), k));
    Next(ts.head, ts.tail, rest);
    ExprThen(e, ts, Tok(ts.head, rest));
    SuffixesEmit(e, "", index, None, StringArg(""), k);
  }

  lemma MethodSuffix(e: Expr, ts: Tokens, args: Args, k: Tokens)
    requires AtSign(ts, Colon) && AtName(ts.tail) && Alike(ts.tail.tail, EmitArgs(args, k))
    ensures Alike(EmitExpr(e, ts), EmitExpr(Call(e, Some(ts.tail.head.name), args), k))
  {
    hide Core, EmitExpr, EmitArgs;
    var rest := EmitArgs(args, k);
    Next(ts.tail.head, ts.tail.tail, rest);
    Next(ts.head, ts.tail, Tok(ts.tail.head, rest));
    ExprThen(e, ts, Tok(ts.head, Tok(ts.tail.head, rest)));
    SuffixesEmit(e, "", Nil, Some(ts.tail.head.name), args, k);
  }

  lemma {:induction false} SuffixesAreKept(v: Version, e: Expr, ts: Tokens)
    ensures ExprKept(EmitExpr(e, ts), ParseSuffixes(v, e, ts))
    decreases Size(ts), 1
  {
    hide ParseExpr, ParseArgs, Core, Size, EmitArgs, EmitExpr, AtInstantiation, StartsArgs;
    if ParseSuffixes(v, e, ts).Ok? {
      if AtSign(ts, Dot) {
        SmallerTail(ts);
        SmallerTail(ts.tail);
        FieldSuffix(e, ts);
        SuffixesAreKept(v, FieldAccess(e, ts.tail.head.name), ts.tail.tail);
      } else if AtSign(ts, LeftBracket) {
        SmallerTail(ts);
        ExprIsKept(v, 0, ts.tail);
        var index := ParseExpr(v, 0, ts.tail);
        SmallerTail(index.rest);
        IndexSuffix(e, ts, index.value, index.rest.tail);
        SuffixesAreKept(v, Index(e, index.value), index.rest.tail);
      } else if AtSign(ts, Colon) {
        SmallerTail(ts);
        SmallerTail(ts.tail);
        ArgsAreKept(v, ts.tail.tail);
        var args := ParseArgs(v, ts.tail.tail);
        MethodSuffix(e, ts, args.value, args.rest);
        SuffixesAreKept(v, Call(e, Some(ts.tail.head.name), args.value), args.rest);
      } else if ts.Tok? && StartsArgs(ts.head) {
        ArgsAreKept(v, ts);
        var args := ParseArgs(v, ts);
        ExprThen(e, ts, EmitArgs(args.value, args.rest));
        SuffixesEmit(e, "", Nil, None, args.value, args.rest);
        SuffixesAreKept(v, Call(e, None, args.value), args.rest);
      }
    }
  }

  lemma {:induction false} ArgsAreKept(v: Version, ts: Tokens)
    ensures var r := ParseArgs(v, ts); r.Ok? ==> Alike(ts, EmitArgs(r.value, r.rest))
    decreases Size(ts), 0
  {
    hide ParseExprs, ParseFields, Core, Size;
    var r := ParseArgs(v, ts);
    if r.Ok? {
      SmallerTail(ts);
      if AtSign(ts, LeftParen) {
        if AtSign(ts.tail, RightParen) {
          SmallerTail(ts.tail);
        } else {
          ExprsAreKept(v, ts.tail);
          var exprs := ParseExprs(v, ts.tail);
          SmallerTail(exprs.rest);
          Next(ts.head, ts.tail, EmitExprs(exprs.value, exprs.rest));
        }
      } else if AtSign(ts, LeftBrace) {
        FieldsAreKept(v, ts.tail);
        var fields := ParseFields(v, ts.tail);
        Next(ts.head, ts.tail, EmitFields(fields.value, Tok(Sign(RightBrace), fields.rest)));
        TableEmits(fields.value, fields.rest);
      }
    }
  }

  lemma {:induction false} ExprsAreKept(v: Version, ts: Tokens)
    ensures var r := ParseExprs(v, ts); r.Ok? ==> Alike(ts, EmitExprs(r.value, r.rest))
    decreases Size(ts), 6
  {
    hide ParseExpr, Core, Size;
    var first := ParseExpr(v, 0, ts);
    ExprIsKept(v, 0, ts);
    if first.Ok? && AtSign(first.rest, Comma) {
      SmallerTail(first.rest);
      ExprsAreKept(v, first.rest.tail);
      var more := ParseExprs(v, first.rest.tail);
      if more.Ok? {
        var rest := EmitExprs(more.value, more.rest);
        Next(Sign(Comma), first.rest.tail, rest);
        ExprThen(first.value, first.rest, Tok(Sign(Comma), rest));
      }
    }
  }

  lemma {:induction false} FieldsAreKept(v: Version, ts: Tokens)
    ensures var r := ParseFields(v, ts); r.Ok? ==> Alike(ts, EmitFields(r.value, Tok(Sign(RightBrace), r.rest)))
    decreases Size(ts), 7
  {
    hide ParseField, Core, Size, EmitField;
    var r := ParseFields(v, ts);
    if r.Ok? {
      if AtSign(ts, RightBrace) {
        SmallerTail(ts);
      } else {
        var field := ParseField(v, ts);
        FieldIsKept(v, ts);
        SmallerTail(field.rest);
        if AtSign(field.rest, Comma) || AtSign(field.rest, Semicolon) {
          FieldsAreKept(v, field.rest.tail);
          var more := ParseFields(v, field.rest.tail);
          var rest := EmitFields(more.value, Tok(Sign(RightBrace), more.rest));
          CommaDropped(field.rest.tail);
          CommaDropped(rest);
          FieldThen(field.value, field.rest, if more.value.NoFields? then rest else Tok(Sign(Comma), rest));
        }
      }
    }
  }

  lemma {:induction false} FieldIsKept(v: Version, ts: Tokens)
    ensures var r := ParseField(v, ts); r.Ok? ==> Alike(ts, EmitField(r.value, r.rest))
    decreases Size(ts), 6
  {
    hide ParseExpr, Core, Size;
    var r := ParseField(v, ts);
    if r.Ok? {
      if AtSign(ts, LeftBracket) {
        SmallerTail(ts);
        ExprIsKept(v, 0, ts.tail);
        var key := ParseExpr(v, 0, ts.tail);
        SmallerTail(key.rest);
        SmallerTail(key.rest.tail);
        ExprIsKept(v, 0, key.rest.tail.tail);
        var rest := EmitExpr(r.value.value, r.rest);
        Next(Sign(Equal), key.rest.tail.tail, rest);
        Next(Sign(RightBracket), key.rest.tail, Tok(Sign(Equal), rest));
        ExprThen(key.value, key.rest, Tok(Sign(RightBracket), Tok(Sign(Equal), rest)));
        Next(Sign(LeftBracket), ts.tail, EmitExpr(key.value, Tok(Sign(RightBracket), Tok(Sign(Equal), rest))));
      } else if AtName(ts) && NextSign(ts, Equal) {
        SmallerTail(ts);
        SmallerTail(ts.tail);
        ExprIsKept(v, 0, ts.tail.tail);
        var rest := EmitExpr(r.value.value, r.rest);
        Next(Sign(Equal), ts.tail.tail, rest);
        Next(ts.head, ts.tail, Tok(Sign(Equal), rest));
      } else {
        ExprIsKept(v, 0, ts);
      }
    }
  }

  // ----- statements -----

  lemma {:induction false} NamesAreKept(separator: Symbol, ts: Tokens)
    ensures var r := ParseNames(separator, ts); r.Ok? ==> ts == EmitNames(r.value, separator, r.rest)
    decreases Size(ts)
  {
    if AtName(ts) && AtSign(ts.tail, separator) {
      NamesAreKept(separator, ts.tail.tail);
    }
  }

  lemma {:induction false} ParamsAreKept(ts: Tokens)
    ensures var r := ParseParams(ts); r.Ok? ==> ts == EmitParams(r.value.0, r.value.1, Tok(Sign(RightParen), r.rest))
    decreases Size(ts)
  {
    if AtName(ts) && AtSign(ts.tail, Comma) {
      ParamsAreKept(ts.tail.tail);
    }
  }

  lemma {:induction false} BodyIsKept(v: Version, ts: Tokens)
    ensures var r := ParseBody(v, ts); r.Ok? ==> Alike(ts, EmitBody(r.value, r.rest))
    decreases Size(ts), 0
  {
    hide ParseBlock, ParseParams, Core, Size, EmitBlock, EmitParams;
    var r := ParseBody(v, ts);
    if r.Ok? {
      SmallerTail(ts);
      var none := AtSign(ts.tail, RightParen);
      var params := if none then Ok((NoNames, false), ts.tail.tail) else ParseParams(ts.tail);
      ParamsAreKept(ts.tail);
      NoParams(Tok(Sign(RightParen), params.rest));
      if none {
        SmallerTail(ts.tail);
      }
      assert ts.tail == EmitParams(params.value.0, params.value.1, Tok(Sign(RightParen), params.rest));
      BlockIsKept(v, params.rest);
      var block := ParseBlock(v, params.rest);
      SmallerTail(block.rest);
      var rest := EmitBlock(block.value, block.rest);
      Next(Sign(RightParen), params.rest, rest);
      ParamsThen(params.value.0, params.value.1, Tok(Sign(RightParen), params.rest), Tok(Sign(RightParen), rest));
      Next(Sign(LeftParen), ts.tail, EmitParams(params.value.0, params.value.1, Tok(Sign(RightParen), rest)));
    }
  }

  lemma NoParams(k: Tokens)
    ensures EmitParams(NoNames, false, k) == k
  {
  }

  predicate BlockKept(ts: Tokens, r: Result<Block>) { r.Ok? ==> Alike(ts, EmitBlock(r.value, r.rest)) }

  lemma {:induction false} BlockIsKept(v: Version, ts: Tokens)
    ensures BlockKept(ts, ParseBlock(v, ts))
    decreases Size(ts), 9
  {
    hide ParseStmts, Core, Size;
    StmtsAreKept(v, false, ts);
  }

  /** A statement in front of a block: a guard it may need is a separator. */
  lemma PrependKept(s: Stmt, b: Block, ts: Tokens, k: Tokens)
    requires Alike(ts, EmitBlock(b, k))
    ensures Alike(EmitStmt(s, ts), EmitBlock(Prepend(s, b), k))
  {
    hide Core, EmitStmt, EmitLast;
    var rest := EmitLast(b.last, k);
    StmtsThen(b.stmts, true, s.Empty?, rest, rest);
    StmtThen(s, ts, EmitStmts(b.stmts, s.Empty?, rest));
  }

  lemma {:induction false} StmtsAreKept(v: Version, separable: bool, ts: Tokens)
    ensures BlockKept(ts, ParseStmts(v, separable, ts))
    decreases Size(ts), 8
  {
    hide ParseStmt, ParseReturn, Core, Size, SkipSemicolon;
    var r := ParseStmts(v, separable, ts);
    if r.Ok? {
      if AtSign(ts, Semicolon) {
        SmallerTail(ts);
        CommaDropped(ts.tail);
        if v.HasEmptyStatement() {
          StmtsAreKept(v, separable, ts.tail);
          var more := ParseStmts(v, separable, ts.tail);
          PrependKept(Empty, more.value, ts.tail, more.rest);
        } else {
          StmtsAreKept(v, false, ts.tail);
        }
      } else if AtWord(ts, KwReturn) {
        SmallerTail(ts);
        ReturnIsKept(v, ts.tail);
        Next(ts.head, ts.tail, EmitExprs(r.value.last.exprs, r.rest));
        ReturnEmits(r.value, r.rest);
      } else if AtWord(ts, KwBreak) && v.BreakIsLast() {
        LastIsKept(ts);
      } else if !BlockEnd(ts) {
        if v.Luau? && AtToken(ts, Identifier("continue")) && (BlockEnd(ts.tail) || AtSign(ts.tail, Semicolon)) {
          LastIsKept(ts);
        } else {
          var stmt := ParseStmt(v, ts);
          StmtIsKept(v, ts);
          StmtsAreKept(v, true, stmt.rest);
          var more := ParseStmts(v, true, stmt.rest);
          PrependKept(stmt.value, more.value, stmt.rest, more.rest);
        }
      }
    }
  }

  lemma ReturnEmits(b: Block, k: Tokens)
    requires b.stmts == NoStmts && b.last.Return?
    ensures EmitBlock(b, k) == Tok(Word(KwReturn), EmitExprs(b.last.exprs, k))
  {
    hide EmitExprs;
  }

  lemma SemicolonSkipped(ts: Tokens)
    ensures Alike(ts, SkipSemicolon(ts))
  {
  }

  lemma LastIsKept(ts: Tokens)
    requires ts.Tok?
    ensures Alike(ts, Tok(ts.head, SkipSemicolon(ts.tail)))
  {
    hide Core, SkipSemicolon;
    SemicolonSkipped(ts.tail);
    Next(ts.head, ts.tail, SkipSemicolon(ts.tail));
  }

  lemma {:induction false} ReturnIsKept(v: Version, ts: Tokens)
    ensures var r := ParseReturn(v, ts);
            r.Ok? ==>
              r.value.stmts == NoStmts && r.value.last.Return? && Alike(ts, EmitExprs(r.value.last.exprs, r.rest))
    decreases Size(ts), 7
  {
    hide ParseExprs, Core, Size, SkipSemicolon;
    if BlockEnd(ts) || AtSign(ts, Semicolon) {
      SemicolonSkipped(ts);
    } else {
      ExprsAreKept(v, ts);
      var exprs := ParseExprs(v, ts);
      if exprs.Ok? {
        SemicolonSkipped(exprs.rest);
        ExprsThen(exprs.value, exprs.rest, SkipSemicolon(exprs.rest));
      }
    }
  }

  predicate StmtKept(ts: Tokens, r: Result<Stmt>) { r.Ok? ==> Alike(ts, EmitStmt(r.value, r.rest)) }

  lemma {:induction false} StmtIsKept(v: Version, ts: Tokens)
    ensures StmtKept(ts, ParseStmt(v, ts))
    decreases Size(ts), 7
  {
    hide ParseWordStmt, ParseSimpleStmt, Core, Size;
    if ts.Tok? {
      if ts.head.Word? {
        WordStmtIsKept(v, ts.head.keyword, ts);
      } else if ts.head == Sign(LeftParen) || ts.head.Identifier? {
        SimpleStmtIsKept(v, ts);
      }
    }
  }

  lemma CompoundWritten(t: Token)
    requires CompoundOpOf(t).Some?
    ensures CompoundToken(CompoundOpOf(t).value) == t
  {
  }

  lemma {:induction false} SimpleStmtIsKept(v: Version, ts: Tokens)
    ensures StmtKept(ts, ParseSimpleStmt(v, ts))
    decreases Size(ts), 6
  {
    hide ParseExpr, ParseExprs, ParseTargets, Core, Size, CompoundOpOf, CompoundToken, EmitExpr, EmitExprs, MoreTargets;
    var r := ParseSimpleStmt(v, ts);
    if r.Ok? {
      var first := ParseExpr(v, 0, ts);
      ExprIsKept(v, 0, ts);
      if v.Luau? && first.rest.Tok? && CompoundOpOf(first.rest.head).Some? {
        SmallerTail(first.rest);
        ExprIsKept(v, 0, first.rest.tail);
        CompoundIsKept(first.value, first.rest, r.value.value, r.rest);
      } else if AtSign(first.rest, Comma) || AtSign(first.rest, Equal) {
        TargetsAreKept(v, first.rest);
        var more := ParseTargets(v, first.rest);
        SmallerTail(more.rest);
        ExprsAreKept(v, more.rest.tail);
        AssignIsKept(first.value, first.rest, more.value, more.rest, r.value.values, r.rest);
      }
    }
  }

  /** A comma and expressions behind it, or nothing. */
  function MoreTargets(es: Exprs, k: Tokens): Tokens { if es.NoExprs? then k else Tok(Sign(Comma), EmitExprs(es, k)) }

  lemma TargetsEmit(e: Expr, es: Exprs, k: Tokens)
    ensures EmitExprs(MoreExprs(e, es), k) == EmitExpr(e, MoreTargets(es, k))
  {
    hide EmitExpr;
  }

  lemma MoreExprsThen(es: Exprs, k: Tokens, l: Tokens)
    requires Alike(k, l)
    ensures Alike(MoreTargets(es, k), MoreTargets(es, l))
  {
    hide Core, EmitExprs;
    ExprsThen(es, k, l);
    Next(Sign(Comma), EmitExprs(es, k), EmitExprs(es, l));
  }

  lemma CompoundIsKept(target: Expr, ts: Tokens, value: Expr, k: Tokens)
    requires ts.Tok? && CompoundOpOf(ts.head).Some? && Alike(ts.tail, EmitExpr(value, k))
    ensures Alike(EmitExpr(target, ts), EmitStmt(Compound(target, CompoundOpOf(ts.head).value, value), k))
  {
    hide Core, EmitExpr, CompoundOpOf, CompoundToken;
    CompoundWritten(ts.head);
    Next(ts.head, ts.tail, EmitExpr(value, k));
    ExprThen(target, ts, Tok(ts.head, EmitExpr(value, k)));
  }

  lemma AssignIsKept(target: Expr, ts: Tokens, more: Exprs, us: Tokens, values: Exprs, k: Tokens)
    requires Alike(ts, MoreTargets(more, us)) && AtSign(us, Equal) && Alike(us.tail, EmitExprs(values, k))
    ensures Alike(EmitExpr(target, ts), EmitStmt(Assign(MoreExprs(target, more), values), k))
  {
    hide Core, EmitExpr, EmitExprs, MoreTargets;
    var rest := EmitExprs(values, k);
    Next(Sign(Equal), us.tail, rest);
    MoreExprsThen(more, us, Tok(Sign(Equal), rest));
    ExprThen(target, ts, MoreTargets(more, Tok(Sign(Equal), rest)));
    TargetsEmit(target, more, Tok(Sign(Equal), rest));
  }

  lemma {:induction false} TargetsAreKept(v: Version, ts: Tokens)
    ensures var r := ParseTargets(v, ts); r.Ok? ==> Alike(ts, MoreTargets(r.value, r.rest))
    decreases Size(ts), 0
  {
    hide ParseExpr, Core, Size;
    if AtSign(ts, Comma) {
      SmallerTail(ts);
      var next := ParseExpr(v, 0, ts.tail);
      ExprIsKept(v, 0, ts.tail);
      if next.Ok? {
        TargetsAreKept(v, next.rest);
        var more := ParseTargets(v, next.rest);
        if more.Ok? {
          ExprThen(next.value, next.rest, MoreTargets(more.value, more.rest));
          Next(Sign(Comma), ts.tail, EmitExpr(next.value, MoreTargets(more.value, more.rest)));
        }
      }
    }
  }

  lemma {:induction false} EndedIsKept(v: Version, ts: Tokens)
    ensures var r := ParseEnded(v, ts); r.Ok? ==> Alike(ts, EmitBlock(r.value, Tok(Word(KwEnd), r.rest)))
    decreases Size(ts), 10
  {
    hide ParseBlock, Core, Size;
    BlockIsKept(v, ts);
  }

  lemma {:induction false} LoopBodyIsKept(v: Version, ts: Tokens)
    ensures var r := ParseLoopBody(v, ts); r.Ok? ==> Alike(ts, EmitLoopBody(r.value, r.rest))
    decreases Size(ts), 0
  {
    hide ParseEnded, Core, Size, EmitBlock;
    if AtWord(ts, KwDo) {
      SmallerTail(ts);
      EndedIsKept(v, ts.tail);
      var block := ParseEnded(v, ts.tail);
      if block.Ok? {
        Next(ts.head, ts.tail, EmitBlock(block.value, Tok(Word(KwEnd), block.rest)));
      }
    }
  }

  lemma {:induction false} WordStmtIsKept(v: Version, w: Keyword, ts: Tokens)
    requires ts.Tok? && ts.head == Word(w)
    ensures StmtKept(ts, ParseWordStmt(v, w, ts))
    decreases Size(ts), 1
  {
    hide ParseExpr, ParseBlock, ParseEnded, ParseLoopBody, ParseStmtArms, ParseNumericFor, ParseGenericFor,
         ParseFunctionDecl, ParseLocal, Core, Size, EmitBlock, EmitLoopBody, EmitStmtArms;
    var r := ParseWordStmt(v, w, ts);
    if r.Ok? {
      SmallerTail(ts);
      match w
      case KwDo =>
        EndedIsKept(v, ts.tail);
        DoEmits(r.value.block, r.rest);
        Next(ts.head, ts.tail, EmitBlock(r.value.block, Tok(Word(KwEnd), r.rest)));
      case KwWhile => WhileIsKept(v, ts);
      case KwRepeat => RepeatIsKept(v, ts);
      case KwIf => IfIsKept(v, ts);
      case KwFor =>
        if AtName(ts.tail) && NextSign(ts.tail, Equal) {
          SmallerTail(ts.tail);
          SmallerTail(ts.tail.tail);
          NumericForIsKept(v, ts.tail.head.name, ts.tail.tail.tail);
          var bounds := EmitStmt(r.value, r.rest).tail.tail.tail;
          NumericForEmits(r.value, r.rest);
          Next(ts.tail.tail.head, ts.tail.tail.tail, bounds);
          Next(ts.tail.head, ts.tail.tail, Tok(Sign(Equal), bounds));
          Next(ts.head, ts.tail, Tok(ts.tail.head, Tok(Sign(Equal), bounds)));
        } else {
          GenericForIsKept(v, ts.tail);
          Next(ts.head, ts.tail, EmitStmt(r.value, r.rest).tail);
        }
      case KwFunction =>
        FunctionDeclIsKept(v, ts.tail);
        Next(ts.head, ts.tail, EmitStmt(r.value, r.rest).tail);
      case KwLocal =>
        LocalIsKept(v, ts.tail);
      case KwBreak =>
      case KwGoto =>
    }
  }

  lemma DoEmits(block: Block, k: Tokens)
    ensures EmitStmt(Do(block), k) == Tok(Word(KwDo), EmitBlock(block, Tok(Word(KwEnd), k)))
  {
    hide EmitBlock;
  }

  lemma {:induction false} WhileIsKept(v: Version, ts: Tokens)
    requires AtWord(ts, KwWhile)
    ensures StmtKept(ts, ParseWordStmt(v, KwWhile, ts))
    decreases Size(ts), 0
  {
    hide ParseExpr, ParseLoopBody, Core, Size, EmitLoopBody;
    var r := ParseWordStmt(v, KwWhile, ts);
    if r.Ok? {
      ExprIsKept(v, 0, ts.tail);
      var condition := ParseExpr(v, 0, ts.tail);
      LoopBodyIsKept(v, condition.rest);
      var rest := EmitLoopBody(r.value.block, r.rest);
      ExprThen(condition.value, condition.rest, rest);
      Next(ts.head, ts.tail, EmitExpr(condition.value, rest));
    }
  }

  lemma {:induction false} RepeatIsKept(v: Version, ts: Tokens)
    requires AtWord(ts, KwRepeat)
    ensures StmtKept(ts, ParseWordStmt(v, KwRepeat, ts))
    decreases Size(ts), 0
  {
    hide ParseExpr, ParseBlock, Core, Size, EmitBlock;
    var r := ParseWordStmt(v, KwRepeat, ts);
    if r.Ok? {
      BlockIsKept(v, ts.tail);
      var block := ParseBlock(v, ts.tail);
      SmallerTail(block.rest);
      ExprIsKept(v, 0, block.rest.tail);
      var rest := EmitExpr(r.value.condition, r.rest);
      Next(block.rest.head, block.rest.tail, rest);
      BlockThen(block.value, block.rest, Tok(Word(KwUntil), rest));
      Next(ts.head, ts.tail, EmitBlock(block.value, Tok(Word(KwUntil), rest)));
    }
  }

  lemma {:induction false} IfIsKept(v: Version, ts: Tokens)
    requires AtWord(ts, KwIf)
    ensures StmtKept(ts, ParseWordStmt(v, KwIf, ts))
    decreases Size(ts), 0
  {
    hide ParseExpr, ParseBlock, ParseStmtArms, Core, Size, EmitBlock, EmitStmtArms;
    var r := ParseWordStmt(v, KwIf, ts);
    if r.Ok? {
      ExprIsKept(v, 0, ts.tail);
      var condition := ParseExpr(v, 0, ts.tail);
      SmallerTail(condition.rest);
      BlockIsKept(v, condition.rest.tail);
      var block := ParseBlock(v, condition.rest.tail);
      StmtArmsAreKept(v, block.rest);
      var rest := EmitStmtArms(r.value.arms, r.rest);
      BlockThen(block.value, block.rest, rest);
      ThenKept(condition.value, condition.rest, EmitBlock(block.value, rest));
      Next(ts.head, ts.tail, EmitExpr(condition.value, Tok(Word(KwThen), EmitBlock(block.value, rest))));
    }
  }

  lemma {:induction false} StmtArmsAreKept(v: Version, ts: Tokens)
    ensures var r := ParseStmtArms(v, ts); r.Ok? ==> Alike(ts, EmitStmtArms(r.value, r.rest))
    decreases Size(ts), 0
  {
    hide ParseExpr, ParseBlock, ParseEnded, Core, Size, EmitBlock;
    var r := ParseStmtArms(v, ts);
    if r.Ok? {
      SmallerTail(ts);
      if AtWord(ts, KwElseIf) {
        ExprIsKept(v, 0, ts.tail);
        var condition := ParseExpr(v, 0, ts.tail);
        SmallerTail(condition.rest);
        BlockIsKept(v, condition.rest.tail);
        var block := ParseBlock(v, condition.rest.tail);
        StmtArmsAreKept(v, block.rest);
        var rest := EmitStmtArms(r.value.rest, r.rest);
        BlockThen(block.value, block.rest, rest);
        ThenKept(condition.value, condition.rest, EmitBlock(block.value, rest));
        Next(ts.head, ts.tail, EmitExpr(condition.value, Tok(Word(KwThen), EmitBlock(block.value, rest))));
      } else if AtWord(ts, KwElse) {
        EndedIsKept(v, ts.tail);
        Next(ts.head, ts.tail, EmitBlock(r.value.block, Tok(Word(KwEnd), r.rest)));
      }
    }
  }

  /** What stands behind the `=` of a counting loop. */
  function Bounds(start: Expr, limit: Expr, step: Option<Expr>, block: Block, k: Tokens): Tokens {
    EmitExpr(start, Tok(Sign(Comma), EmitExpr(limit, EmitStep(step, EmitLoopBody(block, k)))))
  }

  lemma NumericForEmits(s: Stmt, k: Tokens)
    requires s.NumericFor?
    ensures EmitStmt(s, k)
            == Tok(Word(KwFor), Tok(Identifier(s.name), Tok(Sign(Equal), Bounds(s.start, s.limit, s.step, s.block, k))))
  {
    hide EmitExpr, EmitLoopBody;
  }

  lemma {:induction false} NumericForIsKept(v: Version, name: string, ts: Tokens)
    ensures var r := ParseNumericFor(v, name, ts);
            r.Ok? ==> r.value.NumericFor? && r.value.name == name
                      && Alike(ts, Bounds(r.value.start, r.value.limit, r.value.step, r.value.block, r.rest))
    decreases Size(ts), 6
  {
    hide ParseExpr, ParseStep, ParseLoopBody, Core, Size, EmitLoopBody, EmitStep;
    var r := ParseNumericFor(v, name, ts);
    if r.Ok? {
      ExprIsKept(v, 0, ts);
      var start := ParseExpr(v, 0, ts);
      SmallerTail(start.rest);
      ExprIsKept(v, 0, start.rest.tail);
      var limit := ParseExpr(v, 0, start.rest.tail);
      StepIsKept(v, limit.rest);
      var step := ParseStep(v, limit.rest);
      LoopBodyIsKept(v, step.rest);
      var rest := EmitLoopBody(r.value.block, r.rest);
      StepFollowed(step.value, step.rest, rest);
      ExprThen(limit.value, limit.rest, EmitStep(step.value, rest));
      Next(Sign(Comma), start.rest.tail, EmitExpr(limit.value, EmitStep(step.value, rest)));
      ExprThen(start.value, start.rest, Tok(Sign(Comma), EmitExpr(limit.value, EmitStep(step.value, rest))));
    }
  }

  /** A step, whatever follows it. */
  function StepThenTokens(step: Option<Expr>, k: Tokens): Tokens {
    match step
    case None => k
    case Some(e) => Tok(Sign(Comma), EmitExpr(e, k))
  }

  lemma StepFollowed(step: Option<Expr>, k: Tokens, l: Tokens)
    requires Alike(k, l) && l.Tok?
    ensures Alike(StepThenTokens(step, k), EmitStep(step, l))
  {
    hide Core, EmitExpr;
    if step.Some? {
      ExprThen(step.value, k, l);
      Next(Sign(Comma), EmitExpr(step.value, k), EmitExpr(step.value, l));
    }
  }

  lemma {:induction false} StepIsKept(v: Version, ts: Tokens)
    ensures var r := ParseStep(v, ts); r.Ok? ==> Alike(ts, StepThenTokens(r.value, r.rest))
    decreases Size(ts), 0
  {
    hide ParseExpr, Core, Size;
    if AtSign(ts, Comma) {
      SmallerTail(ts);
      ExprIsKept(v, 0, ts.tail);
      var step := ParseExpr(v, 0, ts.tail);
      if step.Ok? {
        Next(ts.head, ts.tail, EmitExpr(step.value, step.rest));
      }
    }
  }

  lemma {:induction false} GenericForIsKept(v: Version, ts: Tokens)
    ensures var r := ParseGenericFor(v, ts);
            r.Ok? ==> r.value.GenericFor? && Alike(ts, EmitStmt(r.value, r.rest).tail)
    decreases Size(ts), 0
  {
    hide ParseNames, ParseExprs, ParseLoopBody, Core, Size, EmitLoopBody, EmitNames, EmitExprs;
    var r := ParseGenericFor(v, ts);
    if r.Ok? {
      NamesAreKept(Comma, ts);
      var names := ParseNames(Comma, ts);
      SmallerTail(names.rest);
      ExprsAreKept(v, names.rest.tail);
      var exprs := ParseExprs(v, names.rest.tail);
      LoopBodyIsKept(v, exprs.rest);
      var rest := EmitLoopBody(r.value.block, r.rest);
      ExprsThen(exprs.value, exprs.rest, rest);
      Next(Word(KwIn), names.rest.tail, EmitExprs(exprs.value, rest));
      NamesThen(names.value, Comma, names.rest, Tok(Word(KwIn), EmitExprs(exprs.value, rest)));
    }
  }

  lemma SelectorIsKept(ts: Tokens)
    ensures var r := ParseSelector(ts); r.Ok? ==> ts == EmitMethod(r.value, r.rest)
  {
  }

  lemma {:induction false} FunctionDeclIsKept(v: Version, ts: Tokens)
    ensures var r := ParseFunctionDecl(v, ts);
            r.Ok? ==> r.value.FunctionDecl? && Alike(ts, EmitStmt(r.value, r.rest).tail)
    decreases Size(ts), 1
  {
    hide ParseNames, ParseSelector, ParseBody, Core, Size, EmitBody, EmitNames, EmitMethod;
    var r := ParseFunctionDecl(v, ts);
    if r.Ok? {
      NamesAreKept(Dot, ts);
      var path := ParseNames(Dot, ts);
      SelectorIsKept(path.rest);
      var selector := ParseSelector(path.rest);
      BodyIsKept(v, selector.rest);
      var rest := EmitBody(r.value.body, r.rest);
      MethodThen(selector.value, selector.rest, rest);
      NamesThen(path.value, Dot, path.rest, EmitMethod(selector.value, rest));
    }
  }

  lemma {:induction false} BindingsAreKept(v: Version, ts: Tokens)
    ensures var r := ParseBindings(v, ts); r.Ok? ==> ts == EmitBindings(r.value, r.rest)
    decreases Size(ts)
  {
    hide ParseBinding, EmitBinding, Size;
    var first := ParseBinding(v, ts);
    BindingIsKept(v, ts);
    if first.Ok? && AtSign(first.rest, Comma) {
      BindingsAreKept(v, first.rest.tail);
    }
  }

  lemma BindingIsKept(v: Version, ts: Tokens)
    ensures var r := ParseBinding(v, ts); r.Ok? ==> ts == EmitBinding(r.value, r.rest)
  {
  }

  lemma LocalFunctionEmits(s: Stmt, k: Tokens)
    requires s.LocalFunction?
    ensures EmitStmt(s, k) == Tok(Word(KwLocal), Tok(Word(KwFunction), Tok(Identifier(s.name), EmitBody(s.body, k))))
  {
    hide EmitBody;
  }

  lemma LocalEmits(s: Stmt, k: Tokens)
    requires s.Local?
    ensures EmitStmt(s, k)
            == Tok(Word(KwLocal), EmitBindings(s.bindings,
                                               if s.values.NoExprs? then k
                                               else Tok(Sign(Equal), EmitExprs(s.values, k))))
  {
    hide EmitBindings, EmitExprs;
  }

  lemma NamedBodyIsKept(ts: Tokens, body: Body, k: Tokens)
    requires AtWord(ts, KwFunction) && AtName(ts.tail) && Alike(ts.tail.tail, EmitBody(body, k))
    ensures Alike(ts, Tok(Word(KwFunction), Tok(ts.tail.head, EmitBody(body, k))))
  {
    hide Core, EmitBody;
    Next(ts.tail.head, ts.tail.tail, EmitBody(body, k));
    Next(ts.head, ts.tail, Tok(ts.tail.head, EmitBody(body, k)));
  }

  lemma ValuesAreKept(bindings: Bindings, us: Tokens, values: Exprs, k: Tokens)
    requires AtSign(us, Equal) && Alike(us.tail, EmitExprs(values, k))
    ensures Alike(EmitBindings(bindings, us), EmitBindings(bindings, Tok(Sign(Equal), EmitExprs(values, k))))
  {
    hide Core, EmitExprs, EmitBindings;
    Next(us.head, us.tail, EmitExprs(values, k));
    BindingsThen(bindings, us, Tok(Sign(Equal), EmitExprs(values, k)));
  }

  lemma {:induction false} LocalFunctionIsKept(v: Version, ts: Tokens)
    requires AtWord(ts, KwFunction) && ParseLocal(v, ts).Ok?
    ensures StmtKept(Tok(Word(KwLocal), ts), ParseLocal(v, ts))
    decreases Size(ts), 0
  {
    hide ParseBody, Core, Size, EmitBody, EmitStmt;
    SmallerTail(ts);
    SmallerTail(ts.tail);
    BodyIsKept(v, ts.tail.tail);
    var body := ParseBody(v, ts.tail.tail);
    NamedBodyIsKept(ts, body.value, body.rest);
    Next(Word(KwLocal), ts, Tok(Word(KwFunction), Tok(ts.tail.head, EmitBody(body.value, body.rest))));
    LocalFunctionEmits(LocalFunction(ts.tail.head.name, body.value), body.rest);
  }

  lemma {:induction false} LocalNamesAreKept(v: Version, ts: Tokens)
    requires !AtWord(ts, KwFunction) && ParseLocal(v, ts).Ok?
    ensures StmtKept(Tok(Word(KwLocal), ts), ParseLocal(v, ts))
    decreases Size(ts), 0
  {
    hide ParseBindings, ParseExprs, Core, Size, EmitBindings, EmitExprs, Closers, EmitStmt;
    BindingsAreKept(v, ts);
    var bindings := ParseBindings(v, ts);
    if AtSign(bindings.rest, Equal) {
      SmallerTail(bindings.rest);
      ExprsAreKept(v, bindings.rest.tail);
      var values := ParseExprs(v, bindings.rest.tail);
      ValuesAreKept(bindings.value, bindings.rest, values.value, values.rest);
      Next(Word(KwLocal), ts, EmitBindings(bindings.value, Tok(Sign(Equal), EmitExprs(values.value, values.rest))));
      LocalEmits(Local(bindings.value, values.value), values.rest);
    } else {
      LocalEmits(Local(bindings.value, NoExprs), bindings.rest);
    }
  }

  lemma {:induction false} LocalIsKept(v: Version, ts: Tokens)
    ensures StmtKept(Tok(Word(KwLocal), ts), ParseLocal(v, ts))
    decreases Size(ts), 1
  {
    hide ParseLocal, Core, Size, EmitStmt;
    if ParseLocal(v, ts).Ok? {
      if AtWord(ts, KwFunction) {
        LocalFunctionIsKept(v, ts);
      } else {
        LocalNamesAreKept(v, ts);
      }
    }
  }

  // ----- whole programs -----

  /** Every program that is accepted prints the tokens it was read from, the separators aside. */
  lemma ParsedPrintsItsTokens(v: Version, ts: Tokens)
    requires Parse(v, ts).Some?
    ensures Alike(EmitBlock(Parse(v, ts).value, Eof), ts)
  {
    hide ParseBlock, Core, EmitBlock;
    BlockIsKept(v, ts);
  }
}
